/**
 * Game records exchanged between server and clients: vectors, the ball,
 * the game data broadcast every tick and the statistics of a match, with
 * the validators applied to untyped payloads and the default constructors.
 */
module GameElements {
  import opened Common
  import opened Json

  // Game-area constants (areaHeight = 6, paddleWidth = 1, areaWidth = 10).
  const AreaMaxX: real := 3.0
  const AreaMinX: real := -3.0
  const PaddleHalfWidth: real := 0.5
  const PaddleSpeed: real := 5.0
  const PaddleDefaultZPosition: real := 4.4
  const DefaultScoreToWin: real := 7.0
  const MaxScoreToWin: real := 30.0

  datatype Vector2 = Vector2(x: real, y: real)
  datatype Ball = Ball(position: Vector2, velocity: Vector2)
  datatype GameData = GameData(ball: Ball, paddle1Position: Vector2, paddle2Position: Vector2,
                               p1Score: real, p2Score: real)
  datatype GameStats = GameStats(gameStartTime: real, gameEndTime: real,
                                 ballExchangesCount: real, ballCollisionsCount: real,
                                 paddle1DistanceTravelled: real, paddle2DistanceTravelled: real)

  // ---------------------------------------------------------------- validators

  predicate IsVector2(j: Json)
  {
    IsNumberAt(j, "x") && IsNumberAt(j, "y")
  }

  /** `isBall`: a position and a velocity, both vectors. */
  predicate IsBall(j: Json)
  {
    Has(j, "position") && IsVector2(At(j, "position")) &&
    Has(j, "velocity") && IsVector2(At(j, "velocity"))
  }

  predicate IsGameData(j: Json)
  {
    IsObjectAt(j, "ball") && IsBall(At(j, "ball")) &&
    Has(j, "paddle1Position") && IsVector2(At(j, "paddle1Position")) &&
    Has(j, "paddle2Position") && IsVector2(At(j, "paddle2Position")) &&
    IsNumberAt(j, "p1Score") && IsNumberAt(j, "p2Score")
  }

  predicate IsGameStats(j: Json)
  {
    IsNumberAt(j, "gameStartTime") && IsNumberAt(j, "gameEndTime") &&
    IsNumberAt(j, "ballExchangesCount") && IsNumberAt(j, "ballCollisionsCount") &&
    IsNumberAt(j, "paddle1DistanceTravelled") && IsNumberAt(j, "paddle2DistanceTravelled")
  }

  // ------------------------------------------------------ encoders / decoders

  function EncodeVector2(v: Vector2): (j: Json)
    ensures IsVector2(j)
  {
    JObj(map["x" := JNum(v.x), "y" := JNum(v.y)])
  }

  function DecodeVector2(j: Json): (v: Vector2)
    requires IsVector2(j)
    ensures v.x == NumAt(j, "x") && v.y == NumAt(j, "y")
  {
    Vector2(NumAt(j, "x"), NumAt(j, "y"))
  }

  function EncodeBall(b: Ball): (j: Json)
    ensures IsBall(j)
  {
    JObj(map["position" := EncodeVector2(b.position), "velocity" := EncodeVector2(b.velocity)])
  }

  function DecodeBall(j: Json): Ball
    requires IsBall(j)
  {
    Ball(DecodeVector2(At(j, "position")), DecodeVector2(At(j, "velocity")))
  }

  function EncodeGameData(d: GameData): (j: Json)
    ensures IsGameData(j)
  {
    JObj(map["ball" := EncodeBall(d.ball),
             "paddle1Position" := EncodeVector2(d.paddle1Position),
             "paddle2Position" := EncodeVector2(d.paddle2Position),
             "p1Score" := JNum(d.p1Score), "p2Score" := JNum(d.p2Score)])
  }

  function DecodeGameData(j: Json): GameData
    requires IsGameData(j)
  {
    GameData(DecodeBall(At(j, "ball")), DecodeVector2(At(j, "paddle1Position")),
             DecodeVector2(At(j, "paddle2Position")), NumAt(j, "p1Score"), NumAt(j, "p2Score"))
  }

  function EncodeGameStats(s: GameStats): (j: Json)
    ensures IsGameStats(j)
  {
    JObj(map["gameStartTime" := JNum(s.gameStartTime), "gameEndTime" := JNum(s.gameEndTime),
             "ballExchangesCount" := JNum(s.ballExchangesCount),
             "ballCollisionsCount" := JNum(s.ballCollisionsCount),
             "paddle1DistanceTravelled" := JNum(s.paddle1DistanceTravelled),
             "paddle2DistanceTravelled" := JNum(s.paddle2DistanceTravelled)])
  }

  function DecodeGameStats(j: Json): GameStats
    requires IsGameStats(j)
  {
    GameStats(NumAt(j, "gameStartTime"), NumAt(j, "gameEndTime"),
              NumAt(j, "ballExchangesCount"), NumAt(j, "ballCollisionsCount"),
              NumAt(j, "paddle1DistanceTravelled"), NumAt(j, "paddle2DistanceTravelled"))
  }

  lemma Vector2RoundTrip(v: Vector2)
    ensures DecodeVector2(EncodeVector2(v)) == v
  {
  }

  lemma GameDataRoundTrip(d: GameData)
    ensures DecodeGameData(EncodeGameData(d)) == d
  {
    var j := EncodeGameData(d);
    assert At(j, "ball") == EncodeBall(d.ball);
    assert At(j, "paddle1Position") == EncodeVector2(d.paddle1Position);
    assert At(j, "paddle2Position") == EncodeVector2(d.paddle2Position);
  }

  lemma GameStatsRoundTrip(s: GameStats)
    ensures DecodeGameStats(EncodeGameStats(s)) == s
  {
  }

  // -------------------------------------------------------------- constructors

  /** `newGameData`: ball at rest in the centre, paddles on their goal lines, 0-0. */
  function NewGameData(): (d: GameData)
    ensures d.ball.position == Vector2(0.0, 0.0) && d.ball.velocity == Vector2(0.0, 0.0)
    ensures d.paddle1Position == Vector2(0.0, PaddleDefaultZPosition)
    ensures d.paddle2Position == Vector2(0.0, -PaddleDefaultZPosition)
    ensures d.p1Score == 0.0 && d.p2Score == 0.0
    ensures IsGameData(EncodeGameData(d))
  {
    GameData(Ball(Vector2(0.0, 0.0), Vector2(0.0, 0.0)),
             Vector2(0.0, PaddleDefaultZPosition), Vector2(0.0, -PaddleDefaultZPosition), 0.0, 0.0)
  }

  /** `newGameStats`: every counter and time is zero. */
  function NewGameStats(): (s: GameStats)
    ensures s == GameStats(0.0, 0.0, 0.0, 0.0, 0.0, 0.0)
    ensures IsGameStats(EncodeGameStats(s))
  {
    GameStats(0.0, 0.0, 0.0, 0.0, 0.0, 0.0)
  }
}
