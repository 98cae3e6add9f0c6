/**
 * The payloads of the "game" channel: one constructor per message type,
 * the validators applied to an untyped payload, and the encoder/decoder
 * pair that ties the two together.
 */
module GameMessages {
  import opened Common
  import opened Json
  import opened GameElements

  /** A player's index in a room. */
  type PlayerIndex = i: int | i == 1 || i == 2 witness 1

  datatype GameMessage =
    | SkinChange(id: PlayerIndex, skinId: string)
    | PaddlePosition(position: Vector2)
    | GameDataMsg(data: GameData)
    | GameStarted(id: PlayerIndex)
    | GameResult(p1Score: real, p2Score: real, winnerUUID: string, winner: string, gameStats: GameStats)
    | Disconnection(id: PlayerIndex)
    | Reconnection(id: PlayerIndex, selfSkinId: string, otherSkinId: string)
    | Matchmaking
    | LeaveGame
    | ReadyToPlay(opponentUuid: string)
    | SpectatingRequest(target: string)

  datatype GameKind =
    | SkinChangeKind | PaddlePositionKind | GameDataKind | GameStartedKind | GameResultKind
    | DisconnectionKind | ReconnectionKind | MatchmakingKind | LeaveGameKind
    | ReadyToPlayKind | SpectatingRequestKind

  /** `data.id === 1 || data.id === 2` */
  predicate HasPlayerIndex(j: Json)
  {
    Get(j, "id") == Some(JNum(1.0)) || Get(j, "id") == Some(JNum(2.0))
  }

  function IndexAt(j: Json): (i: PlayerIndex)
    requires HasPlayerIndex(j)
    ensures Get(j, "id") == Some(JNum(i as real))
  {
    if Get(j, "id") == Some(JNum(1.0)) then 1 else 2
  }

  predicate IsSkinChangeMessage(j: Json)
  {
    HasTag(j, "skinId") && HasPlayerIndex(j) && IsStringAt(j, "skinId")
  }

  predicate IsPaddlePositionMessage(j: Json)
  {
    HasTag(j, "paddlePosition") && Has(j, "position") && IsVector2(At(j, "position"))
  }

  predicate IsGameDataMessage(j: Json)
  {
    HasTag(j, "gameData") && IsObjectAt(j, "data") && IsGameData(At(j, "data"))
  }

  predicate IsGameStartedMessage(j: Json)
  {
    HasTag(j, "gameStarted") && HasPlayerIndex(j)
  }

  predicate IsGameResultMessage(j: Json)
  {
    HasTag(j, "gameResult") && IsNumberAt(j, "p1Score") && IsNumberAt(j, "p2Score") &&
    IsStringAt(j, "winnerUUID") && IsStringAt(j, "winner") &&
    IsObjectAt(j, "gameStats") && IsGameStats(At(j, "gameStats"))
  }

  predicate IsDisconnectionMessage(j: Json)
  {
    HasTag(j, "disconnection") && HasPlayerIndex(j)
  }

  predicate IsReconnectionMessage(j: Json)
  {
    HasTag(j, "reconnection") && HasPlayerIndex(j) &&
    IsStringAt(j, "selfSkinId") && IsStringAt(j, "otherSkinId")
  }

  predicate IsMatchmakingMessage(j: Json) { HasTag(j, "matchmaking") }

  predicate IsLeaveGameMessage(j: Json) { HasTag(j, "leaveGame") }

  predicate IsReadyToPlayMessage(j: Json)
  {
    HasTag(j, "readyToPlay") && IsStringAt(j, "opponentUuid")
  }

  predicate IsSpectatingRequestMessage(j: Json)
  {
    HasTag(j, "spectatingRequest") && IsStringAt(j, "target")
  }

  /** The validator of each message type. */
  predicate Accepts(k: GameKind, j: Json)
  {
    match k
    case SkinChangeKind => IsSkinChangeMessage(j)
    case PaddlePositionKind => IsPaddlePositionMessage(j)
    case GameDataKind => IsGameDataMessage(j)
    case GameStartedKind => IsGameStartedMessage(j)
    case GameResultKind => IsGameResultMessage(j)
    case DisconnectionKind => IsDisconnectionMessage(j)
    case ReconnectionKind => IsReconnectionMessage(j)
    case MatchmakingKind => IsMatchmakingMessage(j)
    case LeaveGameKind => IsLeaveGameMessage(j)
    case ReadyToPlayKind => IsReadyToPlayMessage(j)
    case SpectatingRequestKind => IsSpectatingRequestMessage(j)
  }

  function KindOf(m: GameMessage): GameKind
  {
    match m
    case SkinChange(_, _) => SkinChangeKind
    case PaddlePosition(_) => PaddlePositionKind
    case GameDataMsg(_) => GameDataKind
    case GameStarted(_) => GameStartedKind
    case GameResult(_, _, _, _, _) => GameResultKind
    case Disconnection(_) => DisconnectionKind
    case Reconnection(_, _, _) => ReconnectionKind
    case Matchmaking => MatchmakingKind
    case LeaveGame => LeaveGameKind
    case ReadyToPlay(_) => ReadyToPlayKind
    case SpectatingRequest(_) => SpectatingRequestKind
  }

  function Tag(k: GameKind): string
  {
    match k
    case SkinChangeKind => "skinId"
    case PaddlePositionKind => "paddlePosition"
    case GameDataKind => "gameData"
    case GameStartedKind => "gameStarted"
    case GameResultKind => "gameResult"
    case DisconnectionKind => "disconnection"
    case ReconnectionKind => "reconnection"
    case MatchmakingKind => "matchmaking"
    case LeaveGameKind => "leaveGame"
    case ReadyToPlayKind => "readyToPlay"
    case SpectatingRequestKind => "spectatingRequest"
  }

  function Encode(m: GameMessage): (j: Json)
    ensures HasTag(j, Tag(KindOf(m)))
  {
    var t := map["type" := JStr(Tag(KindOf(m)))];
    match m
    case SkinChange(id, skin) => JObj(t["id" := JNum(id as real)]["skinId" := JStr(skin)])
    case PaddlePosition(p) => JObj(t["position" := EncodeVector2(p)])
    case GameDataMsg(d) => JObj(t["data" := EncodeGameData(d)])
    case GameStarted(id) => JObj(t["id" := JNum(id as real)])
    case GameResult(s1, s2, wu, w, st) =>
      JObj(t["p1Score" := JNum(s1)]["p2Score" := JNum(s2)]["winnerUUID" := JStr(wu)]
            ["winner" := JStr(w)]["gameStats" := EncodeGameStats(st)])
    case Disconnection(id) => JObj(t["id" := JNum(id as real)])
    case Reconnection(id, s, o) =>
      JObj(t["id" := JNum(id as real)]["selfSkinId" := JStr(s)]["otherSkinId" := JStr(o)])
    case Matchmaking => JObj(t)
    case LeaveGame => JObj(t)
    case ReadyToPlay(u) => JObj(t["opponentUuid" := JStr(u)])
    case SpectatingRequest(u) => JObj(t["target" := JStr(u)])
  }

  /** The first validator, in declaration order, that accepts the payload. */
  function Classify(j: Json): (r: Option<GameKind>)
    ensures r.Some? ==> Accepts(r.value, j)
    ensures r.None? ==> forall k :: !Accepts(k, j)
  {
    if IsSkinChangeMessage(j) then Some(SkinChangeKind)
    else if IsPaddlePositionMessage(j) then Some(PaddlePositionKind)
    else if IsGameDataMessage(j) then Some(GameDataKind)
    else if IsGameStartedMessage(j) then Some(GameStartedKind)
    else if IsGameResultMessage(j) then Some(GameResultKind)
    else if IsDisconnectionMessage(j) then Some(DisconnectionKind)
    else if IsReconnectionMessage(j) then Some(ReconnectionKind)
    else if IsMatchmakingMessage(j) then Some(MatchmakingKind)
    else if IsLeaveGameMessage(j) then Some(LeaveGameKind)
    else if IsReadyToPlayMessage(j) then Some(ReadyToPlayKind)
    else if IsSpectatingRequestMessage(j) then Some(SpectatingRequestKind)
    else None
  }

  /** The message of kind `k` read from a payload its validator accepts. */
  function DecodeAs(k: GameKind, j: Json): (m: GameMessage)
    requires Accepts(k, j)
    ensures KindOf(m) == k
  {
    match k
    case SkinChangeKind => SkinChange(IndexAt(j), StrAt(j, "skinId"))
    case PaddlePositionKind => PaddlePosition(DecodeVector2(At(j, "position")))
    case GameDataKind => GameDataMsg(DecodeGameData(At(j, "data")))
    case GameStartedKind => GameStarted(IndexAt(j))
    case GameResultKind =>
      GameResult(NumAt(j, "p1Score"), NumAt(j, "p2Score"), StrAt(j, "winnerUUID"),
                 StrAt(j, "winner"), DecodeGameStats(At(j, "gameStats")))
    case DisconnectionKind => Disconnection(IndexAt(j))
    case ReconnectionKind => Reconnection(IndexAt(j), StrAt(j, "selfSkinId"), StrAt(j, "otherSkinId"))
    case MatchmakingKind => Matchmaking
    case LeaveGameKind => LeaveGame
    case ReadyToPlayKind => ReadyToPlay(StrAt(j, "opponentUuid"))
    case SpectatingRequestKind => SpectatingRequest(StrAt(j, "target"))
  }

  /** Classifies a payload, trying the validators in declaration order. */
  function Decode(j: Json): (r: Option<GameMessage>)
    ensures r.Some? <==> exists k :: Accepts(k, j)
    ensures r.Some? ==> Accepts(KindOf(r.value), j)
  {
    match Classify(j)
    case None => None
    case Some(k) => Some(DecodeAs(k, j))
  }

  /** Every validator demands its own tag. */
  lemma AcceptsHasTag(k: GameKind, j: Json)
    requires Accepts(k, j)
    ensures HasTag(j, Tag(k))
  {
  }

  /** The tags are pairwise distinct, so at most one validator accepts a payload. */
  lemma ValidatorsExclusive(k1: GameKind, k2: GameKind, j: Json)
    requires Accepts(k1, j) && Accepts(k2, j)
    ensures k1 == k2
  {
    AcceptsHasTag(k1, j);
    AcceptsHasTag(k2, j);
    TagInjective(k1, k2);
  }

  lemma TagInjective(k1: GameKind, k2: GameKind)
    requires Tag(k1) == Tag(k2)
    ensures k1 == k2
  {
    assert Tag(k1)[..3] == Tag(k2)[..3];
    if Tag(k1)[..3] == "gam" || Tag(k1)[..3] == "rea" {
      assert Tag(k1)[4] == Tag(k2)[4];
    }
  }

  /** The messages that carry a player index. */
  predicate IsIndexed(m: GameMessage)
  {
    m.SkinChange? || m.GameStarted? || m.Disconnection? || m.Reconnection?
  }

  /** The messages, other than a game result, that carry a nested object. */
  predicate IsNested(m: GameMessage)
  {
    m.PaddlePosition? || m.GameDataMsg?
  }

  lemma EncodeAcceptedIndexed(m: GameMessage)
    requires IsIndexed(m)
    ensures Accepts(KindOf(m), Encode(m))
  {
  }

  lemma EncodeAcceptedNested(m: GameMessage)
    requires IsNested(m)
    ensures Accepts(KindOf(m), Encode(m))
  {
    var j := Encode(m);
    match m {
      case PaddlePosition(p) => assert At(j, "position") == EncodeVector2(p);
      case GameDataMsg(d) => assert At(j, "data") == EncodeGameData(d);
    }
  }

  lemma EncodeAcceptedResult(m: GameMessage)
    requires m.GameResult?
    ensures Accepts(KindOf(m), Encode(m))
  {
    assert At(Encode(m), "gameStats") == EncodeGameStats(m.gameStats);
  }

  lemma EncodeAcceptedPlain(m: GameMessage)
    requires !IsIndexed(m) && !IsNested(m) && !m.GameResult?
    ensures Accepts(KindOf(m), Encode(m))
  {
  }

  /** The encoding of a message passes exactly the validator of its type. */
  lemma EncodeAccepted(m: GameMessage)
    ensures Accepts(KindOf(m), Encode(m))
    ensures forall k :: Accepts(k, Encode(m)) ==> k == KindOf(m)
  {
    var j := Encode(m);
    if IsIndexed(m) {
      EncodeAcceptedIndexed(m);
    } else if IsNested(m) {
      EncodeAcceptedNested(m);
    } else if m.GameResult? {
      EncodeAcceptedResult(m);
    } else {
      EncodeAcceptedPlain(m);
    }
    forall k | Accepts(k, j) ensures k == KindOf(m) {
      ValidatorsExclusive(k, KindOf(m), j);
    }
  }

  lemma DecodeEncodeIndexed(m: GameMessage)
    requires IsIndexed(m)
    ensures Decode(Encode(m)) == Some(m)
  {
    EncodeAccepted(m);
  }

  lemma DecodeEncodeNested(m: GameMessage)
    requires IsNested(m)
    ensures Decode(Encode(m)) == Some(m)
  {
    var j := Encode(m);
    EncodeAccepted(m);
    match m
    case PaddlePosition(p) =>
      assert At(j, "position") == EncodeVector2(p);
    case GameDataMsg(d) =>
      assert At(j, "data") == EncodeGameData(d);
      GameDataRoundTrip(d);
  }

  lemma DecodeEncodeResult(m: GameMessage)
    requires m.GameResult?
    ensures Decode(Encode(m)) == Some(m)
  {
    EncodeAccepted(m);
    assert At(Encode(m), "gameStats") == EncodeGameStats(m.gameStats);
    GameStatsRoundTrip(m.gameStats);
  }

  lemma DecodeEncodePlain(m: GameMessage)
    requires !IsIndexed(m) && !IsNested(m) && !m.GameResult?
    ensures Decode(Encode(m)) == Some(m)
  {
    EncodeAccepted(m);
  }

  /** Decoding an encoded message gives the message back. */
  lemma DecodeEncode(m: GameMessage)
    ensures Decode(Encode(m)) == Some(m)
  {
    if IsIndexed(m) {
      DecodeEncodeIndexed(m);
    } else if IsNested(m) {
      DecodeEncodeNested(m);
    } else if m.GameResult? {
      DecodeEncodeResult(m);
    } else {
      DecodeEncodePlain(m);
    }
  }
}
