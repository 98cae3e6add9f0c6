/**
 * Recording a replay: each tick's game data is sampled into the replay's
 * position and score maps, skipping samples equal to the previous one.
 */
module ReplayController {
  import opened Common
  import opened GameElements
  import opened Replay

  const Epsilon: real := 0.000001

  function Abs(x: real): real { if x < 0.0 then -x else x }

  function ConvertVector2(v: Vector2): Pair { (v.x, v.y) }

  /** The sample recorded for a tick: ball, paddle 1 and paddle 2 positions. */
  function PositionsOf(d: GameData): PositionData
  {
    (ConvertVector2(d.ball.position), ConvertVector2(d.paddle1Position), ConvertVector2(d.paddle2Position))
  }

  function ScoresOf(d: GameData): ScoreData { (d.p1Score, d.p2Score) }

  predicate PairDiffers(a: Pair, b: Pair)
  {
    Abs(a.0 - b.0) > Epsilon || Abs(a.1 - b.1) > Epsilon
  }

  /** Some coordinate moved by more than 1e-6. */
  predicate PositionsDiffer(last: PositionData, p: PositionData)
  {
    PairDiffers(last.0, p.0) || PairDiffers(last.1, p.1) || PairDiffers(last.2, p.2)
  }

  /** A position sample is kept when there is no previous one or it moved. */
  predicate StorePosition(last: Option<PositionData>, p: PositionData)
  {
    last.None? || PositionsDiffer(last.value, p)
  }

  /** A score sample is kept when there is no previous one or a score changed. */
  predicate StoreScore(last: Option<ScoreData>, s: ScoreData)
  {
    last.None? || last.value.0 != s.0 || last.value.1 != s.1
  }

  /** The state of one map after a snapshot. */
  function Record<V>(m: OrderedMap<V>, time: int, v: V, store: bool): (r: OrderedMap<V>)
    requires ValidMap(m)
    ensures ValidMap(r)
  {
    if store then MapSet(m, time, v) else m
  }

  /** `snapshotReplayData`: writes only at `time`, and only samples that differ from the last inserted ones. */
  method SnapshotReplayData(replayData: ReplayData, time: int, gameData: GameData)
    requires replayData.Valid()
    modifies replayData`positionData, replayData`scoreData
    ensures replayData.Valid()
    ensures replayData.positionData ==
              Record(old(replayData.positionData), time, PositionsOf(gameData),
                     StorePosition(LastEntry(old(replayData.positionData)), PositionsOf(gameData)))
    ensures replayData.scoreData ==
              Record(old(replayData.scoreData), time, ScoresOf(gameData),
                     StoreScore(LastEntry(old(replayData.scoreData)), ScoresOf(gameData)))
  {
    var lastEntry := LastEntry(replayData.positionData);
    var lastScoreEntry := LastEntry(replayData.scoreData);
    var newPositions := PositionsOf(gameData);
    if lastEntry.None? ||
       Abs(lastEntry.value.0.0 - newPositions.0.0) > Epsilon ||
       Abs(lastEntry.value.0.1 - newPositions.0.1) > Epsilon ||
       Abs(lastEntry.value.1.0 - newPositions.1.0) > Epsilon ||
       Abs(lastEntry.value.1.1 - newPositions.1.1) > Epsilon ||
       Abs(lastEntry.value.2.0 - newPositions.2.0) > Epsilon ||
       Abs(lastEntry.value.2.1 - newPositions.2.1) > Epsilon {
      replayData.positionData := MapSet(replayData.positionData, time, newPositions);
    }
    var newScores := ScoresOf(gameData);
    if lastScoreEntry.None? || lastScoreEntry.value.0 != newScores.0 || lastScoreEntry.value.1 != newScores.1 {
      replayData.scoreData := MapSet(replayData.scoreData, time, newScores);
    }
  }

  /** Only the key `time` is written; every other entry and the existing order are kept. */
  lemma RecordOnlyAtTime<V>(m: OrderedMap<V>, time: int, v: V, store: bool)
    requires ValidMap(m)
    ensures forall k :: k in m.entries && k != time ==>
              k in Record(m, time, v, store).entries && Record(m, time, v, store).entries[k] == m.entries[k]
    ensures forall k :: k in Record(m, time, v, store).entries ==> k in m.entries || k == time
    ensures m.keys <= Record(m, time, v, store).keys
  {
  }

  /** A sample is dropped exactly when it equals (within 1e-6) the last recorded sample. */
  lemma StorePositionIff(last: Option<PositionData>, p: PositionData)
    ensures !StorePosition(last, p) <==>
              last.Some? &&
              Abs(last.value.0.0 - p.0.0) <= Epsilon && Abs(last.value.0.1 - p.0.1) <= Epsilon &&
              Abs(last.value.1.0 - p.1.0) <= Epsilon && Abs(last.value.1.1 - p.1.1) <= Epsilon &&
              Abs(last.value.2.0 - p.2.0) <= Epsilon && Abs(last.value.2.1 - p.2.1) <= Epsilon
  {
  }

  /**
   * Recording identical game data a second time adds nothing, provided the
   * first recording appended `t1` (its key was new) and thus became the
   * last entry.
   */
  lemma SnapshotTwiceAddsNothing(pos: OrderedMap<PositionData>, sc: OrderedMap<ScoreData>,
                                 t1: int, t2: int, d: GameData)
    requires ValidMap(pos) && ValidMap(sc)
    requires t1 !in pos.entries && t1 !in sc.entries
    ensures var pos1 := Record(pos, t1, PositionsOf(d), StorePosition(LastEntry(pos), PositionsOf(d)));
            var sc1 := Record(sc, t1, ScoresOf(d), StoreScore(LastEntry(sc), ScoresOf(d)));
            !StorePosition(LastEntry(pos1), PositionsOf(d)) && !StoreScore(LastEntry(sc1), ScoresOf(d))
  {
    var p := PositionsOf(d);
    var pos1 := Record(pos, t1, p, StorePosition(LastEntry(pos), p));
    if StorePosition(LastEntry(pos), p) {
      assert pos1.keys[|pos1.keys| - 1] == t1;
      assert LastEntry(pos1) == Some(p);
    }
    var s := ScoresOf(d);
    var sc1 := Record(sc, t1, s, StoreScore(LastEntry(sc), s));
    if StoreScore(LastEntry(sc), s) {
      assert sc1.keys[|sc1.keys| - 1] == t1;
      assert LastEntry(sc1) == Some(s);
    }
  }
}
