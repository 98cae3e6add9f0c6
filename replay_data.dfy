/**
 * Replay recordings: time-keyed samples of positions and scores, kept in
 * insertion order like a JavaScript `Map`, with the "latest sample at or
 * before t" lookups used to play them back.
 */
module Replay {
  import opened Common
  import opened Json

  /** `[x, y]` */
  type Pair = (real, real)
  /** Ball, paddle 1 and paddle 2 positions. */
  type PositionData = (Pair, Pair, Pair)
  /** Player 1 and player 2 scores. */
  type ScoreData = Pair

  /** A `Map<number, V>`: its keys in insertion order, and the entries. */
  datatype OrderedMap<V> = OrderedMap(keys: seq<int>, entries: map<int, V>)

  predicate ValidMap<V>(m: OrderedMap<V>)
  {
    Distinct(m.keys) &&
    (forall k :: k in m.entries ==> k in m.keys) && (forall k :: k in m.keys ==> k in m.entries)
  }

  function EmptyMap<V>(): (m: OrderedMap<V>)
    ensures ValidMap(m) && m.keys == []
  {
    OrderedMap([], map[])
  }

  /** `map.set(k, v)`: a new key goes last, an existing key keeps its place. */
  function MapSet<V>(m: OrderedMap<V>, k: int, v: V): (r: OrderedMap<V>)
    requires ValidMap(m)
    ensures ValidMap(r)
    ensures r.entries == m.entries[k := v]
    ensures r.keys == if k in m.entries then m.keys else m.keys + [k]
  {
    OrderedMap(if k in m.entries then m.keys else m.keys + [k], m.entries[k := v])
  }

  /** `map.get(Array.from(map.keys()).pop() ?? 0)`: the most recently inserted entry. */
  function LastEntry<V>(m: OrderedMap<V>): (r: Option<V>)
    requires ValidMap(m)
    ensures r.None? <==> |m.keys| == 0
    ensures |m.keys| > 0 ==> m.keys[|m.keys| - 1] in m.entries && r == Some(m.entries[m.keys[|m.keys| - 1]])
  {
    if |m.keys| == 0 then None
    else
      var k := m.keys[|m.keys| - 1];
      assert k in m.keys;
      Some(m.entries[k])
  }

  /** `new Map(pairs)`: later pairs overwrite earlier ones with the same key. */
  function FromPairs<V>(pairs: seq<(int, V)>): (m: OrderedMap<V>)
    ensures ValidMap(m)
  {
    if |pairs| == 0 then EmptyMap()
    else MapSet(FromPairs(pairs[..|pairs| - 1]), pairs[|pairs| - 1].0, pairs[|pairs| - 1].1)
  }

  /** Each key of the list is present, bound to the value of its last pair. */
  lemma {:induction false} FromPairsEntries<V>(pairs: seq<(int, V)>, i: int)
    requires 0 <= i < |pairs|
    requires forall j :: i < j < |pairs| ==> pairs[j].0 != pairs[i].0
    ensures pairs[i].0 in FromPairs(pairs).entries
    ensures FromPairs(pairs).entries[pairs[i].0] == pairs[i].1
  {
    if i < |pairs| - 1 {
      FromPairsEntries(pairs[..|pairs| - 1], i);
    }
  }

  /** No key appears that is not in the list. */
  lemma {:induction false} FromPairsKeys<V>(pairs: seq<(int, V)>, k: int)
    requires k in FromPairs(pairs).entries
    ensures exists i :: 0 <= i < |pairs| && pairs[i].0 == k
  {
    var n := |pairs|;
    if pairs[n - 1].0 != k {
      FromPairsKeys(pairs[..n - 1], k);
      var i :| 0 <= i < n - 1 && pairs[..n - 1][i].0 == k;
      assert pairs[i].0 == k;
    }
  }

  // ----------------------------------------------------------- sorted lookup

  predicate Sorted(s: seq<int>) { forall i, j :: 0 <= i < j < |s| ==> s[i] <= s[j] }

  function Insert(x: int, s: seq<int>): seq<int>
  {
    if |s| == 0 then [x]
    else if x <= s[0] then [x] + s
    else [s[0]] + Insert(x, s[1..])
  }

  lemma {:induction false} InsertPermutes(x: int, s: seq<int>)
    ensures multiset(Insert(x, s)) == multiset(s) + multiset{x}
  {
    if |s| > 0 && x > s[0] {
      InsertPermutes(x, s[1..]);
      assert s == [s[0]] + s[1..];
    }
  }

  predicate AllAtLeast(a: int, s: seq<int>) { forall i :: 0 <= i < |s| ==> a <= s[i] }

  lemma PrependSorted(a: int, t: seq<int>)
    requires Sorted(t) && AllAtLeast(a, t)
    ensures Sorted([a] + t)
  {
    var r := [a] + t;
    forall i, j | 0 <= i < j < |r| ensures r[i] <= r[j] {
      if i > 0 { assert r[i] == t[i - 1] && r[j] == t[j - 1]; }
      else { assert r[j] == t[j - 1]; }
    }
  }

  lemma {:induction false} InsertBounds(x: int, s: seq<int>, a: int)
    requires a <= x && AllAtLeast(a, s)
    ensures AllAtLeast(a, Insert(x, s))
  {
    if |s| > 0 && x > s[0] {
      InsertBounds(x, s[1..], a);
      assert Insert(x, s) == [s[0]] + Insert(x, s[1..]);
    }
  }

  lemma {:induction false} InsertSorted(x: int, s: seq<int>)
    requires Sorted(s)
    ensures Sorted(Insert(x, s)) && multiset(Insert(x, s)) == multiset(s) + multiset{x}
  {
    InsertPermutes(x, s);
    if |s| == 0 {
    } else if x <= s[0] {
      PrependSorted(x, s);
    } else {
      InsertSorted(x, s[1..]);
      InsertBounds(x, s[1..], s[0]);
      PrependSorted(s[0], Insert(x, s[1..]));
    }
  }

  /** `keys.sort((a, b) => a - b)` */
  function SortKeys(s: seq<int>): (r: seq<int>)
    ensures Sorted(r) && multiset(r) == multiset(s)
  {
    if |s| == 0 then []
    else
      assert s == s[..|s| - 1] + [s[|s| - 1]];
      InsertSorted(s[|s| - 1], SortKeys(s[..|s| - 1]));
      Insert(s[|s| - 1], SortKeys(s[..|s| - 1]))
  }

  /** `times.reverse().find(t => t < time)`: scanning from the end. */
  function LastBelow(s: seq<int>, time: int): (r: Option<int>)
    ensures r.Some? ==> r.value in s && r.value < time
    ensures r.None? ==> forall x :: x in s ==> x >= time
  {
    if |s| == 0 then None
    else if s[|s| - 1] < time then Some(s[|s| - 1])
    else
      var r := LastBelow(s[..|s| - 1], time);
      assert s == s[..|s| - 1] + [s[|s| - 1]];
      r
  }

  /** The key a lookup at `time` picks: an exact match, else the last key below. */
  function ClosestTime(keys: seq<int>, time: int): Option<int>
  {
    var times := SortKeys(keys);
    if time in times then Some(time) else LastBelow(times, time)
  }

  /** Reference: `k` is the largest key not after `time`. */
  predicate IsFloorKey(keys: seq<int>, time: int, k: int)
  {
    k in keys && k <= time && forall x :: x in keys && x <= time ==> x <= k
  }

  lemma {:induction false} LastBelowIsMax(s: seq<int>, time: int)
    requires Sorted(s)
    ensures LastBelow(s, time).Some? ==> forall x :: x in s && x < time ==> x <= LastBelow(s, time).value
  {
    if |s| > 0 && s[|s| - 1] >= time {
      LastBelowIsMax(s[..|s| - 1], time);
      assert s == s[..|s| - 1] + [s[|s| - 1]];
    }
  }

  /** The lookup returns exactly the largest key at or before `time`, or nothing when there is none. */
  lemma ClosestTimeIsFloor(keys: seq<int>, time: int)
    ensures ClosestTime(keys, time).Some? ==> IsFloorKey(keys, time, ClosestTime(keys, time).value)
    ensures ClosestTime(keys, time).None? <==> forall x :: x in keys ==> x > time
  {
    var times := SortKeys(keys);
    assert forall x :: x in keys <==> x in times by {
      assert forall x :: x in keys <==> x in multiset(keys);
      assert forall x :: x in times <==> x in multiset(times);
    }
    if time !in times {
      LastBelowIsMax(times, time);
    }
  }

  /** Later times never pick an earlier key, and once a key exists it keeps being found. */
  lemma ClosestTimeMonotone(keys: seq<int>, t1: int, t2: int)
    requires t1 <= t2
    ensures ClosestTime(keys, t1).Some? ==>
              ClosestTime(keys, t2).Some? && ClosestTime(keys, t1).value <= ClosestTime(keys, t2).value
  {
    ClosestTimeIsFloor(keys, t1);
    ClosestTimeIsFloor(keys, t2);
  }

  /** The entry picked for `time`. */
  function EntryAtTime<V>(m: OrderedMap<V>, time: int): (r: Option<V>)
    requires ValidMap(m)
    ensures r.None? <==> forall x :: x in m.keys ==> x > time
    ensures r.Some? ==> exists k :: IsFloorKey(m.keys, time, k) && r.value == m.entries[k]
  {
    ClosestTimeIsFloor(m.keys, time);
    var c := ClosestTime(m.keys, time);
    if c.Some? then Some(m.entries[c.value]) else None
  }

  // ------------------------------------------------------------ records

  datatype RawReplayData = RawReplayData(gameDuration: int, p1Skin: string, p2Skin: string,
                                         positionData: seq<(int, PositionData)>,
                                         scoreData: seq<(int, ScoreData)>)

  /** `isRawReplayData`: the pair lists are only required to be objects. */
  predicate IsRawReplayData(j: Json)
  {
    IsNumberAt(j, "gameDuration") && IsStringAt(j, "p1Skin") && IsStringAt(j, "p2Skin") &&
    IsObjectAt(j, "positionData") && IsObjectAt(j, "scoreData")
  }

  function EncodePair(p: Pair): Json { JArr([JNum(p.0), JNum(p.1)]) }

  function EncodePosition(p: PositionData): Json
  {
    JArr([EncodePair(p.0), EncodePair(p.1), EncodePair(p.2)])
  }

  /** The JSON form a replay is saved in. */
  function EncodeRaw(raw: RawReplayData): (j: Json)
    ensures IsRawReplayData(j)
  {
    JObj(map["gameDuration" := JNum(raw.gameDuration as real),
             "p1Skin" := JStr(raw.p1Skin), "p2Skin" := JStr(raw.p2Skin),
             "positionData" := JArr(seq(|raw.positionData|, i requires 0 <= i < |raw.positionData| =>
                                  JArr([JNum(raw.positionData[i].0 as real), EncodePosition(raw.positionData[i].1)]))),
             "scoreData" := JArr(seq(|raw.scoreData|, i requires 0 <= i < |raw.scoreData| =>
                                  JArr([JNum(raw.scoreData[i].0 as real), EncodePair(raw.scoreData[i].1)])))])
  }

  class ReplayData {
    var gameDuration: int
    var p1Skin: string
    var p2Skin: string
    var positionData: OrderedMap<PositionData>
    var scoreData: OrderedMap<ScoreData>

    predicate Valid()
      reads this
    {
      ValidMap(positionData) && ValidMap(scoreData)
    }

    /** `newReplayData`: zero duration, no skins, no samples. */
    constructor ()
      ensures Valid()
      ensures gameDuration == 0 && p1Skin == "" && p2Skin == ""
      ensures positionData.keys == [] && scoreData.keys == []
    {
      gameDuration := 0;
      p1Skin := "";
      p2Skin := "";
      positionData := EmptyMap();
      scoreData := EmptyMap();
    }

    /** `convertRawReplayData`: keeps duration and skins, builds both maps from their pair lists. */
    constructor FromRaw(raw: RawReplayData)
      ensures Valid()
      ensures gameDuration == raw.gameDuration && p1Skin == raw.p1Skin && p2Skin == raw.p2Skin
      ensures positionData == FromPairs(raw.positionData) && scoreData == FromPairs(raw.scoreData)
    {
      gameDuration := raw.gameDuration;
      p1Skin := raw.p1Skin;
      p2Skin := raw.p2Skin;
      positionData := FromPairs(raw.positionData);
      scoreData := FromPairs(raw.scoreData);
    }

    /** `getReplayDataAtTime` */
    function GetReplayDataAtTime(time: int): (r: Option<PositionData>)
      reads this
      requires Valid()
      ensures r.None? <==> forall x :: x in positionData.keys ==> x > time
      ensures r.Some? ==> exists k :: IsFloorKey(positionData.keys, time, k) && r.value == positionData.entries[k]
    {
      EntryAtTime(positionData, time)
    }

    /** `getScoreAtTime` */
    function GetScoreAtTime(time: int): (r: Option<ScoreData>)
      reads this
      requires Valid()
      ensures r.None? <==> forall x :: x in scoreData.keys ==> x > time
      ensures r.Some? ==> exists k :: IsFloorKey(scoreData.keys, time, k) && r.value == scoreData.entries[k]
    {
      EntryAtTime(scoreData, time)
    }
  }
}
