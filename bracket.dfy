/**
 * The single-elimination bracket of a tournament. A match node holds the
 * player who won it (leaves hold the entrants); a node is identified by
 * its path from the root (`false` = left, `true` = right), which stands
 * for the object identity the server compares nodes by.
 */
module Bracket {
  import opened Common
  import opened GameMessages

  /** The identity of a tournament entrant (bots included). */
  datatype PlayerInfo = PlayerInfo(uuid: string, isBot: bool, username: string)

  datatype MatchNode = MatchNode(player: Option<PlayerInfo>, left: Option<MatchNode>, right: Option<MatchNode>)

  type Path = seq<bool>

  /** Winner side of a match: "A" is the left child, "B" the right child. */
  datatype Side = A | B

  // ------------------------------------------------------------ navigation

  function Child(t: MatchNode, b: bool): Option<MatchNode>
  {
    if b then t.right else t.left
  }

  /** The node at path `p`, if there is one. */
  function At(t: MatchNode, p: Path): Option<MatchNode>
    decreases |p|
  {
    if |p| == 0 then Some(t)
    else
      var c := Child(t, p[0]);
      if c.None? then None else At(c.value, p[1..])
  }

  predicate Has(t: MatchNode, p: Path) { At(t, p).Some? }

  function PlayerAt(t: MatchNode, p: Path): Option<PlayerInfo>
    requires Has(t, p)
  {
    At(t, p).value.player
  }

  predicate IsPrefix(p: Path, q: Path) { |p| <= |q| && q[..|p|] == p }

  lemma {:induction false} AtAppend(t: MatchNode, p: Path, b: bool)
    ensures Has(t, p) ==> At(t, p + [b]) == Child(At(t, p).value, b)
    ensures Has(t, p + [b]) ==> Has(t, p)
    decreases |p|
  {
    if |p| > 0 {
      var c := Child(t, p[0]);
      assert (p + [b])[0] == p[0] && (p + [b])[1..] == p[1..] + [b];
      if c.Some? {
        AtAppend(c.value, p[1..], b);
      }
    }
  }

  /** Writes the winner of the match at `p`. */
  function SetPlayer(t: MatchNode, p: Path, v: Option<PlayerInfo>): MatchNode
    requires Has(t, p)
    decreases |p|
  {
    if |p| == 0 then t.(player := v)
    else if p[0] then t.(right := Some(SetPlayer(t.right.value, p[1..], v)))
    else t.(left := Some(SetPlayer(t.left.value, p[1..], v)))
  }

  /** Writing one node's player keeps the shape and every other node's player. */
  lemma {:induction false} SetPlayerFrame(t: MatchNode, p: Path, v: Option<PlayerInfo>, q: Path)
    requires Has(t, p)
    ensures Has(SetPlayer(t, p, v), q) <==> Has(t, q)
    ensures Has(t, q) ==> PlayerAt(SetPlayer(t, p, v), q) == if q == p then v else PlayerAt(t, q)
    decreases |p|
  {
    var t' := SetPlayer(t, p, v);
    if |q| > 0 {
      var c := Child(t, q[0]);
      var c' := Child(t', q[0]);
      if |p| > 0 && p[0] == q[0] {
        SetPlayerFrame(c.value, p[1..], v, q[1..]);
        if q[1..] == p[1..] { assert q == p; }
      } else {
        assert c' == c;
      }
    }
  }

  lemma SetPlayerShape(t: MatchNode, p: Path, v: Option<PlayerInfo>)
    requires Has(t, p)
    ensures forall q :: Has(SetPlayer(t, p, v), q) <==> Has(t, q)
  {
    forall q ensures Has(SetPlayer(t, p, v), q) <==> Has(t, q) {
      SetPlayerFrame(t, p, v, q);
    }
  }

  // ------------------------------------------------------------ shape

  /** Every leaf at depth `h`, every node above it with two children. */
  predicate Perfect(t: MatchNode, h: nat)
  {
    if h == 0 then t.left.None? && t.right.None?
    else t.left.Some? && t.right.Some? && Perfect(t.left.value, h - 1) && Perfect(t.right.value, h - 1)
  }

  lemma {:induction false} PerfectHas(t: MatchNode, h: nat, q: Path)
    requires Perfect(t, h)
    ensures Has(t, q) <==> |q| <= h
    decreases h
  {
    if |q| > 0 && h > 0 {
      PerfectHas(Child(t, q[0]).value, h - 1, q[1..]);
    }
  }

  lemma {:induction false} SetPlayerPerfect(t: MatchNode, h: nat, p: Path, v: Option<PlayerInfo>)
    requires Perfect(t, h) && Has(t, p)
    ensures Perfect(SetPlayer(t, p, v), h)
    decreases |p|
  {
    if |p| > 0 {
      SetPlayerPerfect(Child(t, p[0]).value, h - 1, p[1..], v);
    }
  }

  /** The players of the leaves, left to right. */
  function Leaves(t: MatchNode): seq<PlayerInfo>
  {
    if t.left.None? && t.right.None? then (if t.player.Some? then [t.player.value] else [])
    else (if t.left.Some? then Leaves(t.left.value) else []) +
         (if t.right.Some? then Leaves(t.right.value) else [])
  }

  /** Nodes with at least one child. */
  function InternalCount(t: MatchNode): nat
  {
    if t.left.None? && t.right.None? then 0
    else 1 + (if t.left.Some? then InternalCount(t.left.value) else 0) +
             (if t.right.Some? then InternalCount(t.right.value) else 0)
  }

  /** Every node with children is undecided, every leaf holds a player. */
  predicate Fresh(t: MatchNode)
  {
    if t.left.None? && t.right.None? then t.player.Some?
    else t.player.None? && (t.left.Some? ==> Fresh(t.left.value)) && (t.right.Some? ==> Fresh(t.right.value))
  }

  // ------------------------------------------------------------ buildTree

  /** `buildTree`: one player is a leaf; otherwise split at floor(n/2). */
  function BuildTree(players: seq<PlayerInfo>): MatchNode
    requires |players| >= 1
  {
    if |players| == 1 then MatchNode(Some(players[0]), None, None)
    else
      var mid := |players| / 2;
      MatchNode(None, Some(BuildTree(players[..mid])), Some(BuildTree(players[mid..])))
  }

  /** The leaves read left to right are the players in order. */
  lemma {:induction false} BuildTreeLeaves(players: seq<PlayerInfo>)
    requires |players| >= 1
    ensures Leaves(BuildTree(players)) == players
  {
    if |players| > 1 {
      var mid := |players| / 2;
      BuildTreeLeaves(players[..mid]);
      BuildTreeLeaves(players[mid..]);
      assert players == players[..mid] + players[mid..];
    }
  }

  /** A bracket of n players has n-1 matches to play. */
  lemma {:induction false} BuildTreeMatchCount(players: seq<PlayerInfo>)
    requires |players| >= 1
    ensures InternalCount(BuildTree(players)) == |players| - 1
  {
    if |players| > 1 {
      var mid := |players| / 2;
      BuildTreeMatchCount(players[..mid]);
      BuildTreeMatchCount(players[mid..]);
    }
  }

  /** A new bracket has every match undecided and every leaf filled. */
  lemma {:induction false} BuildTreeFresh(players: seq<PlayerInfo>)
    requires |players| >= 1
    ensures Fresh(BuildTree(players))
  {
    if |players| > 1 {
      var mid := |players| / 2;
      BuildTreeFresh(players[..mid]);
      BuildTreeFresh(players[mid..]);
    }
  }

  /** For 2^k players the bracket is perfect of height k. */
  lemma {:induction false} BuildTreePerfect(players: seq<PlayerInfo>, k: nat)
    requires |players| == Pow2(k)
    ensures Perfect(BuildTree(players), k)
  {
    if k > 0 {
      var mid := |players| / 2;
      assert mid == Pow2(k - 1);
      BuildTreePerfect(players[..mid], k - 1);
      BuildTreePerfect(players[mid..], k - 1);
    }
  }

  // ------------------------------------------------------------ paths of a perfect, fresh bracket

  /** In a new perfect bracket exactly the leaves hold a player, and it is one of the entrants. */
  lemma {:induction false} FreshPerfectPlayers(t: MatchNode, h: nat, q: Path)
    requires Perfect(t, h) && Fresh(t) && |q| <= h
    ensures Has(t, q)
    ensures PlayerAt(t, q).Some? <==> |q| == h
    ensures PlayerAt(t, q).Some? ==> PlayerAt(t, q).value in Leaves(t)
    decreases h
  {
    PerfectHas(t, h, q);
    if |q| > 0 {
      var c := Child(t, q[0]).value;
      FreshPerfectPlayers(c, h - 1, q[1..]);
    }
  }

  // ------------------------------------------------------------ getBottomMatches

  /**
   * The first-round matches below a node reached at `prefix`: a node with two
   * children that both hold a player, or else the first-round matches of
   * both children; a node without two children contributes none.
   */
  function Frontier(t: MatchNode, prefix: Path): set<Path>
  {
    if t.left.Some? && t.right.Some? then
      if t.left.value.player.Some? && t.right.value.player.Some? then {prefix}
      else Frontier(t.left.value, prefix + [false]) + Frontier(t.right.value, prefix + [true])
    else {}
  }

  function FrontierAt(t: MatchNode, q: Path): set<Path>
  {
    if Has(t, q) then Frontier(At(t, q).value, q) else {}
  }

  function Size(t: MatchNode): nat
  {
    1 + (if t.left.Some? then Size(t.left.value) else 0) + (if t.right.Some? then Size(t.right.value) else 0)
  }

  function SizeAt(t: MatchNode, q: Path): nat
  {
    if Has(t, q) then Size(At(t, q).value) else 0
  }

  /** Expanding a node that is not itself a first-round match. */
  lemma FrontierExpand(t: MatchNode, q: Path)
    requires Has(t, q)
    requires At(t, q).value.left.Some? && At(t, q).value.right.Some?
    ensures FrontierAt(t, q + [false]) + FrontierAt(t, q + [true]) ==
            (if At(t, q).value.left.value.player.Some? && At(t, q).value.right.value.player.Some?
             then FrontierAt(t, q + [false]) + FrontierAt(t, q + [true]) else FrontierAt(t, q))
    ensures SizeAt(t, q + [false]) + SizeAt(t, q + [true]) < SizeAt(t, q)
  {
    AtAppend(t, q, false);
    AtAppend(t, q, true);
  }

  function QueueFrontier(t: MatchNode, queue: seq<Path>): set<Path>
  {
    if |queue| == 0 then {} else FrontierAt(t, queue[0]) + QueueFrontier(t, queue[1..])
  }

  function QueueSize(t: MatchNode, queue: seq<Path>): nat
  {
    if |queue| == 0 then 0 else SizeAt(t, queue[0]) + QueueSize(t, queue[1..])
  }

  lemma {:induction false} QueueAppend(t: MatchNode, a: seq<Path>, b: seq<Path>)
    ensures QueueFrontier(t, a + b) == QueueFrontier(t, a) + QueueFrontier(t, b)
    ensures QueueSize(t, a + b) == QueueSize(t, a) + QueueSize(t, b)
    decreases |a|
  {
    if |a| > 0 {
      assert (a + b)[0] == a[0] && (a + b)[1..] == a[1..] + b;
      QueueAppend(t, a[1..], b);
    } else {
      assert a + b == b;
    }
  }

  /** No path of `queue` lies on the way to another one, nor to a path of `done`. */
  predicate Antichain(queue: seq<Path>, done: seq<Path>)
  {
    (forall i, j :: 0 <= i < |queue| && 0 <= j < |queue| && i != j ==> !IsPrefix(queue[i], queue[j])) &&
    (forall i, r :: 0 <= i < |queue| && r in done ==> !IsPrefix(queue[i], r))
  }

  lemma PrefixOfExtension(x: Path, q: Path, b: bool)
    requires IsPrefix(x, q + [b]) && x != q + [b]
    ensures IsPrefix(x, q)
  {
    assert (q + [b])[..|q|] == q;
  }

  lemma ExtensionPrefix(q: Path, b: bool, r: Path)
    requires IsPrefix(q + [b], r)
    ensures IsPrefix(q, r)
  {
    assert r[..|q|] == (r[..|q| + 1])[..|q|];
  }

  /** Handing the head of the queue to the first round. */
  lemma AntichainEmit(queue: seq<Path>, done: seq<Path>)
    requires |queue| > 0 && Antichain(queue, done)
    ensures queue[0] !in done
    ensures Antichain(queue[1..], done + [queue[0]])
  {
    assert IsPrefix(queue[0], queue[0]);
    forall i, r | 0 <= i < |queue[1..]| && r in done + [queue[0]]
      ensures !IsPrefix(queue[1..][i], r)
    {
      assert queue[1..][i] == queue[i + 1];
    }
    forall i, j | 0 <= i < |queue[1..]| && 0 <= j < |queue[1..]| && i != j
      ensures !IsPrefix(queue[1..][i], queue[1..][j])
    {
      assert queue[1..][i] == queue[i + 1] && queue[1..][j] == queue[j + 1];
    }
  }

  /** Dropping the head of the queue. */
  lemma AntichainDrop(queue: seq<Path>, done: seq<Path>)
    requires |queue| > 0 && Antichain(queue, done)
    ensures Antichain(queue[1..], done)
  {
    forall i, r | 0 <= i < |queue[1..]| && r in done
      ensures !IsPrefix(queue[1..][i], r)
    {
      assert queue[1..][i] == queue[i + 1];
    }
    forall i, j | 0 <= i < |queue[1..]| && 0 <= j < |queue[1..]| && i != j
      ensures !IsPrefix(queue[1..][i], queue[1..][j])
    {
      assert queue[1..][i] == queue[i + 1] && queue[1..][j] == queue[j + 1];
    }
  }

  /** Replacing the head of the queue by its two children. */
  lemma AntichainExpand(queue: seq<Path>, done: seq<Path>)
    requires |queue| > 0 && Antichain(queue, done)
    ensures Antichain(queue[1..] + [queue[0] + [false], queue[0] + [true]], done)
  {
    var q := queue[0];
    var rest := queue[1..];
    var next := rest + [q + [false], q + [true]];
    forall i | 0 <= i < |next|
      ensures next[i] == (if i < |rest| then queue[i + 1] else q + [i == |rest| + 1])
      ensures i < |rest| ==> !IsPrefix(q, next[i]) && !IsPrefix(next[i], q)
      ensures forall r :: r in done ==> !IsPrefix(next[i], r)
    {
      if i < |rest| {
        assert IsPrefix(q, queue[i + 1]) == IsPrefix(queue[0], queue[i + 1]);
      } else {
        forall r | r in done ensures !IsPrefix(next[i], r) {
          if IsPrefix(next[i], r) {
            ExtensionPrefix(q, i == |rest| + 1, r);
          }
        }
      }
    }
    forall i, j | 0 <= i < |next| && 0 <= j < |next| && i != j
      ensures !IsPrefix(next[i], next[j])
    {
      if i < |rest| && j >= |rest| {
        if IsPrefix(next[i], next[j]) {
          var b := j == |rest| + 1;
          if next[i] != q + [b] {
            PrefixOfExtension(next[i], q, b);
          }
        }
      } else if i >= |rest| && j < |rest| {
        if IsPrefix(next[i], next[j]) {
          ExtensionPrefix(q, i == |rest| + 1, next[j]);
        }
      } else if i >= |rest| && j >= |rest| {
        assert next[i][|q|] != next[j][|q|];
      }
    }
  }

  lemma QueuePair(t: MatchNode, a: Path, b: Path)
    ensures QueueFrontier(t, [a, b]) == FrontierAt(t, a) + FrontierAt(t, b)
    ensures QueueSize(t, [a, b]) == SizeAt(t, a) + SizeAt(t, b)
  {
    assert [a, b][1..] == [b] && [b][1..] == [];
    assert QueueFrontier(t, [b]) == FrontierAt(t, b) + QueueFrontier(t, []);
    assert QueueSize(t, [b]) == SizeAt(t, b) + QueueSize(t, []);
  }

  /** A frontier match below `prefix` is a path through `prefix`. */
  lemma {:induction false} FrontierBelow(t: MatchNode, prefix: Path, r: Path)
    requires r in Frontier(t, prefix)
    ensures IsPrefix(prefix, r)
  {
    if t.left.Some? && t.right.Some? && !(t.left.value.player.Some? && t.right.value.player.Some?) {
      if r in Frontier(t.left.value, prefix + [false]) {
        FrontierBelow(t.left.value, prefix + [false], r);
        ExtensionPrefix(prefix, false, r);
      } else {
        FrontierBelow(t.right.value, prefix + [true], r);
        ExtensionPrefix(prefix, true, r);
      }
    }
  }

  /** In a new perfect bracket of height h >= 1 the first round is every node at depth h-1. */
  lemma {:induction false} FrontierFreshPerfect(t: MatchNode, h: nat, prefix: Path, q: Path)
    requires Perfect(t, h) && Fresh(t) && h >= 1
    ensures q in Frontier(t, prefix) <==> IsPrefix(prefix, q) && |q| == |prefix| + h - 1
    decreases h
  {
    var l, r := t.left.value, t.right.value;
    if h == 1 {
      if IsPrefix(prefix, q) && |q| == |prefix| {
        assert q == q[..|prefix|];
      }
    } else {
      assert l.player.None?;
      FrontierFreshPerfect(l, h - 1, prefix + [false], q);
      FrontierFreshPerfect(r, h - 1, prefix + [true], q);
      if IsPrefix(prefix, q) && |q| == |prefix| + h - 1 {
        var b := q[|prefix|];
        assert q[..|prefix| + 1] == prefix + [b];
      }
      if IsPrefix(prefix + [false], q) { ExtensionPrefix(prefix, false, q); }
      if IsPrefix(prefix + [true], q) { ExtensionPrefix(prefix, true, q); }
    }
  }

  // ------------------------------------------------------------ findParent

  /**
   * `findParentRecursively`: a node without two children has no child to
   * offer; otherwise it is the parent if one of its children is `child`,
   * else the search goes on left first, then right.
   */
  function FindParentFrom(t: MatchNode, prefix: Path, child: Path): Option<Path>
  {
    if t.left.None? || t.right.None? then None
    else if prefix + [false] == child || prefix + [true] == child then Some(prefix)
    else
      var l := FindParentFrom(t.left.value, prefix + [false], child);
      if l.Some? then l else FindParentFrom(t.right.value, prefix + [true], child)
  }

  /** Whatever the search returns is one step above `child`, below `prefix`. */
  lemma {:induction false} FindParentAbove(t: MatchNode, prefix: Path, child: Path)
    requires FindParentFrom(t, prefix, child).Some?
    ensures var p := FindParentFrom(t, prefix, child).value;
      |p| + 1 == |child| && child[..|p|] == p && IsPrefix(prefix, p)
  {
    var p := FindParentFrom(t, prefix, child).value;
    if !(prefix + [false] == child || prefix + [true] == child) {
      var l := FindParentFrom(t.left.value, prefix + [false], child);
      if l.Some? {
        FindParentAbove(t.left.value, prefix + [false], child);
        ExtensionPrefix(prefix, false, p);
      } else {
        FindParentAbove(t.right.value, prefix + [true], child);
        ExtensionPrefix(prefix, true, p);
      }
    }
  }

  /** In a perfect bracket the parent of any node below the root is the path one step up. */
  lemma {:induction false} FindParentPerfect(t: MatchNode, h: nat, prefix: Path, child: Path)
    requires Perfect(t, h) && IsPrefix(prefix, child) && |child| <= |prefix| + h
    ensures FindParentFrom(t, prefix, child) ==
      if |child| == |prefix| then None else Some(child[..|child| - 1])
    decreases h
  {
    var res := FindParentFrom(t, prefix, child);
    if |child| == |prefix| {
      if res.Some? {
        FindParentAbove(t, prefix, child);
      }
    } else if |child| == |prefix| + 1 {
      var b := child[|prefix|];
      assert child == prefix + [b];
    } else {
      var b := child[|prefix|];
      assert child[..|prefix| + 1] == prefix + [b];
      assert prefix + [false] != child && prefix + [true] != child;
      if !b {
        FindParentPerfect(t.left.value, h - 1, prefix + [false], child);
      } else {
        var l := FindParentFrom(t.left.value, prefix + [false], child);
        if l.Some? {
          FindParentAbove(t.left.value, prefix + [false], child);
          assert false;
        }
        FindParentPerfect(t.right.value, h - 1, prefix + [true], child);
      }
    }
  }

  // ------------------------------------------------------------ rounds

  /** The longest path of a round, 0 for none. */
  function MaxLen(s: seq<Path>): nat
  {
    if |s| == 0 then 0 else if |s[0]| >= MaxLen(s[1..]) then |s[0]| else MaxLen(s[1..])
  }

  lemma {:induction false} MaxLenBounds(s: seq<Path>)
    ensures forall x :: x in s ==> |x| <= MaxLen(s)
    ensures |s| > 0 ==> exists x :: x in s && |x| == MaxLen(s)
  {
    if |s| > 0 {
      MaxLenBounds(s[1..]);
      if |s[0]| < MaxLen(s[1..]) {
        var x :| x in s[1..] && |x| == MaxLen(s[1..]);
        assert x in s;
      }
    }
  }

  /** Each next-round match is one step above some match just played: the rounds shrink. */
  lemma NextRoundShorter(prev: seq<Path>, next: seq<Path>)
    requires |prev| > 0
    requires forall p :: p in next ==> exists m :: m in prev && |p| + 1 == |m|
    ensures |next| > 0 ==> MaxLen(next) < MaxLen(prev)
  {
    MaxLenBounds(prev);
    MaxLenBounds(next);
    if |next| > 0 {
      var x :| x in next && |x| == MaxLen(next);
      var m :| m in prev && |x| + 1 == |m|;
    }
  }

  /** A round is exactly the matches at depth `d`, each once (depth -1: no round). */
  ghost predicate RoundIs(round: seq<Path>, d: int)
  {
    Distinct(round) && forall q :: q in round <==> |q| == d
  }

  /**
   * The state of a bracket of height h, grown from the new bracket t0,
   * while the round at depth d is being played: the nodes deeper than d
   * and the matches of that round already `played` hold a player, the
   * others none; the leaves are t0's and every player in the bracket is
   * one of t0's entrants.
   */
  ghost predicate Stage(t: MatchNode, t0: MatchNode, h: nat, d: int, played: seq<Path>)
  {
    -1 <= d < h && Perfect(t, h) && Perfect(t0, h) &&
    (forall q :: Has(t, q) ==> (PlayerAt(t, q).Some? <==> |q| > d || q in played)) &&
    SameLeafPlayers(t, t0, h) &&
    (forall q :: Has(t, q) && PlayerAt(t, q).Some? ==> PlayerAt(t, q).value in Leaves(t0))
  }

  function Height(t: MatchNode): nat
  {
    if t.left.Some? then 1 + Height(t.left.value) else 0
  }

  /** A bracket as `generate` leaves it: perfect, new, with at least one match. */
  ghost predicate FreshBracket(t: MatchNode)
  {
    Fresh(t) && Height(t) >= 1 && Perfect(t, Height(t))
  }

  lemma {:induction false} PerfectHeight(t: MatchNode, h: nat)
    requires Perfect(t, h)
    ensures Height(t) == h
    decreases h
  {
    if h > 0 {
      PerfectHeight(t.left.value, h - 1);
    }
  }

  lemma FreshStage(t0: MatchNode)
    requires FreshBracket(t0)
    ensures Stage(t0, t0, Height(t0), Height(t0) - 1, [])
  {
    var h := Height(t0);
    forall q | Has(t0, q)
      ensures PlayerAt(t0, q).Some? <==> |q| > h - 1
      ensures PlayerAt(t0, q).Some? ==> PlayerAt(t0, q).value in Leaves(t0)
    {
      PerfectHas(t0, h, q);
      FreshPerfectPlayers(t0, h, q);
    }
  }

  /**
   * Playing an unplayed match of the current round: its node is undecided,
   * both children hold a player, and advancing either child's player keeps
   * the stage with the match counted as played.
   */
  lemma PlayStep(t: MatchNode, t0: MatchNode, h: nat, d: int, played: seq<Path>, q: Path, b: bool)
    requires Stage(t, t0, h, d, played) && |q| == d && q !in played
    ensures Has(t, q) && Has(t, q + [b])
    ensures var n := At(t, q).value;
      n.player.None? && n.left.Some? && n.right.Some? &&
      n.left.value.player.Some? && n.right.value.player.Some? &&
      Child(n, b) == At(t, q + [b])
    ensures Stage(SetPlayer(t, q, PlayerAt(t, q + [b])), t0, h, d, played + [q])
  {
    PerfectHas(t, h, q);
    PerfectHas(t, h, q + [false]);
    PerfectHas(t, h, q + [true]);
    AtAppend(t, q, false);
    AtAppend(t, q, true);
    var v := PlayerAt(t, q + [b]);
    var t' := SetPlayer(t, q, v);
    SetPlayerPerfect(t, h, q, v);
    forall x | Has(t', x)
      ensures Has(t, x)
      ensures PlayerAt(t', x).Some? <==> |x| > d || x in played + [q]
      ensures |x| == h ==> Has(t0, x) && PlayerAt(t', x) == PlayerAt(t0, x)
      ensures PlayerAt(t', x).Some? ==> PlayerAt(t', x).value in Leaves(t0)
    {
      SetPlayerFrame(t, q, v, x);
    }
  }

  /** The i-th match of the round at depth d, played with either side winning. */
  lemma RoundStep(t: MatchNode, t0: MatchNode, h: nat, d: int, round: seq<Path>, i: nat, b: bool)
    requires i < |round| && Stage(t, t0, h, d, round[..i]) && RoundIs(round, d)
    ensures Has(t, round[i])
    ensures var n := At(t, round[i]).value;
      n.player.None? && n.left.Some? && n.right.Some? &&
      n.left.value.player.Some? && n.right.value.player.Some? &&
      Stage(SetPlayer(t, round[i], Child(n, b).value.player), t0, h, d, round[..i + 1])
  {
    var q := round[i];
    assert q !in round[..i];
    PlayStep(t, t0, h, d, round[..i], q, b);
    assert round[..i + 1] == round[..i] + [q];
  }

  /** Once every match of the round at depth d is played, the stage moves up to depth d-1. */
  lemma RoundDone(t: MatchNode, t0: MatchNode, h: nat, d: int, round: seq<Path>)
    requires Stage(t, t0, h, d, round) && RoundIs(round, d) && d >= 0
    ensures Stage(t, t0, h, d - 1, [])
  {
  }

  /** A round is empty exactly when no depth is left to play. */
  lemma NoRoundLeft(round: seq<Path>, d: int)
    requires RoundIs(round, d)
    ensures |round| == 0 ==> d < 0
  {
    if d >= 0 {
      var w: Path := seq(d, i => false);
      assert w in round;
    }
  }

  /** The next round of a perfect bracket is every node one level up. */
  lemma NextRoundOfPerfect(t: MatchNode, h: nat, round: seq<Path>, next: seq<Path>, d: int)
    requires Perfect(t, h) && RoundIs(round, d) && 0 <= d <= h && Distinct(next)
    requires forall p :: p in next ==> exists m :: m in round && FindParentFrom(t, [], m) == Some(p)
    requires forall m :: m in round && FindParentFrom(t, [], m).Some? ==> FindParentFrom(t, [], m).value in next
    ensures RoundIs(next, d - 1)
  {
    forall p
      ensures p in next <==> |p| == d - 1
    {
      if p in next {
        var m :| m in round && FindParentFrom(t, [], m) == Some(p);
        FindParentAbove(t, [], m);
      }
      if |p| == d - 1 {
        var m := p + [false];
        assert m in round;
        FindParentPerfect(t, h, [], m);
        assert m[..|m| - 1] == p;
      }
    }
  }

  /** Both brackets have the same players at depth h. */
  ghost predicate SameLeafPlayers(t: MatchNode, t0: MatchNode, h: nat)
  {
    forall q :: Has(t, q) && |q| == h ==> Has(t0, q) && PlayerAt(t, q) == PlayerAt(t0, q)
  }

  lemma SameLeafPlayersChild(t: MatchNode, t0: MatchNode, h: nat, b: bool)
    requires h > 0 && Perfect(t, h) && Perfect(t0, h) && SameLeafPlayers(t, t0, h)
    ensures SameLeafPlayers(Child(t, b).value, Child(t0, b).value, h - 1)
  {
    var c, c0 := Child(t, b).value, Child(t0, b).value;
    forall q | Has(c, q) && |q| == h - 1
      ensures Has(c0, q) && PlayerAt(c, q) == PlayerAt(c0, q)
    {
      assert ([b] + q)[0] == b && ([b] + q)[1..] == q;
      assert Has(t, [b] + q);
    }
  }

  /** Two perfect brackets with the same leaf players have the same leaves. */
  lemma {:induction false} SameLeaves(t: MatchNode, t0: MatchNode, h: nat)
    requires Perfect(t, h) && Perfect(t0, h) && SameLeafPlayers(t, t0, h)
    ensures Leaves(t) == Leaves(t0)
    decreases h
  {
    if h == 0 {
      assert PlayerAt(t, []) == PlayerAt(t0, []);
    } else {
      SameLeafPlayersChild(t, t0, h, false);
      SameLeafPlayersChild(t, t0, h, true);
      SameLeaves(t.left.value, t0.left.value, h - 1);
      SameLeaves(t.right.value, t0.right.value, h - 1);
    }
  }

  /** A path on the way to a node of the bracket is a node of the bracket. */
  lemma {:induction false} HasPrefix(t: MatchNode, q: Path, p: Path)
    requires Has(t, p) && IsPrefix(q, p)
    ensures Has(t, q)
    decreases |p|
  {
    if |q| > 0 {
      assert q[0] == p[0];
      assert q[1..] == p[1..][..|q| - 1];
      HasPrefix(Child(t, p[0]).value, q[1..], p[1..]);
    }
  }

  /** The first-round matches are nodes of the bracket. */
  lemma {:induction false} FrontierHas(t: MatchNode, prefix: Path, r: Path)
    requires r in Frontier(t, prefix)
    ensures IsPrefix(prefix, r) && Has(t, r[|prefix|..])
  {
    FrontierBelow(t, prefix, r);
    if t.left.Some? && t.right.Some? && !(t.left.value.player.Some? && t.right.value.player.Some?) {
      var b := r !in Frontier(t.left.value, prefix + [false]);
      FrontierHas(Child(t, b).value, prefix + [b], r);
      FrontierBelow(Child(t, b).value, prefix + [b], r);
      assert r[|prefix|..][0] == b && r[|prefix|..][1..] == r[|prefix| + 1..];
    }
  }

  /** The first round of a new bracket starts the stage at its deepest matches. */
  lemma FirstRound(t0: MatchNode, round: seq<Path>)
    requires FreshBracket(t0) && Distinct(round)
    requires forall q :: q in round <==> q in Frontier(t0, [])
    ensures RoundIs(round, Height(t0) - 1) && Stage(t0, t0, Height(t0), Height(t0) - 1, [])
  {
    FreshStage(t0);
    forall q
      ensures q in round <==> |q| == Height(t0) - 1
    {
      FrontierFreshPerfect(t0, Height(t0), [], q);
    }
  }

  /** The first-round matches are nodes of the bracket. */
  lemma RoundInBracket(t: MatchNode, round: seq<Path>)
    requires forall q :: q in round ==> q in Frontier(t, [])
    ensures forall q :: q in round ==> Has(t, q)
  {
    forall q | q in round
      ensures Has(t, q)
    {
      FrontierHas(t, [], q);
      assert q[0..] == q;
    }
  }

  /** The parents found for a round are nodes of the bracket, one step up. */
  lemma ParentsInBracket(t: MatchNode, round: seq<Path>, next: seq<Path>)
    requires forall q :: q in round ==> Has(t, q)
    requires forall p :: p in next ==> exists m :: m in round && FindParentFrom(t, [], m) == Some(p)
    ensures forall p :: p in next ==> Has(t, p)
    ensures forall p :: p in next ==> exists m :: m in round && |p| + 1 == |m|
  {
    forall p | p in next
      ensures Has(t, p) && exists m :: m in round && |p| + 1 == |m|
    {
      var m :| m in round && FindParentFrom(t, [], m) == Some(p);
      FindParentAbove(t, [], m);
      HasPrefix(t, p, m);
    }
  }

  /**
   * When no round is left every match is decided, the leaves are the new
   * bracket's and the champion at the root is one of its entrants.
   */
  lemma Champion(t: MatchNode, t0: MatchNode, h: nat, round: seq<Path>, d: int)
    requires RoundIs(round, d) && Stage(t, t0, h, d, []) && |round| == 0
    ensures forall q :: Has(t, q) ==> PlayerAt(t, q).Some?
    ensures Leaves(t) == Leaves(t0)
    ensures t.player.Some? && t.player.value in Leaves(t0)
  {
    NoRoundLeft(round, d);
    SameLeaves(t, t0, h);
    assert Has(t, []);
  }

  // ------------------------------------------------------------ playMatchAsync

  /**
   * What became of a match between two players who are not both bots, as
   * the room reports it: a player could not be added to the room, a player
   * did not acknowledge the launch within its 10 seconds, the room failed
   * to start, or the game finished (`winner` is None for a draw).
   */
  datatype MatchRun =
    | AddFailed(slot: PlayerIndex)
    | AckTimedOut(slot: PlayerIndex)
    | StartFailed
    | Finished(winner: Option<PlayerIndex>)

  /** The `winner` name of the room's game result: empty for a draw. */
  function RoomWinnerName(p1: PlayerInfo, p2: PlayerInfo, w: Option<PlayerIndex>): string
  {
    if w.None? then "" else if w.value == 1 then p1.username else p2.username
  }

  /** The `winnerUUID` of the room's game result: empty for a draw. */
  function RoomWinnerUuid(p1: PlayerInfo, p2: PlayerInfo, w: Option<PlayerIndex>): string
  {
    if w.None? then "" else if w.value == 1 then p1.uuid else p2.uuid
  }

  /**
   * The side that advances as the server decides it: two bots toss a coin;
   * a player who cannot be added or does not answer forfeits; a room that
   * fails to start tosses a coin; a finished game advances B when the
   * winner's name is B's username and A otherwise.
   */
  function ResolveByName(p1: PlayerInfo, p2: PlayerInfo, run: MatchRun, coin: Side): Side
  {
    if p1.isBot && p2.isBot then coin
    else match run
      case AddFailed(slot) => if slot == 1 then B else A
      case AckTimedOut(slot) => if slot == 1 then B else A
      case StartFailed => coin
      case Finished(w) => if RoomWinnerName(p1, p2, w) == p2.username then B else A
  }

  /** The same decision with the finished game judged by the winner's uuid. */
  function Resolve(p1: PlayerInfo, p2: PlayerInfo, run: MatchRun, coin: Side): Side
  {
    if p1.isBot && p2.isBot then coin
    else match run
      case AddFailed(slot) => if slot == 1 then B else A
      case AckTimedOut(slot) => if slot == 1 then B else A
      case StartFailed => coin
      case Finished(w) => if RoomWinnerUuid(p1, p2, w) == p2.uuid then B else A
  }

  function SideOf(slot: PlayerIndex): Side { if slot == 1 then A else B }

  function OtherSide(slot: PlayerIndex): Side { if slot == 1 then B else A }

  /** The player the room declares winner advances; a draw advances A. */
  lemma ResolveFollowsRoom(p1: PlayerInfo, p2: PlayerInfo, w: Option<PlayerIndex>, coin: Side)
    requires !(p1.isBot && p2.isBot) && p1.uuid != p2.uuid && p2.uuid != ""
    ensures Resolve(p1, p2, Finished(w), coin) == if w.Some? then SideOf(w.value) else A
  {
  }

  /** A player who cannot be added or does not acknowledge the launch loses by forfeit. */
  lemma ResolveForfeit(p1: PlayerInfo, p2: PlayerInfo, slot: PlayerIndex, coin: Side)
    requires !(p1.isBot && p2.isBot)
    ensures Resolve(p1, p2, AddFailed(slot), coin) == OtherSide(slot)
    ensures Resolve(p1, p2, AckTimedOut(slot), coin) == OtherSide(slot)
    ensures ResolveByName(p1, p2, AddFailed(slot), coin) == OtherSide(slot)
  {
  }

  /** Outside a finished game the two decisions agree; two bots never play. */
  lemma ResolveAgreeUnlessFinished(p1: PlayerInfo, p2: PlayerInfo, run: MatchRun, coin: Side)
    ensures !run.Finished? || (p1.isBot && p2.isBot) ==> Resolve(p1, p2, run, coin) == ResolveByName(p1, p2, run, coin)
    ensures p1.isBot && p2.isBot ==> Resolve(p1, p2, run, coin) == coin
  {
  }

  /**
   * Judging by name, a human whose account name is "Bot 1" but who joined
   * under another alias, paired against the bot that was then named
   * "Bot 1", loses the game they won.
   */
  lemma ResolveByNameClash()
    ensures var human := PlayerInfo("u-human", false, "Bot 1");
            var bot := PlayerInfo("u-bot", true, "Bot 1");
            ResolveByName(human, bot, Finished(Some(1)), A) == B &&
            Resolve(human, bot, Finished(Some(1)), A) == A
  {
  }
}
