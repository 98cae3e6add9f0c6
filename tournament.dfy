/**
 * A tournament record and its bracket, the object that plays it: the two
 * refer to each other, as the server's records do.
 */
module Tournaments {
  import opened Common
  import opened Bracket
  import opened TournamentSettings

  const AlreadyGenerated := "Tournament tree has already been generated."
  const NotEnoughPlayers := "Not enough players to generate a tournament tree."
  const NotPowerOfTwo := "Number of players must be a power of 2."
  const NotGenerated := "Tournament tree has not been generated yet."
  const MissingPlayers := "Cannot play match for a node with missing players."
  const AlreadyPlayed := "This match has already been played."
  const NoTwoChildren := "Cannot play a match for a node without two children."
  const ChildWithoutPlayer := "Cannot play a match for a node with children without player."

  /** The human entrants, in order. */
  function Humans(ps: seq<PlayerInfo>): (r: seq<PlayerInfo>)
    ensures forall p :: p in r ==> p in ps && !p.isBot
  {
    if |ps| == 0 then [] else (if ps[0].isBot then [] else [ps[0]]) + Humans(ps[1..])
  }

  /** The bot entrants, in order. */
  function Bots(ps: seq<PlayerInfo>): (r: seq<PlayerInfo>)
    ensures forall p :: p in r ==> p in ps && p.isBot
  {
    if |ps| == 0 then [] else (if ps[0].isBot then [ps[0]] else []) + Bots(ps[1..])
  }

  /** Humans and bots together are the entrants. */
  lemma {:induction false} HumansAndBots(ps: seq<PlayerInfo>)
    ensures multiset(Humans(ps)) + multiset(Bots(ps)) == multiset(ps)
  {
    if |ps| > 0 {
      HumansAndBots(ps[1..]);
      assert multiset(ps) == multiset{ps[0]} + multiset(ps[1..]) by {
        assert ps == [ps[0]] + ps[1..];
      }
      if ps[0].isBot {
        assert Humans(ps) == Humans(ps[1..]) && Bots(ps) == [ps[0]] + Bots(ps[1..]);
      } else {
        assert Humans(ps) == [ps[0]] + Humans(ps[1..]) && Bots(ps) == Bots(ps[1..]);
      }
    }
  }

  /**
   * A bracket generated from 2^k (k >= 2) entrants, the humans in any order
   * first and then the bots in order: it is new and perfect of height k,
   * its leaves are the entrants, and it has one match fewer than entrants.
   */
  lemma GeneratedBracket(players: seq<PlayerInfo>, humans: seq<PlayerInfo>)
    requires |players| >= 4 && IsPowerOfTwo(|players|)
    requires multiset(humans) == multiset(Humans(players))
    ensures var t := BuildTree(humans + Bots(players));
      FreshBracket(t) && Height(t) == Log2(|players|) &&
      Leaves(t) == humans + Bots(players) &&
      multiset(Leaves(t)) == multiset(players) &&
      InternalCount(t) == |players| - 1
  {
    var order := humans + Bots(players);
    HumansAndBots(players);
    assert |order| == |players| by {
      assert |multiset(order)| == |multiset(players)|;
    }
    var k := Log2(|players|);
    BuildTreeLeaves(order);
    BuildTreeMatchCount(order);
    BuildTreeFresh(order);
    BuildTreePerfect(order, k);
    PerfectHeight(BuildTree(order), k);
  }

  /** No two entrants share a uuid. */
  predicate UuidsDistinct(ps: seq<PlayerInfo>)
  {
    forall i, j :: 0 <= i < j < |ps| ==> ps[i].uuid != ps[j].uuid
  }

  function UuidSet(ps: seq<PlayerInfo>): set<string>
  {
    set p | p in ps :: p.uuid
  }

  /** No two entrants share an alias. */
  predicate AliasesUnique(names: map<string, string>)
  {
    forall a, b :: a in names && b in names && a != b ==> names[a] != names[b]
  }

  class Tournament {
    const uuid: string
    var name: string
    var owner: PlayerInfo
    var playerCount: int
    var players: seq<PlayerInfo>
    /** The alias of each entrant, keyed by the entrant's uuid. */
    var pseudoNames: map<string, string>
    var settings: Settings
    var tree: TournamentTree?
    var isClosed: bool
    var isEnded: bool

    /**
     * What the registry keeps true of every tournament: entrants with
     * distinct uuids, one alias per entrant and no alias twice, at most
     * `maxPlayerCount` entrants; while open, `playerCount` counts them and
     * no bracket exists; once closed, the roster is padded to
     * `maxPlayerCount`, the bracket holds exactly the roster, and it is
     * new until the tournament ends with one of the entrants as champion.
     */
    ghost predicate Valid()
      reads this, tree
    {
      tree != null && tree.tournament == this && ValidSettings(settings) &&
      UuidsDistinct(players) && pseudoNames.Keys == UuidSet(players) && AliasesUnique(pseudoNames) &&
      |players| <= MaxPlayers(settings) && 0 <= playerCount <= |players| && (isEnded ==> isClosed) &&
      (!isClosed ==> playerCount == |players| && tree.root.None?) &&
      (isClosed ==>
        |players| == MaxPlayers(settings) && tree.root.Some? &&
        multiset(Leaves(tree.root.value)) == multiset(players)) &&
      (isClosed && !isEnded ==> FreshBracket(tree.root.value)) &&
      (isEnded ==> tree.root.value.player.Some? && tree.root.value.player.value in players)
    }

    constructor(uuid: string, name: string, owner: PlayerInfo, settings: Settings)
      ensures this.uuid == uuid && this.name == name && this.owner == owner && this.settings == settings
      ensures playerCount == 0 && players == [] && pseudoNames == map[] && !isClosed && !isEnded
      ensures tree != null && fresh(tree) && tree.tournament == this && tree.root.None?
    {
      this.uuid := uuid;
      this.name := name;
      this.owner := owner;
      playerCount := 0;
      players := [];
      pseudoNames := map[];
      this.settings := settings;
      tree := null;
      isClosed := false;
      isEnded := false;
      new;
      tree := new TournamentTree(this);
    }
  }

  class TournamentTree {
    const tournament: Tournament
    var root: Option<MatchNode>

    constructor(tournament: Tournament)
      ensures this.tournament == tournament && root.None?
    {
      this.tournament := tournament;
      root := None;
    }

    /**
     * `generate`: refuses a second bracket, fewer than four entrants and a
     * count that is not a power of two; otherwise the humans, shuffled,
     * come first and the bots after them in order.
     */
    method Generate(players: seq<PlayerInfo>) returns (err: Option<string>)
      modifies this`root
      ensures old(root).Some? ==> err == Some(AlreadyGenerated) && root == old(root)
      ensures old(root).None? && |players| < 4 ==> err == Some(NotEnoughPlayers) && root.None?
      ensures old(root).None? && |players| >= 4 && !IsPowerOfTwo(|players|) ==>
        err == Some(NotPowerOfTwo) && root.None?
      ensures err.None? ==>
        exists humans :: multiset(humans) == multiset(Humans(players)) &&
                         root == Some(BuildTree(humans + Bots(players)))
      ensures err.None? ==>
        root.Some? && FreshBracket(root.value) && multiset(Leaves(root.value)) == multiset(players)
      ensures err.None? <==> old(root).None? && |players| >= 4 && IsPowerOfTwo(|players|)
    {
      if root.Some? {
        return Some(AlreadyGenerated);
      }
      if |players| < 4 {
        return Some(NotEnoughPlayers);
      }
      if !IsPowerOfTwo(|players|) {
        return Some(NotPowerOfTwo);
      }
      ghost var inOrder := Humans(players);
      assert multiset(inOrder) == multiset(Humans(players));
      var humans :| multiset(humans) == multiset(Humans(players));
      HumansAndBots(players);
      assert |humans + Bots(players)| >= 1 by {
        assert |multiset(humans + Bots(players))| == |multiset(players)|;
      }
      GeneratedBracket(players, humans);
      root := Some(BuildTree(humans + Bots(players)));
      err := None;
    }

    /**
     * `getBottomMatches`: a breadth-first walk from the root that collects
     * the nodes whose two children both hold a player, without going below
     * them; each first-round match is listed once.
     */
    method GetBottomMatches() returns (matches: seq<Path>)
      ensures root.None? ==> matches == []
      ensures root.Some? ==>
        Distinct(matches) && forall q :: q in matches <==> q in Frontier(root.value, [])
    {
      matches := [];
      if root.None? {
        return;
      }
      var t := root.value;
      var queue: seq<Path> := [[]];
      assert queue[1..] == [];
      assert QueueFrontier(t, queue) == Frontier(t, []);
      while |queue| > 0
        invariant forall q :: q in queue ==> Has(t, q)
        invariant Distinct(matches) && Antichain(queue, matches)
        invariant forall q :: q in Frontier(t, []) <==> q in matches || q in QueueFrontier(t, queue)
        decreases QueueSize(t, queue)
      {
        var q := queue[0];
        var node := At(t, q).value;
        var rest := queue[1..];
        if node.left.Some? && node.right.Some? {
          if node.left.value.player.Some? && node.right.value.player.Some? {
            AntichainEmit(queue, matches);
            matches := matches + [q];
            queue := rest;
          } else {
            FrontierExpand(t, q);
            AntichainExpand(queue, matches);
            AtAppend(t, q, false);
            AtAppend(t, q, true);
            QueueAppend(t, rest, [q + [false], q + [true]]);
            QueuePair(t, q + [false], q + [true]);
            queue := rest + [q + [false], q + [true]];
          }
        } else {
          AntichainDrop(queue, matches);
          queue := rest;
        }
      }
    }

    /** `findParent`: the match the winner of `child` moves on to, if any. */
    function FindParent(child: Path): (r: Option<Path>)
      reads this
      ensures r.Some? ==> |r.value| + 1 == |child| && child[..|r.value|] == r.value
    {
      if root.None? then None
      else
        var p := FindParentFrom(root.value, [], child);
        if p.Some? then FindParentAbove(root.value, [], child); p else p
    }

    /** `getNextRound`: the parents of the matches just played, each once, in first-seen order. */
    method GetNextRound(previousRound: seq<Path>) returns (nextRound: seq<Path>)
      ensures Distinct(nextRound)
      ensures forall p :: p in nextRound ==> exists m :: m in previousRound && FindParent(m) == Some(p)
      ensures forall m :: m in previousRound && FindParent(m).Some? ==> FindParent(m).value in nextRound
    {
      nextRound := [];
      for i := 0 to |previousRound|
        invariant Distinct(nextRound)
        invariant forall p :: p in nextRound ==> exists m :: m in previousRound[..i] && FindParent(m) == Some(p)
        invariant forall m :: m in previousRound[..i] && FindParent(m).Some? ==> FindParent(m).value in nextRound
      {
        var parent := FindParent(previousRound[i]);
        if parent.Some? && parent.value !in nextRound {
          nextRound := nextRound + [parent.value];
        }
        assert previousRound[..i + 1] == previousRound[..i] + [previousRound[i]];
      }
      assert previousRound[..|previousRound|] == previousRound;
    }

    /**
     * What the next round of a round in the bracket is: nodes of the bracket
     * one step up, and, in a perfect bracket, every node one level up.
     */
    lemma NextRoundFacts(round: seq<Path>, next: seq<Path>, h: nat, d: int)
      requires root.Some? && |round| > 0 && forall q :: q in round ==> Has(root.value, q)
      requires Distinct(next)
      requires forall p :: p in next ==> exists m :: m in round && FindParent(m) == Some(p)
      requires forall m :: m in round && FindParent(m).Some? ==> FindParent(m).value in next
      ensures forall p :: p in next ==> Has(root.value, p)
      ensures |next| > 0 ==> MaxLen(next) < MaxLen(round)
      ensures Perfect(root.value, h) && RoundIs(round, d) && 0 <= d <= h ==> RoundIs(next, d - 1)
    {
      var t := root.value;
      forall p | p in next
        ensures exists m :: m in round && FindParentFrom(t, [], m) == Some(p)
      {
        var m :| m in round && FindParent(m) == Some(p);
      }
      forall m | m in round && FindParentFrom(t, [], m).Some?
        ensures FindParentFrom(t, [], m).value in next
      {
        assert FindParent(m) == FindParentFrom(t, [], m);
      }
      ParentsInBracket(t, round, next);
      NextRoundShorter(round, next);
      if Perfect(t, h) && RoundIs(round, d) && 0 <= d <= h {
        NextRoundOfPerfect(t, h, round, next, d);
      }
    }

    /**
     * `handleMatchEnded`: a match is decided once, only with two children
     * that both hold a player; the winner's player moves up into the node.
     */
    method HandleMatchEnded(node: Path, winner: Side) returns (err: Option<string>)
      requires root.Some? && Has(root.value, node)
      modifies this`root
      ensures var n := At(old(root).value, node).value;
        err == (if n.player.Some? then Some(AlreadyPlayed)
                else if n.left.None? || n.right.None? then Some(NoTwoChildren)
                else if n.left.value.player.None? || n.right.value.player.None? then Some(ChildWithoutPlayer)
                else None)
      ensures err.Some? ==> root == old(root)
      ensures err.None? ==> root == Some(SetPlayer(old(root).value, node,
        Child(At(old(root).value, node).value, winner == B).value.player))
    {
      var n := At(root.value, node).value;
      if n.player.Some? {
        return Some(AlreadyPlayed);
      }
      if n.left.None? || n.right.None? {
        return Some(NoTwoChildren);
      }
      if n.left.value.player.None? || n.right.value.player.None? {
        return Some(ChildWithoutPlayer);
      }
      root := Some(SetPlayer(root.value, node, Child(n, winner == B).value.player));
      err := None;
    }

    /**
     * `playMatchAsync` on one match: refused when a child or a child's
     * player is missing, then as `handleMatchEnded` refuses; otherwise the
     * match goes to the side that `run` (or `coin`, for two bots) makes the
     * winner. The shape of the bracket never changes.
     */
    method PlayMatch(q: Path, run: MatchRun, coin: Side) returns (err: Option<string>)
      requires root.Some? && Has(root.value, q)
      modifies this`root
      ensures root.Some? && forall p :: Has(root.value, p) <==> Has(old(root).value, p)
      ensures var n := At(old(root).value, q).value;
        var missing := n.left.None? || n.right.None? || n.left.value.player.None? || n.right.value.player.None?;
        err == (if missing then Some(MissingPlayers) else if n.player.Some? then Some(AlreadyPlayed) else None)
      ensures err.Some? ==> root == old(root)
      ensures err.None? ==> var n := At(old(root).value, q).value;
        var side := Resolve(n.left.value.player.value, n.right.value.player.value, run, coin);
        root == Some(SetPlayer(old(root).value, q, Child(n, side == B).value.player))
    {
      var n := At(root.value, q).value;
      if n.left.None? || n.right.None? || n.left.value.player.None? || n.right.value.player.None? {
        return Some(MissingPlayers);
      }
      var side := Resolve(n.left.value.player.value, n.right.value.player.value, run, coin);
      err := HandleMatchEnded(q, side);
      if err.None? {
        SetPlayerShape(old(root).value, q, Child(n, side == B).value.player);
      }
    }

    /**
     * `playRound`: plays every match of a round. `runs` and `coins` stand
     * for what each match's room reports and for the random draws. On a
     * bracket at the stage where the round at depth d is due, every match
     * of that round gets decided.
     */
    method PlayRound(nodes: seq<Path>, runs: Path -> MatchRun, coins: Path -> Side,
                     ghost t0: MatchNode, ghost h: nat, ghost d: int)
      returns (err: Option<string>)
      requires root.Some? && forall q :: q in nodes ==> Has(root.value, q)
      modifies this`root
      ensures root.Some? && forall q :: q in nodes ==> Has(root.value, q)
      ensures Stage(old(root).value, t0, h, d, []) && RoundIs(nodes, d) && d >= 0 ==>
        err.None? && Stage(root.value, t0, h, d - 1, [])
    {
      ghost var due := Stage(root.value, t0, h, d, []) && RoundIs(nodes, d) && d >= 0;
      err := None;
      for i := 0 to |nodes|
        invariant root.Some? && forall q :: q in nodes ==> Has(root.value, q)
        invariant due ==> Stage(root.value, t0, h, d, nodes[..i])
        invariant err.None?
      {
        var q := nodes[i];
        assert q in nodes;
        ghost var before := root.value;
        if due {
          RoundStep(before, t0, h, d, nodes, i, false);
        }
        ghost var n := At(before, q).value;
        err := PlayMatch(q, runs(q), coins(q));
        if err.Some? {
          return;
        }
        if due {
          RoundStep(before, t0, h, d, nodes, i,
                    Resolve(n.left.value.player.value, n.right.value.player.value, runs(q), coins(q)) == B);
        }
      }
      if due {
        assert nodes[..|nodes|] == nodes;
        RoundDone(root.value, t0, h, d, nodes);
      }
    }

    /**
     * `playTournament`: plays the first round, then each next round, until
     * none is left, and marks the tournament ended. A bracket as `generate`
     * builds it ends with every match decided, the same entrants at the
     * leaves and one of them as champion.
     */
    method PlayTournament(runs: Path -> MatchRun, coins: Path -> Side) returns (err: Option<string>)
      modifies this`root, tournament`isEnded
      ensures old(root).None? ==> err == Some(NotGenerated)
      ensures err.None? ==> tournament.isEnded
      ensures err.Some? ==> tournament.isEnded == old(tournament.isEnded)
      ensures old(root).Some? && FreshBracket(old(root).value) ==>
        err.None? && root.Some? &&
        (forall q :: Has(root.value, q) ==> PlayerAt(root.value, q).Some?) &&
        Leaves(root.value) == Leaves(old(root).value) &&
        root.value.player.Some? && root.value.player.value in Leaves(old(root).value)
    {
      if root.None? {
        return Some(NotGenerated);
      }
      ghost var t0 := root.value;
      ghost var h := Height(t0);
      ghost var isFresh := FreshBracket(t0);
      var round := GetBottomMatches();
      ghost var d: int := (h as int) - 1;
      RoundInBracket(t0, round);
      if isFresh {
        FirstRound(t0, round);
      }
      err := None;
      while |round| > 0
        invariant root.Some? && forall q :: q in round ==> Has(root.value, q)
        invariant isFresh ==> RoundIs(round, d) && Stage(root.value, t0, h, d, [])
        invariant err.None? && tournament.isEnded == old(tournament.isEnded)
        decreases if |round| == 0 then 0 else 1 + MaxLen(round)
      {
        err := PlayRound(round, runs, coins, t0, h, d);
        if err.Some? {
          return;
        }
        var next := GetNextRound(round);
        NextRoundFacts(round, next, h, d);
        round := next;
        d := d - 1;
      }
      if isFresh {
        Champion(root.value, t0, h, round, d);
      }
      tournament.isEnded := true;
    }
  }
}
