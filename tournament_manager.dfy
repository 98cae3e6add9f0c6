/**
 * The server's registry of tournaments: creation, joining, leaving, closing
 * (with bot padding and bracket generation) and the play-through that
 * closing starts. Every operation keeps `Tournament.Valid` of every entry.
 */
module TournamentManager {
  import opened Common
  import Json
  import opened Bracket
  import opened TournamentSettings
  import opened Tournaments
  import opened ErrorMsg

  /** `name.trim() === ""`: empty or made only of white space. */
  predicate IsBlank(name: string)
  {
    forall i :: 0 <= i < |name| ==> IsJsWhitespace(name[i])
  }

  /** The alias a player joins under: the one given, else their username. */
  function Alias(player: PlayerInfo, username: Option<string>): (r: string)
    ensures username.Some? ==> r == username.value
    ensures username.None? ==> r == player.username
  {
    if username.Some? then username.value else player.username
  }

  /** The name of the n-th bot: `Bot n`. */
  function BotName(n: nat): string
  {
    "Bot " + Decimal(n)
  }

  /**
   * A numbering of names. The padding facts below hold for any injective
   * numbering; `BotName` is the one the server uses.
   */
  type Naming = nat -> string

  ghost predicate Injective(name: Naming)
  {
    forall a: nat, b: nat :: name(a) == name(b) ==> a == b
  }

  /** Distinct bot numbers give distinct bot names. */
  lemma BotNameInjective()
    ensures Injective(BotName)
  {
    forall a: nat, b: nat | BotName(a) == BotName(b)
      ensures a == b
    {
      assert Decimal(a) == BotName(a)[4..];
      assert Decimal(b) == BotName(b)[4..];
      DecimalInjective(a, b);
    }
  }

  /** The names numbered 1 to c - 1. */
  ghost function NamesBelow(name: Naming, c: nat): set<string>
  {
    set k: nat | 1 <= k < c :: name(k)
  }

  lemma NamesBelowNext(name: Naming, c: nat)
    requires Injective(name) && c >= 1
    ensures name(c) !in NamesBelow(name, c)
    ensures NamesBelow(name, c + 1) == NamesBelow(name, c) + {name(c)}
  {
  }

  /** Index of the first entrant with this uuid, or -1 (`findIndex`). */
  function FindIndex(ps: seq<PlayerInfo>, uuid: string): (r: int)
    ensures -1 <= r < |ps|
    ensures r == -1 <==> uuid !in UuidSet(ps)
    ensures r >= 0 ==> ps[r].uuid == uuid && forall j :: 0 <= j < r ==> ps[j].uuid != uuid
  {
    if |ps| == 0 then -1
    else if ps[0].uuid == uuid then 0
    else
      var r := FindIndex(ps[1..], uuid);
      assert UuidSet(ps) == {ps[0].uuid} + UuidSet(ps[1..]) by {
        assert ps == [ps[0]] + ps[1..];
      }
      if r == -1 then -1 else r + 1
  }

  lemma UuidSetAppend(ps: seq<PlayerInfo>, p: PlayerInfo)
    ensures UuidSet(ps + [p]) == UuidSet(ps) + {p.uuid}
  {
    assert forall q :: q in ps + [p] <==> q in ps || q == p;
  }

  /** Taking out the entrant at index i takes out its uuid and only it. */
  lemma RemoveAt(ps: seq<PlayerInfo>, i: nat)
    requires i < |ps| && UuidsDistinct(ps)
    ensures UuidsDistinct(ps[..i] + ps[i + 1..])
    ensures UuidSet(ps[..i] + ps[i + 1..]) == UuidSet(ps) - {ps[i].uuid}
  {
    var rest := ps[..i] + ps[i + 1..];
    assert forall j :: 0 <= j < |rest| ==> rest[j] == if j < i then ps[j] else ps[j + 1];
    forall u | u in UuidSet(ps) - {ps[i].uuid}
      ensures u in UuidSet(rest)
    {
      var j :| 0 <= j < |ps| && ps[j].uuid == u;
      assert j != i;
      if j < i {
        assert rest[j] == ps[j];
      } else {
        assert rest[j - 1] == ps[j];
      }
    }
  }

  /** A fresh key with a fresh alias keeps aliases unique. */
  lemma AddAlias(m: map<string, string>, u: string, v: string)
    requires AliasesUnique(m) && u !in m && v !in m.Values
    ensures AliasesUnique(m[u := v])
    ensures m[u := v].Values == m.Values + {v}
  {
    var m' := m[u := v];
    forall a, b | a in m' && b in m' && a != b
      ensures m'[a] != m'[b]
    {
      if a != u && b != u {
      } else if a == u {
        assert m[b] in m.Values;
      } else {
        assert m[a] in m.Values;
      }
    }
    forall x | x in m.Values
      ensures x in m'.Values
    {
      var k :| k in m && m[k] == x;
      assert m'[k] == x;
    }
    forall x | x in m'.Values
      ensures x in m.Values + {v}
    {
      var k :| k in m' && m'[k] == x;
      if k != u {
        assert m[k] in m.Values;
      }
    }
    assert m'[u] == v;
  }

  /** Lower bounds give smaller sets of names. */
  lemma NamesBelowGrow(name: Naming, a: nat, b: nat)
    requires a <= b
    ensures NamesBelow(name, a) <= NamesBelow(name, b)
  {
  }

  /** Skipping a taken name leaves fewer taken names ahead. */
  lemma SkipShrinks(name: Naming, taken: set<string>, c: nat)
    requires Injective(name) && c >= 1 && name(c) in taken
    ensures |taken - NamesBelow(name, c + 1)| < |taken - NamesBelow(name, c)|
  {
    NamesBelowNext(name, c);
    assert taken - NamesBelow(name, c + 1) == (taken - NamesBelow(name, c)) - {name(c)};
  }

  /** An injective naming outruns any finite set of taken names: some name from `c` on is free. */
  lemma {:induction false} FreeNameExists(name: Naming, taken: set<string>, c: nat) returns (k: nat)
    requires Injective(name) && c >= 1
    ensures k >= c && name(k) !in taken
    decreases |taken - NamesBelow(name, c)|
  {
    if name(c) !in taken {
      k := c;
    } else {
      SkipShrinks(name, taken, c);
      k := FreeNameExists(name, taken, c + 1);
    }
  }

  /**
   * The `do … while` of `adjustPlayers`, for any injective naming: tries
   * `name(n)` for n = from, from + 1, … and stops at the first name not
   * taken; `next` is the number after it.
   */
  method FirstFreeName(name: Naming, taken: set<string>, from: nat) returns (found: string, next: nat)
    requires Injective(name) && from >= 1
    ensures next > from && found == name(next - 1) && found !in taken
    ensures forall k :: from <= k < next - 1 ==> name(k) in taken
  {
    ghost var bound := FreeNameExists(name, taken, from);
    var count := from;
    found := name(count);
    count := count + 1;
    while found in taken
      invariant from + 1 <= count <= bound + 1 && found == name(count - 1)
      invariant forall k :: from <= k < count - 1 ==> name(k) in taken
      decreases bound + 1 - count
    {
      found := name(count);
      count := count + 1;
    }
    next := count;
  }

  /** The bot naming of `adjustPlayers`: the first free "Bot n" from `from` on. */
  method NextBotName(taken: set<string>, from: nat) returns (name: string, next: nat)
    requires from >= 1
    ensures next > from && name == BotName(next - 1) && name !in taken
    ensures forall k :: from <= k < next - 1 ==> BotName(k) in taken
  {
    BotNameInjective();
    name, next := FirstFreeName(BotName, taken, from);
  }

  /** The least number the i-th bot may take: 1, or one past the previous bot's. */
  function Floor(numbers: seq<nat>, i: nat): nat
    requires i <= |numbers|
  {
    if i == 0 then 1 else numbers[i - 1] + 1
  }

  /**
   * Each bot number is the first one, from its floor on, whose name is not
   * in `taken`: the numbers rise and skip exactly the taken names.
   */
  ghost predicate FirstFree(name: Naming, numbers: seq<nat>, taken: set<string>)
  {
    forall i :: 0 <= i < |numbers| ==>
      Floor(numbers, i) <= numbers[i] && name(numbers[i]) !in taken &&
      forall k :: Floor(numbers, i) <= k < numbers[i] ==> name(k) in taken
  }

  lemma FirstFreeAppend(name: Naming, numbers: seq<nat>, taken: set<string>, n: nat)
    requires FirstFree(name, numbers, taken)
    requires Floor(numbers, |numbers|) <= n && name(n) !in taken
    requires forall k :: Floor(numbers, |numbers|) <= k < n ==> name(k) in taken
    ensures FirstFree(name, numbers + [n], taken)
  {
    var ns := numbers + [n];
    forall i | 0 <= i < |ns|
      ensures Floor(ns, i) <= ns[i] && name(ns[i]) !in taken &&
        forall k :: Floor(ns, i) <= k < ns[i] ==> name(k) in taken
    {
      if i < |numbers| {
        assert ns[i] == numbers[i];
        assert i > 0 ==> ns[i - 1] == numbers[i - 1];
        assert Floor(ns, i) == Floor(numbers, i);
      } else {
        assert i == |numbers| && ns[i] == n;
        if i > 0 {
          assert ns[i - 1] == numbers[i - 1];
        }
      }
    }
  }

  /**
   * The roster `players` with aliases `names` extends `p0` with aliases
   * `n0` by one bot per entry of `numbers`: uuids stay distinct and keyed
   * one to one, aliases stay unique, the aliases of `p0` are kept, and the
   * bots carry, in order, the first names of `name` not in `taken`.
   */
  ghost predicate Padded(name: Naming, p0: seq<PlayerInfo>, n0: map<string, string>, taken: set<string>,
                         players: seq<PlayerInfo>, names: map<string, string>, numbers: seq<nat>)
  {
    PaddedRoster(p0, players, names, numbers) &&
    PaddedNames(name, n0, taken, names, numbers) &&
    PaddedBots(name, p0, taken, players, names, numbers)
  }

  ghost predicate PaddedRoster(p0: seq<PlayerInfo>, players: seq<PlayerInfo>,
                               names: map<string, string>, numbers: seq<nat>)
  {
    |players| == |p0| + |numbers| && players[..|p0|] == p0 &&
    UuidsDistinct(players) && names.Keys == UuidSet(players)
  }

  ghost predicate PaddedNames(name: Naming, n0: map<string, string>, taken: set<string>,
                              names: map<string, string>, numbers: seq<nat>)
  {
    AliasesUnique(names) &&
    names.Values <= taken + NamesBelow(name, Floor(numbers, |numbers|)) &&
    (forall u :: u in n0 ==> u in names && names[u] == n0[u])
  }

  ghost predicate PaddedBots(name: Naming, p0: seq<PlayerInfo>, taken: set<string>,
                             players: seq<PlayerInfo>, names: map<string, string>, numbers: seq<nat>)
    requires |players| == |p0| + |numbers|
  {
    (forall i :: 0 <= i < |numbers| ==> IsBotEntry(name, players[|p0| + i], names, numbers[i])) &&
    FirstFree(name, numbers, taken)
  }

  /** `b` is a bot named and aliased as bot number n. */
  ghost predicate IsBotEntry(name: Naming, b: PlayerInfo, names: map<string, string>, n: nat)
  {
    b.isBot && b.username == name(n) && b.uuid in names && names[b.uuid] == b.username
  }

  lemma PadStepRoster(p0: seq<PlayerInfo>, players: seq<PlayerInfo>, names: map<string, string>,
                      numbers: seq<nat>, u: string, v: string, n: nat)
    requires PaddedRoster(p0, players, names, numbers) && u !in names
    ensures PaddedRoster(p0, players + [PlayerInfo(u, true, v)], names[u := v], numbers + [n])
  {
    var players' := players + [PlayerInfo(u, true, v)];
    UuidSetAppend(players, PlayerInfo(u, true, v));
    assert players'[..|p0|] == players[..|p0|];
  }

  lemma PadStepNames(name: Naming, n0: map<string, string>, taken: set<string>,
                     names: map<string, string>, numbers: seq<nat>, u: string, n: nat)
    requires Injective(name) && PaddedNames(name, n0, taken, names, numbers) && u !in names
    requires Floor(numbers, |numbers|) <= n && name(n) !in taken
    ensures PaddedNames(name, n0, taken, names[u := name(n)], numbers + [n])
  {
    NamesBelowNext(name, n);
    NamesBelowGrow(name, Floor(numbers, |numbers|), n);
    assert name(n) !in names.Values;
    AddAlias(names, u, name(n));
    assert Floor(numbers + [n], |numbers| + 1) == n + 1;
  }

  lemma PadStepBots(name: Naming, p0: seq<PlayerInfo>, taken: set<string>, players: seq<PlayerInfo>,
                    names: map<string, string>, numbers: seq<nat>, u: string, n: nat)
    requires |players| == |p0| + |numbers| && PaddedBots(name, p0, taken, players, names, numbers)
    requires u !in names
    requires Floor(numbers, |numbers|) <= n && name(n) !in taken
    requires forall k :: Floor(numbers, |numbers|) <= k < n ==> name(k) in taken
    ensures PaddedBots(name, p0, taken, players + [PlayerInfo(u, true, name(n))],
                       names[u := name(n)], numbers + [n])
  {
    var players', names', numbers' := players + [PlayerInfo(u, true, name(n))], names[u := name(n)], numbers + [n];
    FirstFreeAppend(name, numbers, taken, n);
    forall i | 0 <= i < |numbers'|
      ensures IsBotEntry(name, players'[|p0| + i], names', numbers'[i])
    {
      var b := players'[|p0| + i];
      if i < |numbers| {
        assert b == players[|p0| + i] && numbers'[i] == numbers[i];
        assert b.uuid in names && b.uuid != u;
        assert names'[b.uuid] == names[b.uuid];
      } else {
        assert b == PlayerInfo(u, true, name(n)) && numbers'[i] == n;
        assert names'[u] == name(n);
      }
    }
  }

  /** One bot appended to a padded roster, under the first free number, keeps it padded. */
  lemma PadStep(name: Naming, p0: seq<PlayerInfo>, n0: map<string, string>, taken: set<string>,
                players: seq<PlayerInfo>, names: map<string, string>, numbers: seq<nat>, u: string, n: nat)
    requires Injective(name) && Padded(name, p0, n0, taken, players, names, numbers) && u !in names
    requires Floor(numbers, |numbers|) <= n && name(n) !in taken
    requires forall k :: Floor(numbers, |numbers|) <= k < n ==> name(k) in taken
    ensures Padded(name, p0, n0, taken, players + [PlayerInfo(u, true, name(n))], names[u := name(n)], numbers + [n])
  {
    PadStepRoster(p0, players, names, numbers, u, name(n), n);
    PadStepNames(name, n0, taken, names, numbers, u, n);
    PadStepBots(name, p0, taken, players, names, numbers, u, n);
  }

  /** The entries after `p0` in a padded roster are bots. */
  lemma PaddedAreBots(name: Naming, p0: seq<PlayerInfo>, n0: map<string, string>, taken: set<string>,
                      players: seq<PlayerInfo>, names: map<string, string>, numbers: seq<nat>)
    requires Padded(name, p0, n0, taken, players, names, numbers)
    ensures forall i :: |p0| <= i < |players| ==> players[i].isBot
  {
    assert |players| == |p0| + |numbers|;
    BotEntriesAreBots(name, p0, taken, players, names, numbers);
  }

  lemma BotEntriesAreBots(name: Naming, p0: seq<PlayerInfo>, taken: set<string>,
                          players: seq<PlayerInfo>, names: map<string, string>, numbers: seq<nat>)
    requires |players| == |p0| + |numbers| && PaddedBots(name, p0, taken, players, names, numbers)
    ensures forall i :: |p0| <= i < |players| ==> players[i].isBot
  {
    forall i | |p0| <= i < |players|
      ensures players[i].isBot
    {
      var j := i - |p0|;
      assert IsBotEntry(name, players[|p0| + j], names, numbers[j]);
    }
  }

  /**
   * `adjustPlayers`: pads the roster with bots up to `maxPlayerCount`. Bot
   * numbers rise from 1, skipping every number whose name `Bot n` is
   * already an alias; each bot gets a fresh uuid and its name as alias.
   * The ghost `numbers` are the bot numbers used, in order.
   */
  method AdjustPlayers(t: Tournament) returns (ghost numbers: seq<nat>)
    requires ValidSettings(t.settings) && |t.players| <= MaxPlayers(t.settings)
    requires UuidsDistinct(t.players) && t.pseudoNames.Keys == UuidSet(t.players)
    requires AliasesUnique(t.pseudoNames)
    modifies t`players, t`pseudoNames
    ensures |t.players| == MaxPlayers(t.settings)
    ensures Padded(BotName, old(t.players), old(t.pseudoNames), old(t.pseudoNames).Values,
                   t.players, t.pseudoNames, numbers)
    ensures |old(t.players)| == MaxPlayers(t.settings) ==>
      t.players == old(t.players) && t.pseudoNames == old(t.pseudoNames)
  {
    BotNameInjective();
    ghost var p0, n0 := t.players, t.pseudoNames;
    var players, names := t.players, t.pseudoNames;
    var count := |players|;
    var botCount: nat := 1;
    var pseudosTaken := names.Values;
    numbers := [];
    assert players[..|p0|] == p0;
    while count as real < t.settings.maxPlayerCount
      invariant |p0| <= count <= MaxPlayers(t.settings) && count == |players|
      invariant botCount == Floor(numbers, |numbers|)
      invariant Padded(BotName, p0, n0, pseudosTaken, players, names, numbers)
      invariant |numbers| == 0 ==> players == p0 && names == n0
      decreases MaxPlayers(t.settings) - count
    {
      FreshStringExists(names.Keys);
      var botUuid :| botUuid !in names.Keys;
      var botName;
      botName, botCount := NextBotName(pseudosTaken, botCount);
      PadStep(BotName, p0, n0, pseudosTaken, players, names, numbers, botUuid, botCount - 1);
      players := players + [PlayerInfo(botUuid, true, botName)];
      names := names[botUuid := botName];
      numbers := numbers + [botCount - 1];
      count := count + 1;
    }
    t.players, t.pseudoNames := players, names;
  }

  /**
   * A registry of tournaments keyed by uuid, in creation order (the
   * server's `Map`, whose iteration follows insertion).
   */
  class TournamentRegistry {
    var tournaments: map<string, Tournament>
    var order: seq<string>

    ghost function Trees(): set<TournamentTree?>
      reads this, tournaments.Values
    {
      set t | t in tournaments.Values :: t.tree
    }

    /** Each entry is filed under its own uuid and is valid; `order` lists the keys once each. */
    ghost predicate Valid()
      reads this, tournaments.Values, Trees()
    {
      (forall k :: k in tournaments ==> tournaments[k].uuid == k && tournaments[k].Valid()) &&
      Distinct(order) && (forall k :: k in order <==> k in tournaments)
    }

    constructor()
      ensures Valid() && tournaments == map[] && order == []
    {
      tournaments := map[];
      order := [];
    }

    /** Whether the player owns a tournament that has not ended. */
    predicate OwnsOpenTournament(owner: PlayerInfo)
      reads this, tournaments.Values
    {
      exists k :: k in tournaments && !tournaments[k].isEnded && tournaments[k].owner.uuid == owner.uuid
    }

    /**
     * `createNewTournament`: refuses a blank name, invalid settings and an
     * owner who already owns a tournament that has not ended, in that
     * order; otherwise files a new open tournament under a fresh uuid.
     */
    method CreateNewTournament(name: string, owner: PlayerInfo, settings: Json.Json)
      returns (t: Tournament?, err: Option<string>)
      requires Valid()
      modifies this
      ensures Valid()
      ensures IsBlank(name) ==> err == Some(InvalidTournamentName)
      ensures !IsBlank(name) && !IsValidTournamentSettings(settings) ==>
        err == Some(InvalidTournamentSettings)
      ensures !IsBlank(name) && IsValidTournamentSettings(settings) && old(OwnsOpenTournament(owner)) ==>
        err == Some(AlreadyOwnerOfTournament)
      ensures err.None? <==>
        !IsBlank(name) && IsValidTournamentSettings(settings) && !old(OwnsOpenTournament(owner))
      ensures err.Some? ==> t == null && tournaments == old(tournaments) && order == old(order)
      ensures err.None? ==>
        t != null && fresh(t) && t.uuid !in old(tournaments) &&
        tournaments == old(tournaments)[t.uuid := t] && order == old(order) + [t.uuid] &&
        t.name == name && t.owner == owner && t.settings == DecodeSettings(settings) &&
        t.players == [] && t.playerCount == 0 && !t.isClosed && !t.isEnded
    {
      if IsBlank(name) {
        return null, Some(InvalidTournamentName);
      }
      if !IsValidTournamentSettings(settings) {
        return null, Some(InvalidTournamentSettings);
      }
      if exists k :: k in tournaments && !tournaments[k].isEnded && tournaments[k].owner.uuid == owner.uuid {
        return null, Some(AlreadyOwnerOfTournament);
      }
      t := FileNew(name, owner, DecodeSettings(settings));
      err := None;
    }

    /** Files a new open tournament under a uuid not yet in use. */
    method FileNew(name: string, owner: PlayerInfo, settings: Settings) returns (t: Tournament)
      requires Valid() && ValidSettings(settings)
      modifies this
      ensures Valid() && fresh(t) && t.uuid !in old(tournaments)
      ensures tournaments == old(tournaments)[t.uuid := t] && order == old(order) + [t.uuid]
      ensures t.name == name && t.owner == owner && t.settings == settings
      ensures t.players == [] && t.playerCount == 0 && !t.isClosed && !t.isEnded
    {
      FreshStringExists(tournaments.Keys);
      var uuid :| uuid !in tournaments.Keys;
      t := new Tournament(uuid, name, owner, settings);
      assert t.Valid();
      tournaments := tournaments[uuid := t];
      order := order + [uuid];
    }

    /** `getTournament` */
    function GetTournament(uuid: string): (r: Option<Tournament>)
      requires Valid()
      reads this, tournaments.Values, Trees()
      ensures r.Some? <==> uuid in tournaments
      ensures r.Some? ==> r.value.uuid == uuid && r.value.Valid()
    {
      if uuid in tournaments then Some(tournaments[uuid]) else None
    }

    /** The tournaments filed under `keys`, in that order. */
    function Collect(keys: seq<string>): (r: seq<Tournament>)
      requires forall k :: k in keys ==> k in tournaments
      reads this
      ensures |r| == |keys| && forall i :: 0 <= i < |keys| ==> r[i] == tournaments[keys[i]]
    {
      if |keys| == 0 then [] else [tournaments[keys[0]]] + Collect(keys[1..])
    }

    /** `getTournaments`: every tournament, in creation order. */
    function GetTournaments(): (r: seq<Tournament>)
      requires Valid()
      reads this, tournaments.Values, Trees()
      ensures |r| == |order| && forall i :: 0 <= i < |r| ==> r[i].uuid == order[i]
      ensures forall k :: k in tournaments ==> tournaments[k] in r
    {
      var r := Collect(order);
      assert forall k :: k in tournaments ==> tournaments[k] in r by {
        forall k | k in tournaments
          ensures tournaments[k] in r
        {
          var i :| 0 <= i < |order| && order[i] == k;
          assert r[i] == tournaments[k];
        }
      }
      r
    }

    /** `getTournamentsForPlayer`: the tournaments of `keys`, in order, whose roster holds the uuid. */
    function TournamentsWith(keys: seq<string>, uuid: string): (r: seq<Tournament>)
      requires forall k :: k in keys ==> k in tournaments
      reads this, tournaments.Values
      ensures forall i :: 0 <= i < |r| ==>
        uuid in UuidSet(r[i].players) && exists k :: k in keys && tournaments[k] == r[i]
      ensures forall k :: k in keys && uuid in UuidSet(tournaments[k].players) ==> tournaments[k] in r
    {
      if |keys| == 0 then []
      else
        var t := tournaments[keys[0]];
        var rest := TournamentsWith(keys[1..], uuid);
        assert forall k :: k in keys <==> k == keys[0] || k in keys[1..];
        if exists p :: p in t.players && p.uuid == uuid then [t] + rest else rest
    }

    /** Entries other than `t` are other objects with other brackets. */
    lemma Separate(t: Tournament)
      requires Valid() && t in tournaments.Values
      ensures forall k :: k in tournaments && k != t.uuid ==>
        tournaments[k] != t && tournaments[k].tree != t.tree
    {
    }

    /** Changing one entry keeps the registry valid when that entry stays valid. */
    lemma KeepValid(t: Tournament)
      requires t in tournaments.Values && t.Valid()
      requires forall k :: k in tournaments ==> tournaments[k].uuid == k
      requires forall k :: k in tournaments && tournaments[k] != t ==> tournaments[k].Valid()
      requires Distinct(order) && forall k :: k in order <==> k in tournaments
      ensures Valid()
    {
    }

    /** `addPlayerToTournament`: an unknown uuid is refused, otherwise see `Join`. */
    method AddPlayerToTournament(uuid: string, player: PlayerInfo, username: Option<string>)
      returns (err: Option<string>)
      requires Valid()
      modifies tournaments.Values, Trees()
      ensures Valid() && tournaments == old(tournaments) && order == old(order)
      ensures forall k :: k in tournaments && k != uuid ==>
        unchanged(tournaments[k]) && tournaments[k].tree.root == old(tournaments[k].tree.root)
      ensures uuid !in tournaments ==> err == Some(TournamentNotFound)
      ensures uuid in tournaments ==>
        Joined(old(RosterOf(tournaments[uuid])), RosterOf(tournaments[uuid]), player, username, err)
    {
      if uuid !in tournaments {
        return Some(TournamentNotFound);
      }
      var t := tournaments[uuid];
      Separate(t);
      err := Join(t, player, username);
      KeepValid(t);
    }

    /** `removePlayerFromTournament`: an unknown uuid is refused, otherwise see `Leave`. */
    method RemovePlayerFromTournament(uuid: string, player: PlayerInfo) returns (err: Option<string>)
      requires Valid()
      modifies tournaments.Values
      ensures Valid() && tournaments == old(tournaments) && order == old(order)
      ensures forall k :: k in tournaments && k != uuid ==> unchanged(tournaments[k])
      ensures uuid !in tournaments ==> err == Some(TournamentNotFound)
      ensures uuid in tournaments ==>
        Left(old(RosterOf(tournaments[uuid])), RosterOf(tournaments[uuid]), player, err)
    {
      if uuid !in tournaments {
        return Some(TournamentNotFound);
      }
      var t := tournaments[uuid];
      Separate(t);
      err := Leave(t, player);
      KeepValid(t);
    }

    /** `closeTournament`: an unknown uuid is refused, otherwise see `CloseByOwner`. */
    method CloseTournament(uuid: string, player: PlayerInfo) returns (err: Option<string>)
      requires Valid()
      modifies tournaments.Values, Trees()
      ensures Valid() && tournaments == old(tournaments) && order == old(order)
      ensures forall k :: k in tournaments && k != uuid ==>
        unchanged(tournaments[k]) && tournaments[k].tree.root == old(tournaments[k].tree.root)
      ensures uuid !in tournaments ==> err == Some(TournamentNotFound)
      ensures uuid in tournaments ==>
        ClosedBy(old(RosterOf(tournaments[uuid])), RosterOf(tournaments[uuid]), player, err) &&
        (err.None? ==> FreshBracket(tournaments[uuid].tree.root.value))
    {
      if uuid !in tournaments {
        return Some(TournamentNotFound);
      }
      var t := tournaments[uuid];
      Separate(t);
      err := CloseByOwner(t, player);
      KeepValid(t);
    }

    /**
     * The play-through that closing starts: plays every round of a closed
     * tournament that has not ended, and ends it with one of its entrants
     * as champion and every match decided.
     */
    method RunTournament(uuid: string, runs: Path -> MatchRun, coins: Path -> Side)
      requires Valid() && uuid in tournaments
      requires tournaments[uuid].isClosed && !tournaments[uuid].isEnded
      modifies tournaments[uuid], tournaments[uuid].tree
      ensures Valid() && tournaments == old(tournaments) && order == old(order)
      ensures var t := tournaments[uuid];
        t.isEnded && t.players == old(t.players) &&
        Leaves(t.tree.root.value) == old(Leaves(t.tree.root.value)) &&
        (forall q :: Has(t.tree.root.value, q) ==> PlayerAt(t.tree.root.value, q).Some?) &&
        t.tree.root.value.player.value in t.players
    {
      var t := tournaments[uuid];
      Separate(t);
      Play(t, runs, coins);
      KeepValid(t);
    }
  }

  /** The fields of a tournament that joining, leaving and closing change or consult. */
  datatype Roster = Roster(owner: PlayerInfo, players: seq<PlayerInfo>, pseudoNames: map<string, string>,
                           playerCount: int, settings: Settings, isClosed: bool, isEnded: bool)

  function RosterOf(t: Tournament): (r: Roster)
    reads t
    ensures r.players == t.players && r.pseudoNames == t.pseudoNames && r.isClosed == t.isClosed
  {
    Roster(t.owner, t.players, t.pseudoNames, t.playerCount, t.settings, t.isClosed, t.isEnded)
  }

  /**
   * The outcome of a join: a closed tournament, a full one, a player
   * already in it and an alias already used are refused in that order and
   * change nothing; otherwise the player is appended under the alias,
   * `playerCount` grows by one, and the tournament is closed exactly when
   * that filled the last place (with no bot to add).
   */
  ghost predicate Joined(before: Roster, after: Roster, player: PlayerInfo, username: Option<string>,
                         err: Option<string>)
  {
    var alias := Alias(player, username);
    var full := |before.players| as real >= before.settings.maxPlayerCount;
    (before.isClosed ==> err == Some(TournamentClosed)) &&
    (!before.isClosed && full ==> err == Some(TournamentFull)) &&
    (!before.isClosed && !full && player.uuid in UuidSet(before.players) ==>
      err == Some(PlayerAlreadyInTournament)) &&
    (!before.isClosed && !full && player.uuid !in UuidSet(before.players) &&
      alias in before.pseudoNames.Values ==>
      err == Some(UsernameAlreadyInUse)) &&
    (err.Some? ==> after == before) &&
    (err.None? ==>
      !before.isClosed && !full && player.uuid !in UuidSet(before.players) &&
      alias !in before.pseudoNames.Values &&
      after.players == before.players + [player] &&
      after.pseudoNames == before.pseudoNames[player.uuid := alias] &&
      after.playerCount == before.playerCount + 1 &&
      (after.isClosed <==> after.playerCount as real >= after.settings.maxPlayerCount))
  }

  /**
   * The outcome of a leave: a closed tournament and a player not in it
   * are refused in that order and change nothing; otherwise the player's
   * first entry and alias go and `playerCount` drops by one.
   */
  ghost predicate Left(before: Roster, after: Roster, player: PlayerInfo, err: Option<string>)
  {
    var i := FindIndex(before.players, player.uuid);
    (before.isClosed ==> err == Some(TournamentClosed)) &&
    (!before.isClosed && i == -1 ==> err == Some(PlayerNotInTournament)) &&
    (err.Some? ==> after == before) &&
    (err.None? ==>
      !before.isClosed && 0 <= i &&
      after.players == before.players[..i] + before.players[i + 1..] &&
      after.pseudoNames == before.pseudoNames - {player.uuid} &&
      after.playerCount == before.playerCount - 1 && !after.isClosed)
  }

  /**
   * The outcome of a close request: a closed tournament, a requester who
   * is not the owner and fewer than three entrants are refused in that
   * order and change nothing; otherwise the tournament is closed with
   * `playerCount` the number of entrants and the roster padded with bots.
   */
  ghost predicate ClosedBy(before: Roster, after: Roster, player: PlayerInfo, err: Option<string>)
  {
    (before.isClosed ==> err == Some(TournamentClosed)) &&
    (!before.isClosed && before.owner.uuid != player.uuid ==> err == Some(NotOwnerOfTournament)) &&
    (!before.isClosed && before.owner.uuid == player.uuid && |before.players| < 3 ==>
      err == Some(NotEnoughPlayerToClose)) &&
    (err.Some? ==> after == before) &&
    (err.None? ==>
      !before.isClosed && before.owner.uuid == player.uuid && |before.players| >= 3 &&
      after.isClosed && !after.isEnded && after.playerCount == |before.players| &&
      |before.players| <= |after.players| && after.players[..|before.players|] == before.players &&
      (forall i :: |before.players| <= i < |after.players| ==> after.players[i].isBot))
  }

  /** The body of `addPlayerToTournament` once the tournament is found. */
  method Join(t: Tournament, player: PlayerInfo, username: Option<string>) returns (err: Option<string>)
    requires t.Valid()
    modifies t, t.tree
    ensures t.Valid() && t.tree == old(t.tree)
    ensures Joined(old(RosterOf(t)), RosterOf(t), player, username, err)
    ensures err.Some? ==> t.tree.root == old(t.tree.root)
  {
    if t.isClosed {
      return Some(TournamentClosed);
    }
    if |t.players| as real >= t.settings.maxPlayerCount {
      return Some(TournamentFull);
    }
    if exists p :: p in t.players && p.uuid == player.uuid {
      return Some(PlayerAlreadyInTournament);
    }
    var alias := Alias(player, username);
    if alias in t.pseudoNames.Values {
      return Some(UsernameAlreadyInUse);
    }
    Enrol(t, player, username);
    err := None;
  }

  /** The accepted case of `Join`: the entrant and its alias are added, closing a now full tournament. */
  method Enrol(t: Tournament, player: PlayerInfo, username: Option<string>)
    requires t.Valid() && !t.isClosed && (|t.players| as real) < t.settings.maxPlayerCount
    requires player.uuid !in UuidSet(t.players) && Alias(player, username) !in t.pseudoNames.Values
    modifies t, t.tree
    ensures t.Valid() && t.tree == old(t.tree)
    ensures Joined(old(RosterOf(t)), RosterOf(t), player, username, None)
  {
    var alias := Alias(player, username);
    UuidSetAppend(t.players, player);
    AddAlias(t.pseudoNames, player.uuid, alias);
    t.players := t.players + [player];
    t.pseudoNames := t.pseudoNames[player.uuid := alias];
    t.playerCount := t.playerCount + 1;
    if t.playerCount as real >= t.settings.maxPlayerCount {
      Close(t);
    }
  }

  /** The body of `removePlayerFromTournament` once the tournament is found. */
  method Leave(t: Tournament, player: PlayerInfo) returns (err: Option<string>)
    requires t.Valid()
    modifies t
    ensures t.Valid()
    ensures Left(old(RosterOf(t)), RosterOf(t), player, err)
  {
    if t.isClosed {
      return Some(TournamentClosed);
    }
    var i := FindIndex(t.players, player.uuid);
    if i == -1 {
      return Some(PlayerNotInTournament);
    }
    Withdraw(t, player, i);
    err := None;
  }

  /** The accepted case of `Leave`: the entrant at index `i` and its alias are removed. */
  method Withdraw(t: Tournament, player: PlayerInfo, i: int)
    requires t.Valid() && !t.isClosed && i == FindIndex(t.players, player.uuid) && i != -1
    modifies t
    ensures t.Valid()
    ensures Left(old(RosterOf(t)), RosterOf(t), player, None)
  {
    RemoveAt(t.players, i);
    t.players := t.players[..i] + t.players[i + 1..];
    t.pseudoNames := t.pseudoNames - {player.uuid};
    t.playerCount := t.playerCount - 1;
  }

  /** The body of `closeTournament` once the tournament is found. */
  method CloseByOwner(t: Tournament, player: PlayerInfo) returns (err: Option<string>)
    requires t.Valid()
    modifies t, t.tree
    ensures t.Valid() && t.tree == old(t.tree)
    ensures ClosedBy(old(RosterOf(t)), RosterOf(t), player, err)
    ensures err.Some? ==> t.tree.root == old(t.tree.root)
    ensures err.None? ==> FreshBracket(t.tree.root.value)
  {
    if t.isClosed {
      return Some(TournamentClosed);
    }
    if t.owner.uuid != player.uuid {
      return Some(NotOwnerOfTournament);
    }
    if |t.players| < 3 {
      return Some(NotEnoughPlayerToClose);
    }
    Close(t);
    err := None;
  }

  /** `playTournament` on a closed tournament that has not ended. */
  method Play(t: Tournament, runs: Path -> MatchRun, coins: Path -> Side)
    requires t.Valid() && t.isClosed && !t.isEnded
    modifies t, t.tree
    ensures t.Valid() && t.tree == old(t.tree) && t.isEnded && t.players == old(t.players)
    ensures Leaves(t.tree.root.value) == old(Leaves(t.tree.root.value))
    ensures forall q :: Has(t.tree.root.value, q) ==> PlayerAt(t.tree.root.value, q).Some?
  {
    ghost var entrants := Leaves(t.tree.root.value);
    var err := t.tree.PlayTournament(runs, coins);
    ghost var champion := t.tree.root.value.player.value;
    assert champion in multiset(entrants);
  }

  /**
   * The roster half of `close`: marks the tournament closed, records the
   * number of entrants in `playerCount` and pads the roster with bots.
   */
  method CloseRoster(t: Tournament)
    requires ValidSettings(t.settings) && |t.players| <= MaxPlayers(t.settings)
    requires UuidsDistinct(t.players) && t.pseudoNames.Keys == UuidSet(t.players)
    requires AliasesUnique(t.pseudoNames)
    modifies t`isClosed, t`playerCount, t`players, t`pseudoNames
    ensures t.isClosed && t.playerCount == |old(t.players)|
    ensures |t.players| == MaxPlayers(t.settings) && t.players[..|old(t.players)|] == old(t.players)
    ensures UuidsDistinct(t.players) && t.pseudoNames.Keys == UuidSet(t.players)
    ensures AliasesUnique(t.pseudoNames)
    ensures forall i :: |old(t.players)| <= i < |t.players| ==> t.players[i].isBot
    ensures |old(t.players)| == MaxPlayers(t.settings) ==>
      t.players == old(t.players) && t.pseudoNames == old(t.pseudoNames)
  {
    t.isClosed := true;
    t.playerCount := |t.players|;
    ghost var numbers := AdjustPlayers(t);
    PaddedAreBots(BotName, old(t.players), old(t.pseudoNames), old(t.pseudoNames).Values,
                  t.players, t.pseudoNames, numbers);
  }

  /**
   * `close`: a closed tournament is left alone; otherwise it is closed,
   * `playerCount` becomes the number of entrants, bots pad the roster and
   * the bracket is generated from it. Every entrant is in the new bracket
   * exactly once.
   */
  method Close(t: Tournament)
    requires t.Valid()
    modifies t, t.tree
    ensures t.Valid() && t.tree == old(t.tree)
    ensures t.name == old(t.name) && t.owner == old(t.owner) && t.settings == old(t.settings)
    ensures old(t.isClosed) ==> unchanged(t) && t.tree.root == old(t.tree.root)
    ensures !old(t.isClosed) ==>
      t.isClosed && !t.isEnded && t.playerCount == old(|t.players|) &&
      t.players[..old(|t.players|)] == old(t.players) &&
      (forall i :: old(|t.players|) <= i < |t.players| ==> t.players[i].isBot) &&
      FreshBracket(t.tree.root.value) &&
      multiset(Leaves(t.tree.root.value)) == multiset(t.players)
    ensures !old(t.isClosed) && old(|t.players|) == MaxPlayers(t.settings) ==>
      t.players == old(t.players) && t.pseudoNames == old(t.pseudoNames)
  {
    if t.isClosed {
      return;
    }
    CloseRoster(t);
    ValidMaxIsPowerOfTwo(t.settings);
    var err := t.tree.Generate(t.players);
  }
}
