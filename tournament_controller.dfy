/**
 * The HTTP projections of the tournament registry: the list of tournaments
 * as each requester sees it, and a tournament's bracket rewritten for the
 * frontend, where each match shows its winner's uuid and the two players
 * who reached it from the matches below, under their tournament aliases.
 */
module TournamentController {
  import opened Common
  import opened Bracket
  import opened TournamentSettings
  import opened Tournaments
  import opened TournamentManager

  /** A player as the frontend shows it. */
  datatype PlayerView = PlayerView(uuid: string, username: string, isBot: bool)

  /** A match as the frontend shows it. */
  datatype MatchView = MatchView(winnerUUID: string, player1: Option<PlayerView>, player2: Option<PlayerView>,
                                 left: Option<MatchView>, right: Option<MatchView>)

  /** One row of the tournament list. */
  datatype TournamentInfo = TournamentInfo(uuid: string, name: string, isOwner: bool, playerRegistered: int,
                                           maxPlayers: real, status: string, joined: bool)

  /** A reply: 200 with a body, or an error status with its message. */
  datatype Reply<T> = Ok(body: T) | Error(status: int, error: string)

  /** The displayed name: the tournament alias when the player has one, else the username. */
  function ConvertPlayer(p: PlayerInfo, pseudoNames: map<string, string>): (v: PlayerView)
    ensures v.uuid == p.uuid && v.isBot == p.isBot
    ensures p.uuid in pseudoNames ==> v.username == pseudoNames[p.uuid]
    ensures p.uuid !in pseudoNames ==> v.username == p.username
  {
    PlayerView(p.uuid, if p.uuid in pseudoNames then pseudoNames[p.uuid] else p.username, p.isBot)
  }

  /** The player who reached a match from the child `c`, if both exist. */
  function ChildPlayer(c: Option<MatchNode>, pseudoNames: map<string, string>): Option<PlayerView>
  {
    if c.Some? && c.value.player.Some? then Some(ConvertPlayer(c.value.player.value, pseudoNames)) else None
  }

  function Convert(n: MatchNode, pseudoNames: map<string, string>): (v: MatchView)
    ensures v.left.Some? <==> n.left.Some?
    ensures v.right.Some? <==> n.right.Some?
    decreases n
  {
    MatchView(
      if n.player.Some? then n.player.value.uuid else "",
      ChildPlayer(n.left, pseudoNames),
      ChildPlayer(n.right, pseudoNames),
      if n.left.Some? then Some(Convert(n.left.value, pseudoNames)) else None,
      if n.right.Some? then Some(Convert(n.right.value, pseudoNames)) else None)
  }

  /** `convertMatchNode`: no bracket gives no view. */
  function ConvertMatchNode(node: Option<MatchNode>, pseudoNames: map<string, string>): (r: Option<MatchView>)
    ensures r.None? <==> node.None?
  {
    if node.None? then None else Some(Convert(node.value, pseudoNames))
  }

  function ViewChild(v: MatchView, b: bool): Option<MatchView>
  {
    if b then v.right else v.left
  }

  /** The match view at path `p`, if there is one. */
  function ViewAt(v: MatchView, p: Path): Option<MatchView>
    decreases |p|
  {
    if |p| == 0 then Some(v)
    else
      var c := ViewChild(v, p[0]);
      if c.None? then None else ViewAt(c.value, p[1..])
  }

  /**
   * Conversion commutes with navigation: the view has a match exactly at
   * the paths where the bracket has one, and that match is the conversion
   * of the bracket's node there. The view has the bracket's shape.
   */
  lemma {:induction false} ConvertAt(t: MatchNode, p: Path, pseudoNames: map<string, string>)
    ensures At(t, p).Some? <==> ViewAt(Convert(t, pseudoNames), p).Some?
    ensures At(t, p).Some? ==> ViewAt(Convert(t, pseudoNames), p).value == Convert(At(t, p).value, pseudoNames)
    decreases |p|
  {
    if |p| > 0 {
      var c := Child(t, p[0]);
      if c.Some? {
        assert ViewChild(Convert(t, pseudoNames), p[0]) == Some(Convert(c.value, pseudoNames));
        ConvertAt(c.value, p[1..], pseudoNames);
      }
    }
  }

  /**
   * At every match of the bracket, the view shows the winner's uuid ("" while
   * undecided) and, as player1/player2, the converted players standing at the
   * left/right child, or nothing when that child or its player is absent.
   */
  lemma ConvertedMatch(t: MatchNode, p: Path, pseudoNames: map<string, string>)
    requires Has(t, p)
    ensures ViewAt(Convert(t, pseudoNames), p).Some?
    ensures var v := ViewAt(Convert(t, pseudoNames), p).value;
      (PlayerAt(t, p).Some? ==> v.winnerUUID == PlayerAt(t, p).value.uuid) &&
      (PlayerAt(t, p).None? ==> v.winnerUUID == "") &&
      (Has(t, p + [false]) && PlayerAt(t, p + [false]).Some? <==> v.player1.Some?) &&
      (v.player1.Some? ==> v.player1.value == ConvertPlayer(PlayerAt(t, p + [false]).value, pseudoNames)) &&
      (Has(t, p + [true]) && PlayerAt(t, p + [true]).Some? <==> v.player2.Some?) &&
      (v.player2.Some? ==> v.player2.value == ConvertPlayer(PlayerAt(t, p + [true]).value, pseudoNames))
  {
    ConvertAt(t, p, pseudoNames);
    AtAppend(t, p, false);
    AtAppend(t, p, true);
  }

  /**
   * In a valid tournament every entrant has an alias, so the bracket shows
   * each entrant under its alias and no two entrants under the same name.
   */
  lemma DisplayedNamesDistinct(t: Tournament)
    requires t.Valid()
    ensures forall i :: 0 <= i < |t.players| ==>
      ConvertPlayer(t.players[i], t.pseudoNames).username == t.pseudoNames[t.players[i].uuid]
    ensures forall i, j :: 0 <= i < j < |t.players| ==>
      ConvertPlayer(t.players[i], t.pseudoNames).username != ConvertPlayer(t.players[j], t.pseudoNames).username
  {
    forall i | 0 <= i < |t.players|
      ensures t.players[i].uuid in t.pseudoNames
    {
      assert t.players[i] in t.players;
    }
  }

  /** Whether some entrant carries `uuid` (`players.some(p => p.uuid === uuid)`). */
  function AnyWithUuid(ps: seq<PlayerInfo>, uuid: string): (r: bool)
    ensures r <==> uuid in UuidSet(ps)
  {
    if |ps| == 0 then false
    else
      assert UuidSet(ps) == {ps[0].uuid} + UuidSet(ps[1..]) by {
        assert forall q :: q in ps <==> q == ps[0] || q in ps[1..] by {
          assert ps == [ps[0]] + ps[1..];
        }
      }
      ps[0].uuid == uuid || AnyWithUuid(ps[1..], uuid)
  }

  function StatusText(isClosed: bool, isEnded: bool): string
  {
    if isEnded then "Ended" else if isClosed then "Ongoing" else "Pending"
  }

  /** One tournament as seen by the requester `requester`. */
  function Info(t: Tournament, requester: string): (r: TournamentInfo)
    reads t
    ensures r.uuid == t.uuid && r.name == t.name
    ensures r.playerRegistered == t.playerCount && r.maxPlayers == t.settings.maxPlayerCount
    ensures r.isOwner <==> t.owner.uuid == requester
    ensures r.joined <==> requester in UuidSet(t.players)
  {
    TournamentInfo(t.uuid, t.name, t.owner.uuid == requester, t.playerCount, t.settings.maxPlayerCount,
                   StatusText(t.isClosed, t.isEnded), AnyWithUuid(t.players, requester))
  }

  /**
   * The status of a valid tournament follows its bracket: "Pending" exactly
   * while no bracket exists, "Ended" exactly once the root has a champion who
   * is an entrant, "Ongoing" in between with a new bracket.
   */
  lemma StatusFollowsBracket(t: Tournament, requester: string)
    requires t.Valid()
    ensures var s := Info(t, requester).status;
      (s == "Pending" <==> t.tree.root.None?) &&
      (s == "Ended" ==> t.tree.root.Some? && t.tree.root.value.player.Some? &&
                         t.tree.root.value.player.value in t.players) &&
      (s == "Ongoing" ==> t.tree.root.Some? && FreshBracket(t.tree.root.value)) &&
      (s == "Pending" || s == "Ongoing" || s == "Ended")
  {
  }

  function InfoList(ts: seq<Tournament>, requester: string): (r: seq<TournamentInfo>)
    reads set t | t in ts
    ensures |r| == |ts| && forall i :: 0 <= i < |ts| ==> r[i] == Info(ts[i], requester)
  {
    if |ts| == 0 then [] else [Info(ts[0], requester)] + InfoList(ts[1..], requester)
  }

  /** `tournamentsController`: 401 without a requester, else every tournament in creation order. */
  function ListTournaments(reg: TournamentRegistry, requester: Option<string>): (r: Reply<seq<TournamentInfo>>)
    requires reg.Valid()
    reads reg, reg.tournaments.Values, reg.Trees()
    ensures requester.None? || requester.value == "" <==> r.Error?
    ensures r.Error? ==> r == Error(401, "Invalid Token")
    ensures r.Ok? ==> |r.body| == |reg.order|
    ensures r.Ok? ==> forall i :: 0 <= i < |r.body| ==> r.body[i] == Info(reg.tournaments[reg.order[i]], requester.value)
  {
    if requester.None? || requester.value == "" then Error(401, "Invalid Token")
    else
      var ts := reg.GetTournaments();
      Ok(InfoList(ts, requester.value))
  }

  /** `tournamentProgression`: 400 without a uuid, 404 for an unknown one, else the bracket view. */
  function Progression(reg: TournamentRegistry, uuid: Option<string>): (r: Reply<Option<MatchView>>)
    requires reg.Valid()
    reads reg, reg.tournaments.Values, reg.Trees()
    ensures uuid.None? || uuid.value == "" ==> r == Error(400, "UUID is required")
    ensures uuid.Some? && uuid.value != "" && uuid.value !in reg.tournaments ==>
      r == Error(404, "Tournament with UUID " + uuid.value + " not found.")
    ensures r.Ok? <==> uuid.Some? && uuid.value in reg.tournaments && uuid.value != ""
    ensures r.Ok? ==> var t := reg.tournaments[uuid.value];
      (r.body.None? <==> !t.isClosed) &&
      (r.body.Some? ==> forall p :: Has(t.tree.root.value, p) <==> ViewAt(r.body.value, p).Some?)
    ensures r.Ok? ==> var t := reg.tournaments[uuid.value];
      r.body == ConvertMatchNode(t.tree.root, t.pseudoNames)
  {
    if uuid.None? || uuid.value == "" then Error(400, "UUID is required")
    else
      var t := reg.GetTournament(uuid.value);
      if t.None? then Error(404, "Tournament with UUID " + uuid.value + " not found.")
      else
        var root := t.value.tree.root;
        var view := ConvertMatchNode(root, t.value.pseudoNames);
        assert view.Some? ==> forall p :: Has(root.value, p) <==> ViewAt(view.value, p).Some? by {
          if view.Some? {
            forall p ensures Has(root.value, p) <==> ViewAt(view.value, p).Some? {
              ConvertAt(root.value, p, t.value.pseudoNames);
            }
          }
        }
        Ok(view)
  }
}
