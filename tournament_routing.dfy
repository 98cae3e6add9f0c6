/**
 * The "tournament" channel of an open session: each request is carried out
 * on the tournament registry on behalf of the sender, and a refusal comes
 * back as an error message tagged with the kind of request that failed.
 */
module TournamentRouting {
  import opened Common
  import opened Bracket
  import opened TournamentSettings
  import opened Tournaments
  import opened TournamentManager
  import TournamentMessages
  import Rooms
  import Sessions
  import opened ErrorMsg

  /** The sender as the tournament registry records it. */
  function InfoOf(p: Rooms.Player): (r: PlayerInfo)
    reads p
    ensures r.uuid == p.uuid && r.isBot == p.isBot && r.username == p.username
  {
    PlayerInfo(p.uuid, p.isBot, p.username)
  }

  /** A registry error, if any, as the error message of that kind of request. */
  function Tagged(e: Option<string>, kind: Sessions.ErrorType): (r: Option<Sessions.Refusal>)
    ensures r.None? <==> e.None?
    ensures r.Some? ==> r.value.msg == e.value && r.value.errorType == kind
  {
    if e.Some? then Some(Sessions.Refusal(e.value, kind)) else None
  }

  /**
   * The tournament branch of the message handler: create, join (under the
   * requested alias), leave and close go to the registry operation of the
   * same name; a refusal is returned tagged with the failing request's
   * kind; launchMatch has no handler and changes nothing.
   */
  method HandleTournamentMessage(treg: TournamentRegistry, player: Rooms.Player,
                                 msg: TournamentMessages.TournamentMessage)
    returns (err: Option<Sessions.Refusal>)
    requires treg.Valid()
    modifies treg, treg.tournaments.Values, treg.Trees()
    ensures treg.Valid()
    ensures msg.Create? ==>
      (err.None? <==> !IsBlank(msg.name) && ValidSettings(msg.settings) && !old(treg.OwnsOpenTournament(InfoOf(player))))
    ensures msg.Create? && IsBlank(msg.name) ==>
      err == Some(Sessions.Refusal(InvalidTournamentName, Sessions.TournamentCreationFailed))
    ensures msg.Create? && !IsBlank(msg.name) && !ValidSettings(msg.settings) ==>
      err == Some(Sessions.Refusal(InvalidTournamentSettings, Sessions.TournamentCreationFailed))
    ensures msg.Create? && err.Some? ==>
      err.value.errorType == Sessions.TournamentCreationFailed && treg.tournaments == old(treg.tournaments)
    ensures msg.Create? && err.None? ==>
      exists k :: k !in old(treg.tournaments) && treg.tournaments.Keys == old(treg.tournaments).Keys + {k} &&
        treg.tournaments[k].owner == InfoOf(player) && treg.tournaments[k].name == msg.name &&
        treg.tournaments[k].settings == msg.settings
    ensures !msg.Create? ==> treg.tournaments == old(treg.tournaments)
    ensures (msg.Join? || msg.Leave? || msg.Close?) && msg.uuid !in treg.tournaments ==>
      err.Some? && err.value.msg == TournamentNotFound
    ensures msg.Join? && msg.uuid in treg.tournaments ==>
      exists e :: err == Tagged(e, Sessions.TournamentJoinFailed) &&
        Joined(old(RosterOf(treg.tournaments[msg.uuid])), RosterOf(treg.tournaments[msg.uuid]),
               InfoOf(player), Some(msg.username), e)
    ensures msg.Leave? && msg.uuid in treg.tournaments ==>
      exists e :: err == Tagged(e, Sessions.TournamentLeaveFailed) &&
        Left(old(RosterOf(treg.tournaments[msg.uuid])), RosterOf(treg.tournaments[msg.uuid]), InfoOf(player), e)
    ensures msg.Close? && msg.uuid in treg.tournaments ==>
      exists e :: err == Tagged(e, Sessions.TournamentCloseFailed) &&
        ClosedBy(old(RosterOf(treg.tournaments[msg.uuid])), RosterOf(treg.tournaments[msg.uuid]), InfoOf(player), e)
    ensures msg.LaunchMatch? ==> err.None? && treg.order == old(treg.order)
  {
    var info := InfoOf(player);
    match msg {
      case Create(name, settings) =>
        var t, e := treg.CreateNewTournament(name, info, EncodeSettings(settings));
        err := Tagged(e, Sessions.TournamentCreationFailed);
        if e.None? {
          assert treg.tournaments.Keys == old(treg.tournaments).Keys + {t.uuid};
        }
      case Join(uuid, username) =>
        var e := treg.AddPlayerToTournament(uuid, info, Some(username));
        err := Tagged(e, Sessions.TournamentJoinFailed);
        assert err == Tagged(e, Sessions.TournamentJoinFailed);
      case Leave(uuid) =>
        var e := treg.RemovePlayerFromTournament(uuid, info);
        err := Tagged(e, Sessions.TournamentLeaveFailed);
        assert err == Tagged(e, Sessions.TournamentLeaveFailed);
      case Close(uuid) =>
        var e := treg.CloseTournament(uuid, info);
        err := Tagged(e, Sessions.TournamentCloseFailed);
        assert err == Tagged(e, Sessions.TournamentCloseFailed);
      case LaunchMatch =>
        err := None;
    }
  }
}
