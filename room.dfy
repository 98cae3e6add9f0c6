/**
 * Match rooms: two player slots with their "left" flags, the spectators,
 * the launched/ended flags and the winner; the registry of live rooms;
 * matchmaking; and the per-tick liveness and score rule of the game loop.
 * A player's liveness (a bot, or a player whose socket is open) is the
 * field `connected` together with `isBot`.
 */
module Rooms {
  import opened Common
  import opened GameElements
  import opened GameMessages
  import MatchHistory

  /** Grace period, in milliseconds, for a player who stopped answering. */
  const DisconnectTimeout: int := 5000

  datatype RoomType = Matchmaking | FriendlyMatch | Tournament

  /** The row `saveMatchData` stores for a finished match; `winner` is "A", "B" or "draw". */
  datatype MatchRecord = MatchRecord(uuid: string, playerAUuid: string, playerBUuid: string,
                                     scoreA: real, scoreB: real, winner: string, mode: RoomType)

  class Player {
    const uuid: string
    const isBot: bool
    var username: string
    /** The player's socket exists and is open. */
    var connected: bool
    var room: Room?
    var spectatingRoom: Room?
    var paddleSkinId: string

    constructor(uuid: string, isBot: bool, username: string, connected: bool)
      ensures this.uuid == uuid && this.isBot == isBot && this.username == username
      ensures this.connected == connected && room == null && spectatingRoom == null && paddleSkinId == ""
    {
      this.uuid := uuid;
      this.isBot := isBot;
      this.username := username;
      this.connected := connected;
      room := null;
      spectatingRoom := null;
      paddleSkinId := "";
    }
  }

  /** `isPlayerAlive`: a player exists and is a bot or has an open socket. */
  predicate Alive(p: Player?)
    reads p
  {
    p != null && (p.isBot || p.connected)
  }

  /** The spectators whose uuid differs from `uuid`, in their order. */
  function Without(s: seq<Player>, uuid: string): (r: seq<Player>)
    ensures forall x :: x in r ==> x in s && x.uuid != uuid
    ensures forall x :: x in s && x.uuid != uuid ==> x in r
    ensures |r| <= |s|
  {
    if |s| == 0 then []
    else (if s[0].uuid != uuid then [s[0]] else []) + Without(s[1..], uuid)
  }

  /**
   * Removal works element by element, so the kept spectators stay in their
   * order: removing from a concatenation removes from each part.
   */
  lemma {:induction false} WithoutAppend(a: seq<Player>, b: seq<Player>, uuid: string)
    ensures Without(a + b, uuid) == Without(a, uuid) + Without(b, uuid)
    decreases |a|
  {
    if |a| > 0 {
      assert (a + b)[0] == a[0];
      assert (a + b)[1..] == a[1..] + b;
      WithoutAppend(a[1..], b, uuid);
    } else {
      assert a + b == b;
    }
  }

  /**
   * The winner slot of a finished game: the other slot when a slot forfeits
   * (`disconnected` is 1 or 2), otherwise none (-1) on equal scores and the
   * higher scorer else.
   */
  function WinnerOf(disconnected: int, p1Score: real, p2Score: real): (w: int)
    requires disconnected == -1 || disconnected == 1 || disconnected == 2
    ensures disconnected == 1 ==> w == 2
    ensures disconnected == 2 ==> w == 1
    ensures disconnected == -1 ==> (w == -1 <==> p1Score == p2Score)
    ensures disconnected == -1 ==> (w == 1 <==> p1Score > p2Score) && (w == 2 <==> p1Score < p2Score)
  {
    if disconnected != -1 then (if disconnected == 1 then 2 else 1)
    else if p1Score == p2Score then -1
    else if p1Score > p2Score then 1 else 2
  }

  /** The marker stored for a winner slot. */
  function Marker(winnerId: int): string
  {
    if winnerId == 1 then "A" else if winnerId == 2 then "B" else "draw"
  }

  /**
   * Read back from the match history, the stored marker gives player 1 a
   * win exactly when slot 1 won, player 2 a win exactly when slot 2 won,
   * and both a draw exactly when nobody won.
   */
  lemma MarkerReadsBack(rec: MatchRecord, winnerId: int, nameA: string, nameB: string, date: string)
    requires winnerId == -1 || winnerId == 1 || winnerId == 2
    requires rec.winner == Marker(winnerId) && rec.playerAUuid != rec.playerBUuid
    ensures var row := MatchHistory.HistoryRow(0, rec.uuid, nameA, nameB, rec.playerAUuid, rec.playerBUuid,
                                               rec.scoreA.Floor, rec.scoreB.Floor, rec.winner, "", date);
      (MatchHistory.Entry(row, rec.playerAUuid).result == "win" <==> winnerId == 1) &&
      (MatchHistory.Entry(row, rec.playerBUuid).result == "win" <==> winnerId == 2) &&
      (MatchHistory.Entry(row, rec.playerAUuid).result == "draw" <==> winnerId == -1) &&
      (MatchHistory.Entry(row, rec.playerBUuid).result == "draw" <==> winnerId == -1)
  {
  }

  // ------------------------------------------------------------ game loop tick

  /** One slot's liveness check: its new deadline, and whether it forfeits now. */
  datatype SlotCheck = SlotCheck(deadline: int, forfeits: bool)

  function CheckSlot(now: int, deadline: int, alive: bool, left: bool): (c: SlotCheck)
  {
    if !alive || left then
      var d := if deadline == 0 then now + DisconnectTimeout else deadline;
      SlotCheck(d, now > d || left)
    else SlotCheck(0, false)
  }

  /** What one tick of the game loop decides. */
  datatype TickOutcome =
    | Continue(deadline1: int, deadline2: int)
    | Forfeit(slot: PlayerIndex)
    | ScoreReached

  /**
   * One tick: slot 1's liveness is checked first, then slot 2's; if neither
   * forfeits, the game ends once either score (after this tick's ball
   * update) reaches `scoreToWin`.
   */
  function Tick(now: int, deadline1: int, deadline2: int, alive1: bool, left1: bool, alive2: bool, left2: bool,
                p1Score: real, p2Score: real, scoreToWin: real): TickOutcome
  {
    var c1 := CheckSlot(now, deadline1, alive1, left1);
    if c1.forfeits then Forfeit(1)
    else
      var c2 := CheckSlot(now, deadline2, alive2, left2);
      if c2.forfeits then Forfeit(2)
      else if p1Score >= scoreToWin || p2Score >= scoreToWin then ScoreReached
      else Continue(c1.deadline, c2.deadline)
  }

  /**
   * A slot's liveness: a present, live player clears the deadline and never
   * forfeits; a slot that has left forfeits at once; a dead slot seen for the
   * first time gets a deadline 5 seconds ahead and does not forfeit yet; a
   * dead slot with a deadline forfeits exactly when the deadline is passed.
   */
  lemma CheckSlotRules(now: int, deadline: int, alive: bool, left: bool)
    ensures alive && !left ==> CheckSlot(now, deadline, alive, left) == SlotCheck(0, false)
    ensures left ==> CheckSlot(now, deadline, alive, left).forfeits
    ensures !alive && !left && deadline == 0 ==>
      CheckSlot(now, deadline, alive, left) == SlotCheck(now + DisconnectTimeout, false)
    ensures !alive && !left && deadline != 0 ==>
      CheckSlot(now, deadline, alive, left) == SlotCheck(deadline, now > deadline)
  {
  }

  /**
   * A tick ends the game crediting slot 2 whenever slot 1 forfeits, whatever
   * slot 2 does; slot 2 forfeits only while slot 1 does not; and the score
   * rule applies only when nobody forfeits.
   */
  lemma TickOrder(now: int, deadline1: int, deadline2: int, alive1: bool, left1: bool, alive2: bool, left2: bool,
                  p1Score: real, p2Score: real, scoreToWin: real)
    ensures var t := Tick(now, deadline1, deadline2, alive1, left1, alive2, left2, p1Score, p2Score, scoreToWin);
      var c1 := CheckSlot(now, deadline1, alive1, left1);
      var c2 := CheckSlot(now, deadline2, alive2, left2);
      (t == Forfeit(1) <==> c1.forfeits) &&
      (t == Forfeit(2) <==> !c1.forfeits && c2.forfeits) &&
      (t == ScoreReached <==> !c1.forfeits && !c2.forfeits && (p1Score >= scoreToWin || p2Score >= scoreToWin)) &&
      (t.Continue? ==> t.deadline1 == c1.deadline && t.deadline2 == c2.deadline &&
                       p1Score < scoreToWin && p2Score < scoreToWin)
  {
  }

  /**
   * A player who drops and stays dead, with the other slot live and the
   * score below target, is given exactly the grace period: every tick up to
   * 5 seconds after the first missed tick continues, and the first tick
   * past it forfeits the slot.
   */
  lemma {:induction false} GracePeriod(times: seq<int>, t0: int, p1Score: real, p2Score: real, scoreToWin: real)
    requires |times| >= 1 && times[0] == t0 && t0 + DisconnectTimeout != 0
    requires forall i, j :: 0 <= i < j < |times| ==> times[i] < times[j]
    requires p1Score < scoreToWin && p2Score < scoreToWin
    ensures Run(times, 0, 0, p1Score, p2Score, scoreToWin) ==
      if times[|times| - 1] > t0 + DisconnectTimeout then Forfeit(1)
      else Continue(t0 + DisconnectTimeout, 0)
    decreases |times|
  {
    if |times| > 1 {
      var first := Tick(times[0], 0, 0, false, false, true, false, p1Score, p2Score, scoreToWin);
      assert first == Continue(t0 + DisconnectTimeout, 0);
      GraceRest(times[1..], t0 + DisconnectTimeout, p1Score, p2Score, scoreToWin);
    }
  }

  /** Ticks at `times` with slot 1 dead and slot 2 live, from deadlines d1 and d2, until one ends the game. */
  function Run(times: seq<int>, d1: int, d2: int, p1Score: real, p2Score: real, scoreToWin: real): TickOutcome
    requires |times| >= 1
    decreases |times|
  {
    var t := Tick(times[0], d1, d2, false, false, true, false, p1Score, p2Score, scoreToWin);
    if |times| == 1 || !t.Continue? then t
    else Run(times[1..], t.deadline1, t.deadline2, p1Score, p2Score, scoreToWin)
  }

  lemma {:induction false} GraceRest(times: seq<int>, d: int, p1Score: real, p2Score: real, scoreToWin: real)
    requires |times| >= 1 && d != 0
    requires forall i, j :: 0 <= i < j < |times| ==> times[i] < times[j]
    requires p1Score < scoreToWin && p2Score < scoreToWin
    ensures Run(times, d, 0, p1Score, p2Score, scoreToWin) ==
      if times[|times| - 1] > d then Forfeit(1) else Continue(d, 0)
    decreases |times|
  {
    var t := Tick(times[0], d, 0, false, false, true, false, p1Score, p2Score, scoreToWin);
    if times[0] > d {
      assert t == Forfeit(1);
      assert times[|times| - 1] >= times[0];
    } else {
      assert t == Continue(d, 0);
      if |times| > 1 {
        GraceRest(times[1..], d, p1Score, p2Score, scoreToWin);
      }
    }
  }

  // ---------------------------------------------------------------------- room

  class Room {
    const id: string
    const roomType: RoomType
    var player1: Player?
    var player2: Player?
    var player1Left: bool
    var player2Left: bool
    var spectators: seq<Player>
    var gameData: GameData
    var gameStats: GameStats
    /** -1 until a game ends, then the winner slot (-1 for a draw). */
    var winnerId: int
    var gameLaunched: bool
    var gameEnded: bool
    var scoreToWin: real
    /** Whether a game-ended callback is installed. */
    var hasEndedCallback: bool

    /**
     * What the room's operations keep true: the two seats never hold the
     * same uuid; nobody has left and nobody watches before the launch; an
     * ended game was launched; a running game has both seats filled.
     */
    ghost predicate Valid()
      reads this
    {
      (player1 != null && player2 != null ==> player1.uuid != player2.uuid) &&
      (winnerId == -1 || winnerId == 1 || winnerId == 2) &&
      (gameEnded ==> gameLaunched) &&
      (!gameLaunched ==> !player1Left && !player2Left && spectators == []) &&
      (gameLaunched && !gameEnded ==> player1 != null && player2 != null)
    }

    constructor(id: string, roomType: RoomType)
      ensures this.id == id && this.roomType == roomType && Valid()
      ensures player1 == null && player2 == null && !player1Left && !player2Left && spectators == []
      ensures gameData == NewGameData() && gameStats == NewGameStats() && winnerId == -1
      ensures !gameLaunched && !gameEnded && scoreToWin == DefaultScoreToWin && !hasEndedCallback
    {
      this.id := id;
      this.roomType := roomType;
      player1 := null;
      player2 := null;
      player1Left := false;
      player2Left := false;
      spectators := [];
      gameData := NewGameData();
      gameStats := NewGameStats();
      winnerId := -1;
      gameLaunched := false;
      gameEnded := false;
      scoreToWin := DefaultScoreToWin;
      hasEndedCallback := false;
    }

    predicate IsFull()
      reads this
    {
      player1 != null && player2 != null
    }

    predicate IsEmpty()
      reads this
    {
      player1 == null && player2 == null
    }

    /** A room takes players while it has a free seat and no game was launched or ended. */
    predicate IsJoinable()
      reads this
    {
      !IsFull() && !gameLaunched && !gameEnded
    }

    /** Seats are compared by uuid, not by object. */
    predicate ContainsPlayer(p: Player)
      reads this
    {
      (player1 != null && player1.uuid == p.uuid) || (player2 != null && player2.uuid == p.uuid)
    }

    /** The seat holding `p`'s uuid: 1, else 2, else -1. */
    function IndexOfPlayer(p: Player): (r: int)
      reads this
      ensures r == -1 <==> !ContainsPlayer(p)
      ensures r == 1 <==> player1 != null && player1.uuid == p.uuid
      ensures r == 2 <==> !(player1 != null && player1.uuid == p.uuid) && player2 != null && player2.uuid == p.uuid
    {
      if player1 != null && player1.uuid == p.uuid then 1
      else if player2 != null && player2.uuid == p.uuid then 2
      else -1
    }

    function GetPlayer(index: int): (p: Player?)
      reads this
      ensures index == 1 ==> p == player1
      ensures index == 2 ==> p == player2
      ensures index != 1 && index != 2 ==> p == null
    {
      if index == 1 then player1 else if index == 2 then player2 else null
    }

    /** The players seated in this room. */
    ghost function Seated(): set<Player>
      reads this
    {
      (if player1 != null then {player1} else {}) + (if player2 != null then {player2} else {})
    }

    /** `setPaddlePosition`: the position is taken verbatim for seat 1 or 2. */
    method SetPaddlePosition(index: int, pos: Vector2)
      modifies this`gameData
      ensures index == 1 ==> gameData == old(gameData).(paddle1Position := pos)
      ensures index == 2 ==> gameData == old(gameData).(paddle2Position := pos)
      ensures index != 1 && index != 2 ==> gameData == old(gameData)
    {
      if index == 1 {
        gameData := gameData.(paddle1Position := pos);
      } else if index == 2 {
        gameData := gameData.(paddle2Position := pos);
      }
    }

    method SetScoreToWin(score: real)
      modifies this`scoreToWin
      ensures scoreToWin == score
    {
      scoreToWin := score;
    }

    method SetGameEndedCallback()
      modifies this`hasEndedCallback
      ensures hasEndedCallback
    {
      hasEndedCallback := true;
    }

    /**
     * `addPlayer`: refuses a dead player, a room that is not joinable, a
     * uuid already seated, and a player whose room is another live game;
     * otherwise seats the player in the first free seat, clears that seat's
     * left flag, points the player here and stops its spectating.
     */
    method AddPlayer(player: Player) returns (ok: bool)
      modifies this`player1, this`player2, this`player1Left, this`player2Left
      modifies player`room, player`spectatingRoom
      modifies (if player.spectatingRoom != null then {player.spectatingRoom} else {})`spectators
      ensures ok <==> old(Alive(player) && IsJoinable() && !ContainsPlayer(player) &&
                          (player.room == null || player.room.gameEnded))
      ensures !ok ==> player1 == old(player1) && player2 == old(player2) &&
                      player1Left == old(player1Left) && player2Left == old(player2Left) &&
                      player.room == old(player.room) && player.spectatingRoom == old(player.spectatingRoom)
      ensures ok && old(player1) == null ==>
        player1 == player && !player1Left && player2 == old(player2) && player2Left == old(player2Left)
      ensures ok && old(player1) != null ==>
        player2 == player && !player2Left && player1 == old(player1) && player1Left == old(player1Left)
      ensures ok ==> player.room == this && player.spectatingRoom == null
      ensures ok && old(player.spectatingRoom) != null && old(player.spectatingRoom) != this ==>
        old(player.spectatingRoom).spectators == Without(old(player.spectatingRoom.spectators), player.uuid)
      ensures !ok || old(player.spectatingRoom) == null ==>
        old(player.spectatingRoom) == null || old(player.spectatingRoom).spectators == old(player.spectatingRoom.spectators)
      ensures old(Valid()) ==> spectators == old(spectators) && Valid()
    {
      if !Alive(player) {
        return false;
      }
      if !IsJoinable() {
        return false;
      }
      if ContainsPlayer(player) {
        return false;
      }
      if player.room != null && !player.room.gameEnded {
        return false;
      }
      if player1 == null {
        player1 := player;
        player1Left := false;
      } else {
        // a joinable room has a free seat
        player2 := player;
        player2Left := false;
      }
      player.room := this;
      if player.spectatingRoom != null {
        player.spectatingRoom.RemoveSpectator(player);
      }
      ok := true;
    }

    /**
     * `removePlayer`: nothing for a uuid not seated here; otherwise clears
     * the player's room if it is this one, and before the launch frees the
     * seat, after it only raises the seat's left flag.
     */
    method RemovePlayer(player: Player)
      modifies this`player1, this`player2, this`player1Left, this`player2Left, player`room
      ensures !old(ContainsPlayer(player)) ==>
        player1 == old(player1) && player2 == old(player2) && player1Left == old(player1Left) &&
        player2Left == old(player2Left) && player.room == old(player.room)
      ensures old(ContainsPlayer(player)) ==> player.room == if old(player.room) == this then null else old(player.room)
      ensures old(ContainsPlayer(player)) && gameLaunched ==>
        player1 == old(player1) && player2 == old(player2) &&
        (old(IndexOfPlayer(player)) == 1 ==> player1Left && player2Left == old(player2Left)) &&
        (old(IndexOfPlayer(player)) == 2 ==> player2Left && player1Left == old(player1Left))
      ensures old(ContainsPlayer(player)) && !gameLaunched ==>
        player1Left == old(player1Left) && player2Left == old(player2Left) &&
        (old(IndexOfPlayer(player)) == 1 ==> player1 == null && player2 == old(player2)) &&
        (old(IndexOfPlayer(player)) == 2 ==> player2 == null && player1 == old(player1))
      ensures old(Valid()) ==> Valid()
    {
      if !ContainsPlayer(player) {
        return;
      }
      if player.room == this {
        player.room := null;
      }
      if gameLaunched {
        if player1 != null && player1.uuid == player.uuid {
          player1Left := true;
        } else if player2 != null && player2.uuid == player.uuid {
          player2Left := true;
        }
        return;
      }
      if player1 != null && player1.uuid == player.uuid {
        player1 := null;
      } else if player2 != null && player2.uuid == player.uuid {
        player2 := null;
      }
    }

    /**
     * `addSpectator`: only a live, launched, unfinished game takes a
     * spectator, who must be alive, not seated here, not already watching
     * it, and neither seated nor watching anywhere.
     */
    method AddSpectator(player: Player) returns (ok: bool)
      modifies this`spectators, player`spectatingRoom
      ensures ok <==> old(Alive(player) && gameLaunched && !gameEnded && !ContainsPlayer(player) &&
                          player !in spectators && player.room == null && player.spectatingRoom == null)
      ensures ok ==> spectators == old(spectators) + [player] && player.spectatingRoom == this
      ensures !ok ==> spectators == old(spectators) && player.spectatingRoom == old(player.spectatingRoom)
      ensures old(Valid()) ==> Valid()
    {
      if !Alive(player) {
        return false;
      }
      if !gameLaunched || gameEnded {
        return false;
      }
      if ContainsPlayer(player) || player in spectators {
        return false;
      }
      if player.room != null || player.spectatingRoom != null {
        return false;
      }
      spectators := spectators + [player];
      player.spectatingRoom := this;
      ok := true;
    }

    /** `removeSpectator`: drops every spectator with that uuid; clears the back-reference only if it is this room. */
    method RemoveSpectator(player: Player)
      modifies this`spectators, player`spectatingRoom
      ensures spectators == Without(old(spectators), player.uuid)
      ensures player.spectatingRoom == if old(player.spectatingRoom) == this then null else old(player.spectatingRoom)
      ensures old(Valid()) ==> Valid()
    {
      if player.spectatingRoom == this {
        player.spectatingRoom := null;
      }
      spectators := Without(spectators, player.uuid);
    }

    /**
     * `clear`: empties both seats and the spectator list, clearing each
     * seated player's room and each spectator's spectated room only where
     * it still points here.
     */
    method Clear()
      modifies this`player1, this`player2, this`spectators, Seated()`room, (set s | s in spectators)`spectatingRoom
      ensures player1 == null && player2 == null && spectators == []
      ensures forall p :: p in old(Seated()) ==> p.room == if old(p.room) == this then null else old(p.room)
      ensures forall s :: s in old(spectators) ==>
        s.spectatingRoom == if old(s.spectatingRoom) == this then null else old(s.spectatingRoom)
      ensures old(Valid()) && (old(gameEnded) || !old(gameLaunched)) ==> Valid()
    {
      if player1 != null && player1.room == this {
        player1.room := null;
      }
      if player2 != null && player2.room == this {
        player2.room := null;
      }
      player1 := null;
      player2 := null;
      var watchers := spectators;
      var i := 0;
      while i < |watchers|
        invariant 0 <= i <= |watchers|
        invariant forall s :: s in watchers ==>
          s.spectatingRoom == if old(s.spectatingRoom) == this && s in watchers[..i] then null else old(s.spectatingRoom)
        modifies (set s | s in watchers)`spectatingRoom
      {
        var s := watchers[i];
        if s.spectatingRoom == this {
          s.spectatingRoom := null;
        }
        assert watchers[..i + 1] == watchers[..i] + [s];
        i := i + 1;
      }
      assert watchers[..i] == watchers;
      spectators := [];
    }

    /**
     * `dispose`: clears the room, drops the game-ended callback and removes
     * the room's id from the registry.
     */
    method Dispose(reg: RoomRegistry)
      modifies this`player1, this`player2, this`spectators, this`hasEndedCallback
      modifies Seated()`room, (set s | s in spectators)`spectatingRoom, reg`rooms, reg`order
      ensures player1 == null && player2 == null && spectators == [] && !hasEndedCallback
      ensures forall p :: p in old(Seated()) ==> p.room == if old(p.room) == this then null else old(p.room)
      ensures forall s :: s in old(spectators) ==>
        s.spectatingRoom == if old(s.spectatingRoom) == this then null else old(s.spectatingRoom)
      ensures reg.rooms == old(reg.rooms) - {id} && reg.order == RemoveKey(old(reg.order), id)
      ensures old(reg.Valid()) ==> reg.Valid()
      ensures old(Valid()) && (old(gameEnded) || !old(gameLaunched)) ==> Valid()
    {
      Clear();
      hasEndedCallback := false;
      reg.Delete(id);
    }

    /**
     * `startGame`: rejects, in this order, an ended game, a launched game, a
     * room with a free seat, a dead player 1 and a dead player 2; otherwise
     * launches the game with fresh game data, the ball served as `serve`,
     * and fresh statistics whose start time is `now`.
     */
    method StartGame(serve: Ball, now: int) returns (err: Option<string>)
      modifies this`gameLaunched, this`gameData, this`gameStats
      ensures old(gameEnded) ==> err == Some("Game already ended")
      ensures !old(gameEnded) && old(gameLaunched) ==> err == Some("Game already started")
      ensures !old(gameEnded) && !old(gameLaunched) && !old(IsFull()) ==> err == Some("Room is not full")
      ensures !old(gameEnded) && !old(gameLaunched) && old(IsFull()) && !old(Alive(player1)) ==>
        err == Some("Somehow the player 1 disconnected before the game start")
      ensures !old(gameEnded) && !old(gameLaunched) && old(IsFull()) && old(Alive(player1)) && !old(Alive(player2)) ==>
        err == Some("Somehow the player 2 disconnected before the game start")
      ensures err.None? <==> old(!gameEnded && !gameLaunched && IsFull() && Alive(player1) && Alive(player2))
      ensures err.Some? ==> gameLaunched == old(gameLaunched) && gameData == old(gameData) && gameStats == old(gameStats)
      ensures err.None? ==> gameLaunched && gameData == NewGameData().(ball := serve) &&
                            gameStats == NewGameStats().(gameStartTime := now as real)
      ensures old(Valid()) ==> Valid()
    {
      if gameEnded {
        return Some("Game already ended");
      }
      if gameLaunched {
        return Some("Game already started");
      }
      if !IsFull() {
        return Some("Room is not full");
      }
      if !Alive(player1) {
        return Some("Somehow the player 1 disconnected before the game start");
      }
      if !Alive(player2) {
        return Some("Somehow the player 2 disconnected before the game start");
      }
      gameLaunched := true;
      gameData := NewGameData().(ball := serve);
      gameStats := NewGameStats().(gameStartTime := now as real);
      err := None;
    }

    /**
     * `endGame` followed by `saveGameSessionData` and `dispose`: refuses a
     * game never launched; otherwise ends it at `now`, decides the winner
     * (the other seat on a forfeit, else a draw on equal scores, else the
     * higher scorer), produces the game result and the stored match row
     * under `matchUuid`, and disposes the room.
     */
    method EndGame(reg: RoomRegistry, disconnected: int, now: int, matchUuid: string)
      returns (err: Option<string>, result: Option<GameMessage>, record: Option<MatchRecord>)
      requires disconnected == -1 || disconnected == 1 || disconnected == 2
      requires Valid() && !gameEnded
      modifies this, Seated()`room, (set s | s in spectators)`spectatingRoom, reg`rooms, reg`order
      ensures !old(gameLaunched) ==>
        err == Some("Cannot end a game not launched") && result.None? && record.None? &&
        unchanged(this) && reg.rooms == old(reg.rooms) && reg.order == old(reg.order)
      ensures old(gameLaunched) ==> err.None? && gameEnded && gameData == old(gameData)
      ensures old(gameLaunched) ==> winnerId == WinnerOf(disconnected, old(gameData.p1Score), old(gameData.p2Score))
      ensures old(gameLaunched) ==>
        record == Some(MatchRecord(matchUuid, old(player1).uuid, old(player2).uuid,
                                   old(gameData.p1Score), old(gameData.p2Score), Marker(winnerId), roomType))
      ensures old(gameLaunched) ==>
        result == Some(GameResult(old(gameData.p1Score), old(gameData.p2Score),
                                  if winnerId == -1 then "" else if winnerId == 1 then old(player1).uuid else old(player2).uuid,
                                  if winnerId == -1 then "" else if winnerId == 1 then old(player1.username) else old(player2.username),
                                  old(gameStats).(gameEndTime := now as real)))
      ensures old(gameLaunched) ==> player1 == null && player2 == null && spectators == []
      ensures old(gameLaunched) ==> reg.rooms == old(reg.rooms) - {id} && reg.order == RemoveKey(old(reg.order), id)
      ensures old(gameLaunched) ==> forall p :: p in old(Seated()) ==> p.room == if old(p.room) == this then null else old(p.room)
      ensures old(gameLaunched) ==> forall s :: s in old(spectators) ==>
        s.spectatingRoom == if old(s.spectatingRoom) == this then null else old(s.spectatingRoom)
      ensures old(reg.Valid()) ==> reg.Valid()
      ensures Valid()
    {
      if !gameLaunched {
        return Some("Cannot end a game not launched"), None, None;
      }
      gameEnded := true;
      gameStats := gameStats.(gameEndTime := now as real);
      winnerId := WinnerOf(disconnected, gameData.p1Score, gameData.p2Score);
      var winner := GetPlayer(winnerId);
      result := Some(GameResult(gameData.p1Score, gameData.p2Score,
                                if winnerId == -1 then "" else winner.uuid,
                                if winnerId == -1 then "" else winner.username,
                                gameStats));
      record := Some(MatchRecord(matchUuid,
                                 if player1 != null then player1.uuid else "",
                                 if player2 != null then player2.uuid else "",
                                 gameData.p1Score, gameData.p2Score, Marker(winnerId), roomType));
      Dispose(reg);
      err := None;
    }

    /**
     * One tick of the running game loop. The liveness of both seats is
     * checked first; unless a seat forfeits, the game data becomes `moved`
     * (the state after the bots' paddle moves and the ball update), and the
     * game ends if either score reached `scoreToWin`. An ending tick ends
     * the game as `endGame` does, crediting the other seat on a forfeit.
     */
    method RunTick(reg: RoomRegistry, deadline1: int, deadline2: int, now: int, moved: GameData, matchUuid: string)
      returns (outcome: TickOutcome, result: Option<GameMessage>, record: Option<MatchRecord>)
      requires Valid() && gameLaunched && !gameEnded
      modifies this, Seated()`room, (set s | s in spectators)`spectatingRoom, reg`rooms, reg`order
      ensures outcome == Tick(now, deadline1, deadline2, old(Alive(player1)), old(player1Left),
                              old(Alive(player2)), old(player2Left), moved.p1Score, moved.p2Score, old(scoreToWin))
      ensures outcome.Continue? ==> !gameEnded && gameData == moved && player1 == old(player1) && player2 == old(player2)
      ensures outcome.Continue? ==> result.None? && record.None? && reg.rooms == old(reg.rooms)
      ensures outcome.Continue? ==>
        spectators == old(spectators) && player1Left == old(player1Left) && player2Left == old(player2Left) &&
        scoreToWin == old(scoreToWin) && gameStats == old(gameStats) && gameLaunched && reg.order == old(reg.order)
      ensures outcome.Continue? ==> forall p :: p in old(Seated()) ==> p.room == old(p.room)
      ensures outcome.Continue? ==> forall s :: s in old(spectators) ==> s.spectatingRoom == old(s.spectatingRoom)
      ensures outcome.Forfeit? ==> gameEnded && gameData == old(gameData) && winnerId == 3 - outcome.slot
      ensures outcome.ScoreReached? ==> gameEnded && gameData == moved && winnerId == WinnerOf(-1, moved.p1Score, moved.p2Score)
      ensures !outcome.Continue? ==> record.Some? && record.value.winner == Marker(winnerId) && result.Some?
      ensures !outcome.Continue? ==> reg.rooms == old(reg.rooms) - {id} && player1 == null && player2 == null
      ensures old(reg.Valid()) ==> reg.Valid()
      ensures Valid()
    {
      outcome := Tick(now, deadline1, deadline2, Alive(player1), player1Left, Alive(player2), player2Left,
                      moved.p1Score, moved.p2Score, scoreToWin);
      var err;
      if outcome.Forfeit? {
        err, result, record := EndGame(reg, outcome.slot, now, matchUuid);
        return;
      }
      gameData := moved;
      if outcome.ScoreReached? {
        err, result, record := EndGame(reg, -1, now, matchUuid);
      } else {
        result, record := None, None;
      }
    }
  }

  /**
   * `getPlayer` and `indexOfPlayer` are inverse in a valid room: the seat
   * `indexOfPlayer` finds for a seated player holds that player's uuid, and
   * the occupant of seat 1 or 2 is found at that seat (the seated uuids differ).
   */
  lemma SeatRoundTrip(room: Room, p: Player, i: int)
    requires room.Valid()
    ensures room.ContainsPlayer(p) ==>
      room.GetPlayer(room.IndexOfPlayer(p)) != null && room.GetPlayer(room.IndexOfPlayer(p)).uuid == p.uuid
    ensures !room.ContainsPlayer(p) ==> room.GetPlayer(room.IndexOfPlayer(p)) == null
    ensures room.GetPlayer(i) != null ==> room.IndexOfPlayer(room.GetPlayer(i)) == i
  {
  }

  // ------------------------------------------------------------------ registry

  function RoomId(n: nat): string
  {
    "room-" + Decimal(n)
  }

  lemma RoomIdInjective(a: nat, b: nat)
    ensures RoomId(a) == RoomId(b) ==> a == b
  {
    if RoomId(a) == RoomId(b) {
      assert Decimal(a) == RoomId(a)[5..];
      assert Decimal(b) == RoomId(b)[5..];
      DecimalInjective(a, b);
    }
  }

  /** Some id "room-n" with 1 <= n < counter. */
  ghost predicate IssuedBelow(k: string, counter: nat)
  {
    exists n: nat :: 1 <= n < counter && k == RoomId(n)
  }

  /** Deleting a key just added restores the map. */
  lemma AddThenDelete(m: map<string, Room>, k: string, r: Room)
    requires k !in m
    ensures m[k := r] - {k} == m
  {
  }

  /** `order` without `k`, the others in order (deleting a key of a JavaScript `Map`). */
  function RemoveKey(s: seq<string>, k: string): (r: seq<string>)
    ensures forall x :: x in r <==> x in s && x != k
    ensures Distinct(s) ==> Distinct(r)
  {
    if |s| == 0 then []
    else
      var rest := RemoveKey(s[1..], k);
      if s[0] == k then rest
      else
        assert s[0] !in s[1..] ==> s[0] !in rest;
        assert Distinct(s) ==> s[0] !in s[1..] by {
          forall j | 0 <= j < |s[1..]| ensures Distinct(s) ==> s[1..][j] != s[0] {
            assert s[1..][j] == s[j + 1];
          }
        }
        assert Distinct(s) ==> Distinct(s[1..]) by {
          if Distinct(s) {
            forall i, j | 0 <= i < j < |s[1..]| ensures s[1..][i] != s[1..][j] {
              assert s[1..][i] == s[i + 1] && s[1..][j] == s[j + 1];
            }
          }
        }
        [s[0]] + rest
  }

  /** Deleting a key keeps the order of the others: it removes from each part of a concatenation. */
  lemma {:induction false} RemoveKeyAppend(a: seq<string>, b: seq<string>, k: string)
    ensures RemoveKey(a + b, k) == RemoveKey(a, k) + RemoveKey(b, k)
    decreases |a|
  {
    if |a| > 0 {
      assert (a + b)[0] == a[0];
      assert (a + b)[1..] == a[1..] + b;
      RemoveKeyAppend(a[1..], b, k);
    } else {
      assert a + b == b;
    }
  }

  /** `rooms`: the live rooms by id, in creation order, and the counter that names the next one. */
  class RoomRegistry {
    var rooms: map<string, Room>
    var order: seq<string>
    var roomCounter: nat

    /** Every room is filed under its own id, an id already issued; `order` lists the ids once each. */
    ghost predicate Valid()
      reads this
    {
      roomCounter >= 1 &&
      (forall k :: k in rooms ==> rooms[k].id == k && IssuedBelow(k, roomCounter)) &&
      Distinct(order) && (forall k :: k in order <==> k in rooms)
    }

    constructor()
      ensures Valid() && rooms == map[] && order == [] && roomCounter == 1
    {
      rooms := map[];
      order := [];
      roomCounter := 1;
    }

    ghost function Rooms(): set<Room>
      reads this
    {
      rooms.Values
    }

    /** The players seated in some live room. */
    ghost function Occupants(): set<Player>
      reads this, rooms.Values
    {
      set r, p | r in rooms.Values && p in r.Seated() :: p
    }

    /** The players watching some live room. */
    ghost function Watchers(): set<Player>
      reads this, rooms.Values
    {
      set r, s | r in rooms.Values && s in r.spectators :: s
    }

    method Delete(id: string)
      modifies this`rooms, this`order
      ensures rooms == old(rooms) - {id} && order == RemoveKey(old(order), id)
      ensures old(Valid()) ==> Valid()
    {
      rooms := rooms - {id};
      order := RemoveKey(order, id);
    }

    /** `createNewRoom`: a new empty room under the next id "room-n", registered last. */
    method CreateNewRoom(roomType: RoomType) returns (room: Room)
      requires Valid()
      modifies this
      ensures Valid() && fresh(room) && room.Valid()
      ensures room.id == RoomId(old(roomCounter)) && room.id !in old(rooms) && roomCounter == old(roomCounter) + 1
      ensures rooms == old(rooms)[room.id := room] && order == old(order) + [room.id]
      ensures room.roomType == roomType && room.IsEmpty() && room.IsJoinable() && room.spectators == []
    {
      var id := RoomId(roomCounter);
      assert id !in rooms by {
        if id in rooms {
          var n: nat :| 1 <= n < roomCounter && id == RoomId(n);
          RoomIdInjective(n, roomCounter);
        }
      }
      room := new Room(id, roomType);
      roomCounter := roomCounter + 1;
      rooms := rooms[id := room];
      order := order + [id];
      assert IssuedBelow(id, roomCounter);
    }

    /**
     * `startGameIfRoomFull`: nothing for a room with a free seat; otherwise
     * starts the game, and disposes the room when the start is refused.
     */
    method StartGameIfRoomFull(room: Room, serve: Ball, now: int)
      modifies room, room.Seated()`room, (set s | s in room.spectators)`spectatingRoom, this`rooms, this`order
      ensures !old(room.IsFull()) ==> unchanged(room) && rooms == old(rooms) && order == old(order)
      ensures !old(room.IsFull()) || old(!room.gameEnded && !room.gameLaunched && Alive(room.player1) && Alive(room.player2)) ==>
        forall p :: p in old(room.Seated()) ==> p.room == old(p.room)
      ensures old(room.IsFull()) && old(!room.gameEnded && !room.gameLaunched && Alive(room.player1) && Alive(room.player2)) ==>
        room.gameLaunched && room.gameData == NewGameData().(ball := serve) &&
        room.player1 == old(room.player1) && room.player2 == old(room.player2) && rooms == old(rooms) && order == old(order)
      ensures old(room.IsFull()) && !old(!room.gameEnded && !room.gameLaunched && Alive(room.player1) && Alive(room.player2)) ==>
        room.IsEmpty() && rooms == old(rooms) - {room.id} && order == RemoveKey(old(order), room.id) &&
        forall p :: p in old(room.Seated()) ==> p.room == if old(p.room) == room then null else old(p.room)
      ensures old(Valid()) ==> Valid()
      ensures old(room.Valid()) && !old(room.gameLaunched) ==> room.Valid()
    {
      if room.IsFull() {
        var err := room.StartGame(serve, now);
        if err.Some? {
          room.Dispose(this);
        }
      }
    }

    /** The room `r` would take `player` in matchmaking. */
    ghost predicate Takes(r: Room, player: Player)
      reads r, player
    {
      r.roomType == RoomType.Matchmaking && r.IsJoinable() && !r.ContainsPlayer(player) && Alive(player)
    }

    /** The i-th room in creation order is the first that would take `player`. */
    ghost predicate FirstTaker(i: int, player: Player)
      reads this, rooms.Values, player
    {
      0 <= i < |order| && order[i] in rooms && Takes(rooms[order[i]], player) &&
      forall j :: 0 <= j < i && order[j] in rooms ==> !Takes(rooms[order[j]], player)
    }

    ghost predicate NoTaker(player: Player)
      reads this, rooms.Values, player
    {
      forall j :: 0 <= j < |order| && order[j] in rooms ==> !Takes(rooms[order[j]], player)
    }

    /**
     * The search loop of `addPlayerToMatchmaking`: offers `player` to each
     * matchmaking room in creation order until one accepts it. A refused
     * offer changes nothing, so the accepting room is the first that would
     * take the player.
     */
    method OfferToExisting(player: Player) returns (room: Room?, ghost index: int)
      requires Valid() && player.room == null && player.spectatingRoom == null
      modifies Rooms()`player1, Rooms()`player2, Rooms()`player1Left, Rooms()`player2Left
      modifies player`room, player`spectatingRoom
      ensures room == null ==> old(NoTaker(player)) && unchanged(Rooms()) && unchanged(player)
      ensures room != null ==> old(FirstTaker(index, player)) && room == old(rooms[order[index]])
      ensures room != null ==> player.room == room && player.spectatingRoom == null && player in room.Seated()
      ensures room != null ==> forall p :: p in room.Seated() ==> p == player || p in old(room.Seated())
      ensures room != null ==> forall r :: r in Rooms() && r != room ==> unchanged(r)
    {
      var i := 0;
      while i < |order|
        invariant 0 <= i <= |order|
        invariant unchanged(Rooms()) && unchanged(player)
        invariant forall j :: 0 <= j < i && order[j] in rooms ==> !Takes(rooms[order[j]], player)
      {
        var candidate := rooms[order[i]];
        if candidate.roomType == RoomType.Matchmaking && candidate.IsJoinable() {
          var ok := candidate.AddPlayer(player);
          if ok {
            assert old(FirstTaker(i, player));
            return candidate, i;
          }
        }
        i := i + 1;
      }
      room, index := null, 0;
    }

    /**
     * `addPlayerToMatchmaking`: nothing for a player already seated or
     * watching; otherwise the player goes to the first matchmaking room, in
     * creation order, that takes it, and that room's game starts if it is
     * now full; when no room takes it, a new matchmaking room is created and
     * the player offered to it. `chosen` is the room the player was offered to.
     */
    method AddPlayerToMatchmaking(player: Player, serve: Ball, now: int) returns (chosen: Room?)
      requires Valid()
      modifies this, Rooms(), player`room, player`spectatingRoom, Occupants()`room, Watchers()`spectatingRoom
      ensures Valid()
      ensures old(player.room != null || player.spectatingRoom != null) ==>
        chosen == null && rooms == old(rooms) && order == old(order) && roomCounter == old(roomCounter) &&
        player.room == old(player.room) && player.spectatingRoom == old(player.spectatingRoom)
      ensures old(player.room == null && player.spectatingRoom == null) && !old(NoTaker(player)) ==>
        chosen != null && (exists i :: old(FirstTaker(i, player)) && chosen == old(rooms[order[i]])) &&
        (player.room == chosen || (player.room == null && chosen.id !in rooms))
      ensures old(player.room == null && player.spectatingRoom == null) && old(NoTaker(player)) ==>
        chosen != null && fresh(chosen) && chosen.roomType == RoomType.Matchmaking &&
        rooms == old(rooms)[chosen.id := chosen] && order == old(order) + [chosen.id] &&
        (Alive(player) ==> chosen.player1 == player && player.room == chosen) &&
        (!Alive(player) ==> chosen.IsEmpty() && player.room == null)
    {
      if player.room != null || player.spectatingRoom != null {
        return null;
      }
      ghost var index;
      chosen, index := OfferToExisting(player);
      if chosen != null {
        assert chosen in old(rooms.Values);
        assert old(chosen.Seated()) <= old(Occupants());
        assert forall w :: w in chosen.spectators ==> w in old(Watchers());
        StartGameIfRoomFull(chosen, serve, now);
        assert old(FirstTaker(index, player)) && chosen == old(rooms[order[index]]);
        return;
      }
      chosen := CreateNewRoom(RoomType.Matchmaking);
      var ok := chosen.AddPlayer(player);
    }
  }
}
