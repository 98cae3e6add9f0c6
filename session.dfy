/**
 * The websocket session layer: the live players by uuid, the players whose
 * socket closed recently (kept for 30 seconds so that a reconnection finds
 * its room again), and what each incoming message does to rooms and
 * players. Authentication is reduced to an `authenticated` flag with the
 * uuid and name the token resolved to; a socket is reduced to the player's
 * `connected` flag; the current time is a parameter.
 */
module Sessions {
  import opened Common
  import opened GameElements
  import opened Rooms
  import opened ErrorMsg

  /** The `errorType` tag of an error message. */
  datatype ErrorType =
    | ConnectionRefused
    | MatchmakingRefused
    | TournamentCreationFailed
    | TournamentJoinFailed
    | TournamentLeaveFailed
    | TournamentCloseFailed
    | SpectatingFailed

  /** An error message sent back to the sender. */
  datatype Refusal = Refusal(msg: string, errorType: ErrorType)

  /** How long a disconnected player is kept, in milliseconds. */
  const ReconnectWindow: int := 30 * 1000

  /** A closed session: when it closed and the player object it carried. */
  datatype Disconnected = Disconnected(time: int, player: Player)

  /** The player is still seated in the room it points to. */
  ghost predicate SeatedIn(p: Player)
    reads p, p.room
  {
    p.room != null && p.room.ContainsPlayer(p)
  }

  /** The two maps of the session layer. */
  class SessionRegistry {
    var players: map<string, Player>
    var recent: map<string, Disconnected>

    /**
     * Each player is filed under its own uuid, the empty uuid is never
     * filed, and no uuid is both live and recently disconnected.
     */
    ghost predicate Valid()
      reads this
    {
      (forall k :: k in players ==> players[k].uuid == k) &&
      (forall k :: k in recent ==> recent[k].player.uuid == k) &&
      "" !in players && "" !in recent &&
      (forall k :: k in players ==> k !in recent)
    }

    constructor()
      ensures Valid() && players == map[] && recent == map[]
    {
      players := map[];
      recent := map[];
    }

    /** The players of the recently disconnected sessions. */
    ghost function RecentPlayers(): set<Player>
      reads this
    {
      set k | k in recent :: recent[k].player
    }

    /** The rooms the recently disconnected players still point to. */
    ghost function RecentRooms(): set<Room>
      reads this, RecentPlayers()
    {
      set p | p in RecentPlayers() && p.room != null :: p.room
    }

    /** `getPlayerByUUID`: the live player with that uuid; none for the empty uuid. */
    function GetPlayerByUUID(uuid: string): (r: Option<Player>)
      reads this
      ensures r.Some? <==> uuid != "" && uuid in players
      ensures r.Some? ==> r.value == players[uuid]
    {
      if uuid != "" && uuid in players then Some(players[uuid]) else None
    }

    /** `updateUsername`: renames the live player with that uuid, if any. */
    method UpdateUsername(uuid: string, newUsername: string)
      modifies (if uuid in players then {players[uuid]} else {})`username
      ensures uuid in players ==> players[uuid].username == newUsername
    {
      if uuid in players {
        players[uuid].username := newUsername;
      }
    }

    /**
     * A new connection. It is refused when authentication failed or gave an
     * empty uuid or name, and then when the uuid already has a live
     * session; otherwise the player object of a recent disconnection is
     * reattached, keeping its name, rooms and skin, or else a fresh player
     * is made with no room and no skin; either way it becomes live.
     */
    method Connect(uuid: string, username: string, authenticated: bool)
      returns (player: Player?, err: Option<Refusal>)
      requires Valid()
      modifies this`players, this`recent, (if uuid in recent then {recent[uuid].player} else {})`connected
      ensures Valid()
      ensures !authenticated || uuid == "" || username == "" ==>
        err == Some(Refusal(TokenMissingOrInvalid, ConnectionRefused))
      ensures authenticated && uuid != "" && username != "" && uuid in old(players) ==>
        err == Some(Refusal(AlreadyConnected, ConnectionRefused))
      ensures err.None? <==> authenticated && uuid != "" && username != "" && uuid !in old(players)
      ensures err.Some? ==> player == null && players == old(players) && recent == old(recent)
      ensures err.None? ==> player != null && players == old(players)[uuid := player] && recent == old(recent) - {uuid}
      ensures err.None? ==> GetPlayerByUUID(uuid).Some? && GetPlayerByUUID(uuid).value == player && player.connected
      ensures err.None? && uuid in old(recent) ==>
        player == old(recent[uuid].player) && player.username == old(player.username) &&
        player.room == old(player.room) && player.spectatingRoom == old(player.spectatingRoom) &&
        player.paddleSkinId == old(player.paddleSkinId)
      ensures err.None? && uuid !in old(recent) ==>
        fresh(player) && player.uuid == uuid && player.username == username && !player.isBot &&
        player.room == null && player.spectatingRoom == null && player.paddleSkinId == ""
    {
      if !authenticated || uuid == "" || username == "" {
        return null, Some(Refusal(TokenMissingOrInvalid, ConnectionRefused));
      }
      if uuid in players {
        return null, Some(Refusal(AlreadyConnected, ConnectionRefused));
      }
      if uuid in recent {
        player := recent[uuid].player;
        recent := recent - {uuid};
        player.connected := true;
      } else {
        player := new Player(uuid, false, username, true);
      }
      players := players[uuid := player];
      err := None;
    }

    /**
     * A closed socket. The player is marked disconnected; if its room has
     * not launched it leaves that room and forgets it (a launched room keeps
     * it and notices the disconnection itself); it stops spectating; and
     * its session moves from the live map to the recent one, stamped `now`.
     */
    method Close(player: Player, now: int)
      requires Valid() && player.uuid in players && players[player.uuid] == player
      modifies this`players, this`recent, player`connected, player`room, player`spectatingRoom
      modifies (if player.room != null then {player.room} else {})`player1
      modifies (if player.room != null then {player.room} else {})`player2
      modifies (if player.room != null then {player.room} else {})`player1Left
      modifies (if player.room != null then {player.room} else {})`player2Left
      modifies (if player.spectatingRoom != null then {player.spectatingRoom} else {})`spectators
      ensures Valid()
      ensures !player.connected
      ensures players == old(players) - {player.uuid}
      ensures recent == old(recent)[player.uuid := Disconnected(now, player)]
      ensures old(player.room) != null && old(player.room.gameLaunched) ==> player.room == old(player.room)
      ensures old(player.room) != null && !old(player.room.gameLaunched) ==> player.room == null
      ensures old(player.room) != null && !old(player.room.gameLaunched) && old(player.room.Valid()) ==>
        !old(player.room).ContainsPlayer(player) && old(player.room).Valid()
      ensures old(player.spectatingRoom) != null ==>
        player.spectatingRoom == null &&
        old(player.spectatingRoom).spectators == Without(old(player.spectatingRoom.spectators), player.uuid)
      ensures old(player.spectatingRoom) == null ==> player.spectatingRoom == null
    {
      player.connected := false;
      if player.room != null {
        var room := player.room;
        if !room.gameLaunched {
          room.RemovePlayer(player);
          player.room := null;
        }
      }
      if player.spectatingRoom != null {
        player.spectatingRoom.RemoveSpectator(player);
      }
      players := players - {player.uuid};
      recent := recent[player.uuid := Disconnected(now, player)];
    }

    /**
     * One entry of the sweep: a session closed more than 30 seconds before
     * `now` is dropped, and its player removed from the room it still
     * points to; a younger one is kept untouched.
     */
    method Evict(uuid: string, now: int)
      requires Valid() && uuid in recent
      modifies this`recent, recent[uuid].player`room
      modifies (if recent[uuid].player.room != null then {recent[uuid].player.room} else {})
      ensures Valid() && players == old(players)
      ensures now - old(recent[uuid].time) > ReconnectWindow ==> recent == old(recent) - {uuid}
      ensures now - old(recent[uuid].time) > ReconnectWindow && old(recent[uuid].player.room) != null ==>
        var p, room := old(recent[uuid].player), old(recent[uuid].player.room);
        (old(room.ContainsPlayer(p)) ==> p.room == null) &&
        (!old(room.ContainsPlayer(p)) ==> p.room == room) &&
        (old(room.IndexOfPlayer(p)) == 1 && room.gameLaunched ==> room.player1Left && room.player1 == old(room.player1)) &&
        (old(room.IndexOfPlayer(p)) == 2 && room.gameLaunched ==> room.player2Left && room.player2 == old(room.player2)) &&
        (old(room.ContainsPlayer(p)) && !room.gameLaunched && old(room.Valid()) ==> !room.ContainsPlayer(p) && room.Valid())
      ensures now - old(recent[uuid].time) <= ReconnectWindow ==>
        recent == old(recent) && old(recent[uuid].player).room == old(recent[uuid].player.room)
      ensures forall j :: j in recent && j != uuid ==> recent[j].player.room == old(recent[j].player.room)
      ensures forall j :: j in recent && j != uuid ==> (SeatedIn(recent[j].player) <==> old(SeatedIn(recent[j].player)))
      ensures now - old(recent[uuid].time) > ReconnectWindow ==>
        old(recent[uuid].player).room == if old(SeatedIn(recent[uuid].player)) then null else old(recent[uuid].player.room)
    {
      var d := recent[uuid];
      if now - d.time > ReconnectWindow {
        if d.player.room != null {
          d.player.room.RemovePlayer(d.player);
        }
        recent := recent - {uuid};
      }
    }

    /**
     * The sweep that runs every second: exactly the sessions closed more
     * than 30 seconds before `now` are dropped (each as `Evict` does), the
     * younger ones stay with their players still pointing at the same rooms,
     * and the live map is not touched.
     */
    method Sweep(now: int)
      requires Valid()
      modifies this`recent, RecentPlayers()`room, RecentRooms()
      ensures Valid() && players == old(players)
      ensures recent == map k | k in old(recent) && now - old(recent)[k].time <= ReconnectWindow :: old(recent)[k]
      ensures forall k :: k in recent ==> recent[k].player.room == old(recent[k].player.room)
    {
      var pending := recent.Keys;
      while pending != {}
        invariant Valid() && players == old(players)
        invariant pending <= recent.Keys <= old(recent).Keys
        invariant forall k :: k in recent ==> recent[k] == old(recent)[k]
        invariant forall k :: k in recent ==> recent[k].player.room == old(recent[k].player.room)
        invariant forall k :: k in old(recent) && k !in pending ==>
          (k in recent <==> now - old(recent)[k].time <= ReconnectWindow)
        decreases pending
      {
        var k :| k in pending;
        assert recent[k].player in old(RecentPlayers());
        assert recent[k].player.room != null ==> recent[k].player.room in old(RecentRooms());
        Evict(k, now);
        pending := pending - {k};
      }
    }

    // --------------------------------------------------------- message routing

    /** The live player with that uuid, as a set of at most one. */
    ghost function Live(uuid: string): set<Player>
      reads this
    {
      if uuid != "" && uuid in players then {players[uuid]} else {}
    }

    /**
     * The two seat offers of readyToPlay on a new room: both players end up
     * seated, in that order, exactly when both are alive and distinct.
     */
    method SeatBoth(room: Room, player: Player, opponent: Player)
      requires room.Valid() && room.IsEmpty() && room.IsJoinable() && player.room == null && opponent.room == null
      requires player.spectatingRoom != room && opponent.spectatingRoom != room
      modifies room`player1, room`player2, room`player1Left, room`player2Left
      modifies {player, opponent}`room, {player, opponent}`spectatingRoom
      modifies (if player.spectatingRoom != null then {player.spectatingRoom} else {})`spectators
      modifies (if opponent.spectatingRoom != null then {opponent.spectatingRoom} else {})`spectators
      ensures room.Valid() && !room.gameLaunched && !room.gameEnded && room.spectators == old(room.spectators)
      ensures room.IsFull() <==> old(Alive(player) && Alive(opponent)) && player.uuid != opponent.uuid
      ensures room.IsFull() ==> room.player1 == player && room.player2 == opponent
      ensures room.Seated() <= {player, opponent}
      ensures player.room == null || (player.room == room && player in room.Seated())
      ensures opponent.room == null || (opponent.room == room && opponent in room.Seated())
      ensures room.IsFull() ==> player.room == room && opponent.room == room
    {
      var seated1 := room.AddPlayer(player);
      var seated2 := room.AddPlayer(opponent);
    }

    /** `startGame` on a seated room, disposing the room when the start is refused. */
    method StartOrDispose(reg: RoomRegistry, room: Room, serve: Ball, now: int) returns (started: bool)
      requires reg.Valid() && room.Valid() && !room.gameLaunched && room.spectators == []
      modifies room, room.Seated()`room, reg`rooms, reg`order
      ensures reg.Valid()
      ensures started <==> old(room.IsFull() && Alive(room.player1) && Alive(room.player2))
      ensures started ==>
        room.gameLaunched && room.player1 == old(room.player1) && room.player2 == old(room.player2) &&
        room.gameData == NewGameData().(ball := serve) && reg.rooms == old(reg.rooms) &&
        forall p :: p in old(room.Seated()) ==> p.room == old(p.room)
      ensures !started ==>
        room.IsEmpty() && !room.gameLaunched && reg.rooms == old(reg.rooms) - {room.id} &&
        forall p :: p in old(room.Seated()) ==> p.room == if old(p.room) == room then null else old(p.room)
    {
      var err := room.StartGame(serve, now);
      started := err.None?;
      if !started {
        room.Dispose(reg);
      }
    }

    /** The two seat offers on a new empty room, then the start or the disposal. */
    method SeatAndStart(reg: RoomRegistry, room: Room, player: Player, opponent: Player, serve: Ball, now: int)
      returns (started: bool)
      requires reg.Valid() && room.Valid() && room.IsEmpty() && room.IsJoinable() && room.spectators == []
      requires !room.gameLaunched && player.room == null && opponent.room == null
      requires player.spectatingRoom != room && opponent.spectatingRoom != room
      modifies room, reg`rooms, reg`order, {player, opponent}`room, {player, opponent}`spectatingRoom
      modifies (if player.spectatingRoom != null then {player.spectatingRoom} else {})`spectators
      modifies (if opponent.spectatingRoom != null then {opponent.spectatingRoom} else {})`spectators
      ensures reg.Valid()
      ensures started <==> old(Alive(player) && Alive(opponent)) && player.uuid != opponent.uuid
      ensures started ==>
        room.gameLaunched && room.player1 == player && room.player2 == opponent &&
        player.room == room && opponent.room == room &&
        room.gameData == NewGameData().(ball := serve) && reg.rooms == old(reg.rooms)
      ensures !started ==>
        room.IsEmpty() && !room.gameLaunched && player.room == null && opponent.room == null &&
        reg.rooms == old(reg.rooms) - {room.id}
    {
      ghost var both := Alive(player) && Alive(opponent) && player.uuid != opponent.uuid;
      SeatBoth(room, player, opponent);
      assert room.IsFull() <==> both;
      assert room.IsFull() ==> Alive(room.player1) && Alive(room.player2);
      ghost var seated := room.Seated();
      assert seated <= {player, opponent};
      assert player !in seated ==> player.room == null;
      assert opponent !in seated ==> opponent.room == null;
      started := StartOrDispose(reg, room, serve, now);
      assert started <==> both;
    }

    /**
     * The friendly match of readyToPlay: a new friendly-match room, both
     * players offered a seat, then the start; the game starts exactly when
     * both are alive and distinct, and a refused start disposes the room.
     */
    method StartFriendlyMatch(reg: RoomRegistry, player: Player, opponent: Player, serve: Ball, now: int)
      returns (room: Room)
      requires reg.Valid() && player.room == null && opponent.room == null
      modifies reg, {player, opponent}`room, {player, opponent}`spectatingRoom
      modifies (if player.spectatingRoom != null then {player.spectatingRoom} else {})`spectators
      modifies (if opponent.spectatingRoom != null then {opponent.spectatingRoom} else {})`spectators
      ensures reg.Valid() && fresh(room) && room.roomType == RoomType.FriendlyMatch
      ensures room.id == RoomId(old(reg.roomCounter)) && room.id !in old(reg.rooms)
      ensures old(Alive(player) && Alive(opponent)) && player.uuid != opponent.uuid ==>
        room.gameLaunched && room.player1 == player && room.player2 == opponent &&
        player.room == room && opponent.room == room &&
        room.gameData == NewGameData().(ball := serve) && reg.rooms == old(reg.rooms)[room.id := room]
      ensures !(old(Alive(player) && Alive(opponent)) && player.uuid != opponent.uuid) ==>
        room.IsEmpty() && !room.gameLaunched && player.room == null && opponent.room == null &&
        reg.rooms == old(reg.rooms)
    {
      ghost var rooms0 := reg.rooms;
      room := reg.CreateNewRoom(RoomType.FriendlyMatch);
      assert Alive(player) && Alive(opponent) <==> old(Alive(player) && Alive(opponent));
      var started := SeatAndStart(reg, room, player, opponent, serve, now);
      if !started {
        AddThenDelete(rooms0, room.id, room);
      }
    }

    /**
     * readyToPlay: nothing when the opponent is not live or either player
     * already has a room; otherwise the friendly match above. `room` is the
     * room created, if any.
     */
    method ReadyToPlay(reg: RoomRegistry, player: Player, opponentUuid: string, serve: Ball, now: int)
      returns (room: Room?)
      requires Valid() && reg.Valid()
      modifies reg, ({player} + Live(opponentUuid))`room, ({player} + Live(opponentUuid))`spectatingRoom
      modifies (if player.spectatingRoom != null then {player.spectatingRoom} else {})`spectators
      modifies (set p | p in Live(opponentUuid) && p.spectatingRoom != null :: p.spectatingRoom)`spectators
      ensures reg.Valid()
      ensures GetPlayerByUUID(opponentUuid).None? ==>
        room == null && unchanged(reg) && player.room == old(player.room)
      ensures GetPlayerByUUID(opponentUuid).Some? && old(player.room != null || players[opponentUuid].room != null) ==>
        room == null && unchanged(reg) && player.room == old(player.room)
      ensures GetPlayerByUUID(opponentUuid).Some? && old(player.room == null && players[opponentUuid].room == null) ==>
        room != null && fresh(room) && room.roomType == RoomType.FriendlyMatch && room.id !in old(reg.rooms) &&
        (player.room == room <==> room.gameLaunched) &&
        (room.gameLaunched <==> old(Alive(player) && Alive(players[opponentUuid])) && player.uuid != opponentUuid) &&
        (room.gameLaunched ==> reg.rooms == old(reg.rooms)[room.id := room]) &&
        (!room.gameLaunched ==> reg.rooms == old(reg.rooms))
    {
      var found := GetPlayerByUUID(opponentUuid);
      if found.None? {
        return null;
      }
      var opponent := found.value;
      if player.room != null || opponent.room != null {
        return null;
      }
      room := StartFriendlyMatch(reg, player, opponent, serve, now);
    }

    /** leaveGame: the sender leaves the room it holds and the room it watches. */
    method LeaveGame(player: Player)
      modifies (if player.room != null then {player.room} else {})`player1
      modifies (if player.room != null then {player.room} else {})`player2
      modifies (if player.room != null then {player.room} else {})`player1Left
      modifies (if player.room != null then {player.room} else {})`player2Left
      modifies player`room, player`spectatingRoom
      modifies (if player.spectatingRoom != null then {player.spectatingRoom} else {})`spectators
      ensures old(player.room) != null ==>
        var room := old(player.room);
        player.room == (if old(room.ContainsPlayer(player)) then null else room) &&
        (old(room.IndexOfPlayer(player)) == 1 && room.gameLaunched ==> room.player1Left && room.player1 == old(room.player1)) &&
        (old(room.IndexOfPlayer(player)) == 2 && room.gameLaunched ==> room.player2Left && room.player2 == old(room.player2)) &&
        (!room.gameLaunched && old(room.Valid()) ==> !room.ContainsPlayer(player) && room.Valid())
      ensures old(player.spectatingRoom) != null ==>
        player.spectatingRoom == null &&
        old(player.spectatingRoom).spectators == Without(old(player.spectatingRoom.spectators), player.uuid)
      ensures old(player.room) == null ==> player.room == null
      ensures old(player.spectatingRoom) == null ==> player.spectatingRoom == null
    {
      if player.room != null {
        player.room.RemovePlayer(player);
      }
      if player.spectatingRoom != null {
        player.spectatingRoom.RemoveSpectator(player);
      }
    }

    /**
     * matchmaking: refused with "Already inside a room" while the sender
     * holds or watches a room; otherwise handed to `addPlayerToMatchmaking`,
     * which offers the sender to the first matchmaking room, in creation
     * order, that takes it, or else to a new one (`chosen`).
     */
    method RequestMatchmaking(reg: RoomRegistry, player: Player, serve: Ball, now: int)
      returns (err: Option<Refusal>, chosen: Room?)
      requires reg.Valid()
      modifies reg, reg.Rooms(), player`room, player`spectatingRoom, reg.Occupants()`room, reg.Watchers()`spectatingRoom
      ensures reg.Valid()
      ensures err.Some? <==> old(player.room != null || player.spectatingRoom != null)
      ensures err.Some? ==>
        (err == Some(Refusal(AlreadyInRoom, MatchmakingRefused)) && chosen == null &&
         unchanged(reg) && player.room == old(player.room) && player.spectatingRoom == old(player.spectatingRoom))
      ensures err.None? ==>
        (chosen != null && chosen.roomType == RoomType.Matchmaking &&
         (fresh(chosen) || chosen in old(reg.rooms.Values)) &&
         (player.room == chosen || player.room == null))
      ensures err.None? && !old(reg.NoTaker(player)) ==>
        (exists i :: old(reg.FirstTaker(i, player)) && chosen == old(reg.rooms[reg.order[i]])) &&
        (player.room == chosen || (player.room == null && chosen.id !in reg.rooms))
      ensures err.None? && old(reg.NoTaker(player)) ==>
        fresh(chosen) && reg.rooms == old(reg.rooms)[chosen.id := chosen] && reg.order == old(reg.order) + [chosen.id] &&
        (Alive(player) ==> chosen.player1 == player && player.room == chosen) &&
        (!Alive(player) ==> chosen.IsEmpty() && player.room == null)
    {
      if player.room != null || player.spectatingRoom != null {
        return Some(Refusal(AlreadyInRoom, MatchmakingRefused)), null;
      }
      chosen := reg.AddPlayerToMatchmaking(player, serve, now);
      err := None;
    }

    /** skinId: the sender's paddle skin becomes `skinId`. */
    method ChangeSkin(player: Player, skinId: string)
      modifies player`paddleSkinId
      ensures player.paddleSkinId == skinId
    {
      player.paddleSkinId := skinId;
    }

    /**
     * paddlePosition: applied verbatim to the sender's paddle when the
     * sender holds a seat in its room, ignored otherwise.
     */
    method MovePaddle(player: Player, position: Vector2)
      modifies (if player.room != null then {player.room} else {})`gameData
      ensures player.room != null && player.room.IndexOfPlayer(player) == 1 ==>
        player.room.gameData == old(player.room.gameData).(paddle1Position := position)
      ensures player.room != null && player.room.IndexOfPlayer(player) == 2 ==>
        player.room.gameData == old(player.room.gameData).(paddle2Position := position)
      ensures player.room != null && !player.room.ContainsPlayer(player) ==>
        player.room.gameData == old(player.room.gameData)
    {
      if player.room != null {
        var index := player.room.IndexOfPlayer(player);
        if index != -1 {
          player.room.SetPaddlePosition(index, position);
        }
      }
    }

    /**
     * spectate: fails with "No player has been found" for a target that is
     * not live, then with "The player is not in a game" for a target without
     * a room, then with "Something is preventing from spectating" when that
     * room refuses the sender as a spectator; otherwise the sender watches
     * the target's room.
     */
    method Spectate(player: Player, target: string) returns (err: Option<Refusal>)
      modifies (if target in players && players[target].room != null then {players[target].room} else {})`spectators
      modifies player`spectatingRoom
      ensures target !in players ==> err == Some(Refusal(NoPlayerFound, SpectatingFailed))
      ensures target in players && players[target].room == null ==> err == Some(Refusal(PlayerIsNotInGame, SpectatingFailed))
      ensures target in players && players[target].room != null ==>
        var room := players[target].room;
        var admitted := old(Alive(player) && room.gameLaunched && !room.gameEnded && !room.ContainsPlayer(player) &&
                            player !in room.spectators && player.room == null && player.spectatingRoom == null);
        (admitted ==> (err.None? && room.spectators == old(room.spectators) + [player] && player.spectatingRoom == room)) &&
        (!admitted ==> (err == Some(Refusal(CannotSpectate, SpectatingFailed)) && room.spectators == old(room.spectators)))
      ensures err.Some? ==> player.spectatingRoom == old(player.spectatingRoom)
    {
      if target !in players {
        return Some(Refusal(NoPlayerFound, SpectatingFailed));
      }
      var room := players[target].room;
      if room == null {
        return Some(Refusal(PlayerIsNotInGame, SpectatingFailed));
      }
      var ok := room.AddSpectator(player);
      if !ok {
        return Some(Refusal(CannotSpectate, SpectatingFailed));
      }
      err := None;
    }
  }
}
