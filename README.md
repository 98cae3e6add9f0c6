# Transcendence match and tournament core, in Dafny

This project models the server core of an online Pong game, along with the small client-side helpers around it.

- **Match rooms.** A room has two seats, each with a "left" flag, plus spectators, a launched/ended life cycle, the liveness step of the 60 Hz game loop, the end-of-game winner rule and the stored match marker. A registry lists the rooms in creation order, and matchmaking places a player in the first room that takes them.
- **Session layer.** The live players are kept by uuid. Players whose socket closed stay for 30 seconds so they can reconnect, and a sweep evicts the older ones. The model also covers what each incoming game message does to rooms and players.
- **Tournaments.** The registry covers create, join, leave and close, with their error codes checked in the source's order. Bots are padded in as "Bot n". The elimination bracket covers generation, the breadth-first first round, parents, the next round, recording a match's winner, the per-match resolution rules and the whole play-through.
- **Replays.** The model records de-duplicated samples into insertion-ordered maps and looks up the latest sample at or before a time.
- **Projections and validators.** The match history is seen from one player's side. The bracket and tournament list are shown as the frontend gets them. The model includes the paddle input step and every wire-message validator over a small JSON datatype, with one tagged union per channel.
- **Client helpers.** These are the loading tracker, the websocket callback registry, the hidden chat-room list, and the replay player's time format, time argument, speed and progress.

Some parts of the source update things in place: rooms, registries, tournaments and the client helpers. These are Dafny classes whose methods state the whole new state. Pure code, such as the bracket shape, the validators and the projections, is modelled as datatypes and functions, with lemmas relating them.

In the table below:
- Time is always a `now` parameter.
- Randomness (the shuffle of human entrants, coin flips, fresh uuids) is either a parameter or a choice the proof must cover for every value.
- A socket is reduced to a player's `connected` flag.

## Model

| member | source | states |
|---|---|---|
| Rooms.Player.constructor | backend/app/src/types/player.ts:4-12 | a new player has the given uuid, bot flag and name, no room, no spectated room and an empty skin |
| Rooms.Without | backend/app/src/match/room.ts:310-316 | the spectators left after removing a uuid are exactly those of another uuid |
| Rooms.WithoutAppend | backend/app/src/match/room.ts:310-316 | removal works piecewise over a concatenation, so the spectators kept stay in their original order |
| Rooms.WinnerOf | backend/app/src/match/room.ts:656-679 | a forfeit by one seat credits the other; otherwise there is no winner (-1) exactly on equal scores, and seat 1 wins exactly when it scored more |
| Rooms.MarkerReadsBack | backend/app/src/match/room.ts:702-722 | the stored marker ("A", "B", "draw"), read back by the match history, gives player 1 a win exactly when seat 1 won, player 2 a win exactly when seat 2 won, and both a draw exactly when nobody won |
| Rooms.CheckSlotRules | backend/app/src/match/room.ts:579-608 | a live seat clears its deadline; a seat that left forfeits at once; a dead seat seen first gets a deadline 5000 ms ahead; a dead seat forfeits exactly when `now` is past its deadline |
| Rooms.TickOrder | backend/app/src/match/room.ts:573-650 | seat 1 is checked before seat 2; the score rule applies only when neither forfeits; a continuing tick has both scores below the target |
| Rooms.GracePeriod | backend/app/src/match/room.ts:34 | over any increasing run of ticks with seat 1 dead from the first tick, the game continues up to 5000 ms after that tick and the first tick past it forfeits seat 1 |
| Rooms.GraceRest | backend/app/src/match/room.ts:590-596 | once a deadline is set, ticks continue until one is later than it, and that tick forfeits |
| Rooms.Room.constructor | backend/app/src/match/room.ts:99-116 | a new room is empty, joinable, not launched, not ended, has no spectators and has fresh game data and stats |
| Rooms.Room.IndexOfPlayer | backend/app/src/match/room.ts:371-382 | 1 or 2 when that seat holds the player's uuid, -1 exactly when neither does |
| Rooms.SeatRoundTrip | backend/app/src/match/room.ts:133-139 | `getPlayer` and `indexOfPlayer` are inverse in a valid room: the seat found for a seated player holds that player's uuid, an unseated player finds no occupant, and the occupant of seat 1 or 2 is found at that seat |
| Rooms.Room.SetPaddlePosition | backend/app/src/match/room.ts:167-175 | seat 1 or 2's paddle takes the position verbatim; any other index changes nothing |
| Rooms.Room.SetScoreToWin | backend/app/src/match/room.ts:180-182 | the target score becomes the given one |
| Rooms.Room.SetGameEndedCallback | backend/app/src/match/room.ts:187-191 | a game-ended callback is registered |
| Rooms.Room.AddPlayer | backend/app/src/match/room.ts:198-234 | succeeds exactly for a live player, a joinable room, a uuid not seated here, and a player whose room is absent or ended; a refusal changes nothing; success takes seat 1 if free, else seat 2, clears its left flag, points the player here, drops them from their spectated room, and keeps the room's invariant |
| Rooms.Room.RemovePlayer | backend/app/src/match/room.ts:240-265 | nothing for a uuid not seated; before launch the seat is freed, after launch only its left flag is raised; the player's room is cleared only if it was this one |
| Rooms.Room.AddSpectator | backend/app/src/match/room.ts:272-304 | succeeds exactly on a launched, unfinished game for a live player who is not seated, not already watching, and has neither room nor spectated room; success appends them and points them here; refusal changes nothing |
| Rooms.Room.RemoveSpectator | backend/app/src/match/room.ts:310-316 | every spectator with that uuid is dropped; the back-reference is cleared only if it was this room |
| Rooms.Room.Clear | backend/app/src/match/room.ts:321-337 | both seats and the spectator list are empty; each seated player's room and each spectator's spectated room is cleared only where it still pointed here |
| Rooms.Room.Dispose | backend/app/src/match/room.ts:731-735 | as `Clear`, plus the callback is dropped and the room id leaves the registry, the other rooms keeping their order |
| Rooms.Room.StartGame | backend/app/src/match/room.ts:508-562 | refuses, in order, an ended game, a launched game, a room with a free seat, a dead player 1, a dead player 2, with those exact messages and nothing changed; succeeds exactly otherwise, launching with new game data carrying the served ball and new statistics stamped with the start time |
| Rooms.Room.EndGame | backend/app/src/match/room.ts:656-735 | refuses a game never launched; otherwise the game ends, the winner follows `WinnerOf`, the result and stored row carry both scores and the marker of that winner, and the room is disposed |
| Rooms.Room.RunTick | backend/app/src/match/room.ts:573-650 | the outcome is the pure tick step; a forfeit ends the game crediting the other seat on the old data, a reached score ends it on the new data, otherwise the game continues with the new data and nothing else changes: same players, spectators, left flags, target score, statistics, registry and back-references |
| Rooms.RoomIdInjective | backend/app/src/match/room.ts:75-112 | distinct counter values give distinct room ids "room-n" |
| Rooms.RemoveKey | backend/app/src/match/room.ts:733-734 | deleting an id keeps exactly the other ids, and no duplicates appear |
| Rooms.RemoveKeyAppend | backend/app/src/match/room.ts:733-734 | deletion works piecewise over a concatenation, so the other ids keep their insertion order |
| Rooms.RoomRegistry.constructor | backend/app/src/match/room.ts:36 | the registry starts empty with counter 1 |
| Rooms.RoomRegistry.Delete | backend/app/src/match/room.ts:733-734 | the id leaves the map and the order; the registry invariant holds |
| Rooms.RoomRegistry.CreateNewRoom | backend/app/src/match/room.ts:38-42 | a fresh, empty, joinable room of the given type under the id "room-n", not used before, registered last; the counter advances |
| Rooms.RoomRegistry.StartGameIfRoomFull | backend/app/src/match/room.ts:65-72 | a room with a free seat is untouched; a full room whose start succeeds is launched; a full room whose start is refused is disposed |
| Rooms.RoomRegistry.OfferToExisting | backend/app/src/match/room.ts:50-57 | the room that accepts the player is the first one in creation order that would take them; when none accepts, nothing changes |
| Rooms.RoomRegistry.AddPlayerToMatchmaking | backend/app/src/match/room.ts:44-62 | nothing for a player already seated or watching; otherwise the player goes to the first matchmaking room that takes them, or else to a new matchmaking room registered last |
| Sessions.SessionRegistry.constructor | backend/app/src/ws/setupWebSocket.ts:48-52 | both maps start empty |
| Sessions.SessionRegistry.GetPlayerByUUID | backend/app/src/ws/setupWebSocket.ts:313-315 | the live player filed under the uuid, none for the empty or an unknown uuid |
| Sessions.SessionRegistry.UpdateUsername | backend/app/src/ws/setupWebSocket.ts:318-323 | the live player with that uuid, if any, takes the new name |
| Sessions.SessionRegistry.Connect | backend/app/src/ws/setupWebSocket.ts:109-145 | refuses a failed authentication or empty uuid or name, then a uuid already live, changing nothing; otherwise a recent player is reattached with their name, rooms and skin, or a fresh player is made; the player becomes live and leaves the recent map, so no uuid is both live and recent |
| Sessions.SessionRegistry.Close | backend/app/src/ws/setupWebSocket.ts:265-287 | the player is disconnected, leaves an unlaunched room (a launched room keeps them), stops spectating, and moves from the live map to the recent map stamped `now` |
| Sessions.SessionRegistry.Evict | backend/app/src/ws/setupWebSocket.ts:296-308 | an entry older than 30000 ms is dropped and its player removed from the room they still hold; a younger one is untouched |
| Sessions.SessionRegistry.Sweep | backend/app/src/ws/setupWebSocket.ts:293-310 | afterwards the recent map holds exactly the entries at most 30000 ms old, every kept entry's player still points to the same room, and the live map is untouched |
| Sessions.SessionRegistry.SeatBoth | backend/app/src/ws/setupWebSocket.ts:165-172 | both players are seated, in order, exactly when both are alive and distinct |
| Sessions.SessionRegistry.StartOrDispose | backend/app/src/ws/setupWebSocket.ts:173-178 | the game starts exactly when both seats hold live players; otherwise the room is disposed |
| Sessions.SessionRegistry.StartFriendlyMatch | backend/app/src/ws/setupWebSocket.ts:165-178 | a new friendly room is launched with both players exactly when both are alive and distinct; otherwise it is disposed and the registry is as before |
| Sessions.SessionRegistry.SeatAndStart | backend/app/src/ws/setupWebSocket.ts:173-178 | on an empty new room the game is launched, with the two players seated in order and the serve given, exactly when both are alive and distinct; otherwise the room is disposed |
| Sessions.SessionRegistry.ReadyToPlay | backend/app/src/ws/setupWebSocket.ts:157-180 | nothing when the opponent is not live or either player has a room; otherwise the friendly match above |
| Sessions.SessionRegistry.LeaveGame | backend/app/src/ws/setupWebSocket.ts:181-187 | the sender leaves their room, following `RemovePlayer`, and stops spectating |
| Sessions.SessionRegistry.RequestMatchmaking | backend/app/src/ws/setupWebSocket.ts:188-195 | refused with ALREADY_IN_ROOM exactly while the sender holds or watches a room; otherwise the sender is offered to the first matchmaking room, in creation order, that takes them, and when none does, to a new matchmaking room filed last in the registry, which seats the sender exactly when they are alive |
| Sessions.SessionRegistry.ChangeSkin | backend/app/src/ws/setupWebSocket.ts:196-200 | the sender's skin becomes the requested one |
| Sessions.SessionRegistry.MovePaddle | backend/app/src/ws/setupWebSocket.ts:201-208 | the sender's paddle takes the position when they hold a seat in their room; nothing changes otherwise |
| Sessions.SessionRegistry.Spectate | backend/app/src/ws/setupWebSocket.ts:209-221 | fails in order with NO_PLAYER_FOUND, PLAYER_IS_NOT_IN_GAME, CANNOT_SPECTATE; otherwise the sender watches the target's room |
| TournamentRouting.HandleTournamentMessage | backend/app/src/ws/setupWebSocket.ts:223-252 | create, join, leave and close do what the registry operation of that name does, and a refusal comes back tagged with that kind; launchMatch changes nothing |
| Bracket.SetPlayerFrame | backend/app/src/tournament/tournamentTree.ts:345-356 | recording a winner at one match keeps the bracket's shape and every other match's player |
| Bracket.BuildTreeLeaves | backend/app/src/tournament/tournamentTree.ts:54-64 | the leaves of the built bracket, left to right, are the players in order |
| Bracket.BuildTreeMatchCount | backend/app/src/tournament/tournamentTree.ts:54-64 | n players give n-1 matches |
| Bracket.BuildTreeFresh | backend/app/src/tournament/tournamentTree.ts:54-64 | every match of a new bracket is undecided and every leaf holds a player |
| Bracket.BuildTreePerfect | backend/app/src/tournament/tournamentTree.ts:54-64 | 2^k players give a perfect bracket of height k |
| Bracket.FrontierFreshPerfect | backend/app/src/tournament/tournamentTree.ts:98-117 | in a new perfect bracket, the matches whose two children hold players are exactly the parents of leaves |
| Bracket.FindParentPerfect | backend/app/src/tournament/tournamentTree.ts:134-149 | a match's parent is the match one step up; the final has none |
| Bracket.NextRoundOfPerfect | backend/app/src/tournament/tournamentTree.ts:120-131 | the round after a full level is the whole level above it, so the round after the final is empty |
| Bracket.Champion | backend/app/src/tournament/tournamentTree.ts:66-88 | once no round is left, every match is decided, the leaves are unchanged, and the champion is one of the entrants |
| Bracket.ResolveFollowsRoom | backend/app/src/tournament/tournamentTree.ts:228-241 | with the intended uuid comparison, a played match advances the room's winner's side, and a draw advances side A |
| Bracket.ResolveForfeit | backend/app/src/tournament/tournamentTree.ts:212-225 | when player k cannot be added or does not acknowledge in time, the other side advances |
| Bracket.ResolveAgreeUnlessFinished | backend/app/src/tournament/tournamentTree.ts:161-165 | bot against bot advances the coin's side; the username rule and the uuid rule agree on every run except a played match |
| Bracket.ResolveByNameClash | backend/app/src/tournament/tournamentTree.ts:237-240 | the username comparison as written advances the wrong side when the winner's username equals the loser's (see Findings) |
| Tournaments.Humans | backend/app/src/tournament/tournamentTree.ts:39-41 | keeps only human entrants (all of them, by `HumansAndBots`) |
| Tournaments.Bots | backend/app/src/tournament/tournamentTree.ts:42-44 | keeps only bot entrants (all of them, by `HumansAndBots`) |
| Tournaments.HumansAndBots | backend/app/src/tournament/tournamentTree.ts:39-46 | humans followed by bots are a permutation of the entrants |
| Tournaments.GeneratedBracket | backend/app/src/tournament/tournamentTree.ts:31-51 | a bracket built from a power-of-two roster of humans then bots is new and perfect, and its leaves are a permutation of the entrants |
| Tournaments.Tournament.constructor | backend/app/src/tournament/tournamentManager.ts:40-58 | a new tournament has no players, no aliases, count 0, is open and not ended, and has an ungenerated bracket |
| Tournaments.TournamentTree.constructor | backend/app/src/tournament/tournamentTree.ts:26-28 | a new bracket has no root |
| Tournaments.TournamentTree.Generate | backend/app/src/tournament/tournamentTree.ts:31-51 | refuses, in order, an existing bracket, fewer than 4 entrants, and a count that is not a power of two, leaving the root unset; otherwise the leaves are some order of the humans followed by the bots in input order |
| Tournaments.TournamentTree.GetBottomMatches | backend/app/src/tournament/tournamentTree.ts:98-117 | the breadth-first scan returns, each once, exactly the matches whose two children hold players, without going below them; nothing without a root |
| Tournaments.TournamentTree.FindParent | backend/app/src/tournament/tournamentTree.ts:134-149 | a parent found is the child's path without its last step (exactly one step up in a perfect bracket, by `Bracket.FindParentPerfect`) |
| Tournaments.TournamentTree.GetNextRound | backend/app/src/tournament/tournamentTree.ts:120-131 | the parents of the matches just played, each once, and nothing else |
| Tournaments.TournamentTree.NextRoundFacts | backend/app/src/tournament/tournamentTree.ts:120-131 | the next round of a full level lies one level up and stays inside the bracket |
| Tournaments.TournamentTree.HandleMatchEnded | backend/app/src/tournament/tournamentTree.ts:345-356 | refuses, in order, a decided match, a missing child, and a child without a player, changing nothing; otherwise the match takes the left child's player for A and the right child's for B, and nothing else changes |
| Tournaments.TournamentTree.PlayMatch | backend/app/src/tournament/tournamentTree.ts:152-165 | refuses a match with a missing child or child player, then refuses as `handleMatchEnded` does, changing nothing; otherwise the match goes to the side its run (or the coin, for two bots) makes the winner; the bracket keeps its shape |
| Tournaments.TournamentTree.PlayRound | backend/app/src/tournament/tournamentTree.ts:91-95 | on a bracket whose lower rounds are all decided, deciding every match of the round yields a bracket whose rounds up to this one are decided, with nothing else changed, so the next round can be played |
| Tournaments.TournamentTree.PlayTournament | backend/app/src/tournament/tournamentTree.ts:66-88 | refuses an ungenerated bracket; otherwise rounds are played until none is left, every match is decided, the leaves are kept, the champion is an entrant, and the tournament is ended |
| TournamentManager.BotNameInjective | backend/app/src/tournament/tournamentManager.ts:168 | distinct bot numbers give distinct names "Bot n" |
| TournamentManager.FindIndex | backend/app/src/tournament/tournamentManager.ts:140-145 | the first entrant with the uuid, -1 exactly when there is none |
| TournamentManager.FirstFreeName | backend/app/src/tournament/tournamentManager.ts:167-169 | for any injective naming, the name found is the first one from the start on that is not taken, every earlier one is taken, and the next start is one past it |
| TournamentManager.NextBotName | backend/app/src/tournament/tournamentManager.ts:167-169 | the name is "Bot n" for the least n at or after the start whose name is not a taken alias, and the next start is n+1 |
| TournamentManager.AdjustPlayers | backend/app/src/tournament/tournamentManager.ts:153-183 | pads the roster to exactly the player limit, keeping the entrants as a prefix; bots get fresh uuids and the first free "Bot n" names in rising order, and every alias stays unique; a full roster is unchanged |
| TournamentManager.PaddedAreBots | backend/app/src/tournament/tournamentManager.ts:163-181 | every entry after the original roster is a bot |
| TournamentManager.TournamentRegistry.constructor | backend/app/src/tournament/tournamentManager.ts:11 | the registry starts empty |
| TournamentManager.TournamentRegistry.CreateNewTournament | backend/app/src/tournament/tournamentManager.ts:18-59 | refuses, in order, a blank name, invalid settings, and an owner of a tournament not yet ended, changing nothing; succeeds exactly otherwise, filing a new open tournament under a fresh uuid, last in order |
| TournamentManager.TournamentRegistry.FileNew | backend/app/src/tournament/tournamentManager.ts:40-57 | a new open, empty tournament with the given name, owner and settings is filed under a fresh uuid, last in creation order, and nothing else changes |
| TournamentManager.TournamentRegistry.GetTournament | backend/app/src/tournament/tournamentManager.ts:65-67 | the tournament filed under the uuid, none for an unknown one |
| TournamentManager.TournamentRegistry.GetTournaments | backend/app/src/tournament/tournamentManager.ts:72-74 | every tournament, once each, in creation order |
| TournamentManager.TournamentRegistry.TournamentsWith | backend/app/src/tournament/tournamentManager.ts:80-84 | exactly the tournaments whose roster holds the player's uuid |
| TournamentManager.TournamentRegistry.AddPlayerToTournament | backend/app/src/tournament/tournamentManager.ts:90-124 | an unknown tournament is refused; otherwise the outcome is `Joined` and the other tournaments are unchanged |
| TournamentManager.Enrol | backend/app/src/tournament/tournamentManager.ts:116-123 | an accepted entrant is appended under their alias, the count grows by one, the tournament closes exactly when that filled it, and the roster stays valid |
| TournamentManager.Withdraw | backend/app/src/tournament/tournamentManager.ts:147-149 | an accepted leave removes the entrant's first entry and alias, the count drops by one, and the roster stays valid |
| TournamentManager.TournamentRegistry.RemovePlayerFromTournament | backend/app/src/tournament/tournamentManager.ts:130-150 | an unknown tournament is refused; otherwise the outcome is `Left` |
| TournamentManager.TournamentRegistry.CloseTournament | backend/app/src/tournament/tournamentManager.ts:224-243 | an unknown tournament is refused; otherwise the outcome is `ClosedBy`, and a successful close leaves a new bracket |
| TournamentManager.TournamentRegistry.RunTournament | backend/app/src/tournament/tournamentManager.ts:217 | the play-through started by closing ends the tournament with every match decided and an entrant as champion |
| TournamentManager.Join | backend/app/src/tournament/tournamentManager.ts:95-123 | refuses, in order, closed, full, already in and alias in use, changing nothing; otherwise appends the player under the alias, adds one to the count, and closes exactly when the limit is reached |
| TournamentManager.Leave | backend/app/src/tournament/tournamentManager.ts:136-149 | refuses, in order, closed and not in the tournament, changing nothing; otherwise removes exactly the player's entry and alias and subtracts one from the count |
| TournamentManager.CloseByOwner | backend/app/src/tournament/tournamentManager.ts:230-242 | refuses, in order, closed, not the owner and fewer than 3 players, changing nothing; otherwise closes with the count of entrants, pads with bots, and generates a new bracket |
| TournamentManager.Play | backend/app/src/tournament/tournamentTree.ts:66-88 | a closed tournament plays to its end, with every match decided and the entrants kept |
| TournamentManager.CloseRoster | backend/app/src/tournament/tournamentManager.ts:189-198 | marks closed, sets the count to the roster size before padding, and pads with bots |
| TournamentManager.Close | backend/app/src/tournament/tournamentManager.ts:189-218 | nothing for a closed tournament; otherwise closed and not ended, the count is the roster size before padding, the entrants are followed by bots, and the new bracket's leaves are a permutation of the roster |
| TournamentSettings.EncodeSettings | backend/app/src/shared/tournament/tournamentSettings.ts:1-12 | encoded settings pass the shape check and decode back to themselves |
| TournamentSettings.MaxPlayers | backend/app/src/types/tournament.ts:24-30 | the player limit of valid settings as a count, 4 to 32 |
| TournamentSettings.ParseSettings | backend/app/src/types/tournament.ts:19-36 | settings are accepted exactly when `isValidTournamentSettings` holds |
| TournamentSettings.ValidSettingsRanges | backend/app/src/types/tournament.ts:19-36 | accepted exactly when both fields are numbers, the limit is 4, 8, 16 or 32, and the score to win lies in [1, 30] |
| TournamentSettings.ValidMaxIsPowerOfTwo | backend/app/src/types/tournament.ts:24-35 | an accepted limit is a power of two of at least 4 |
| TournamentController.ConvertAt | backend/app/src/controllers/tournamentController.ts:60-94 | the view has a match exactly where the bracket has one, and it is the conversion of that match |
| TournamentController.ConvertedMatch | backend/app/src/controllers/tournamentController.ts:75-94 | each match shows its winner's uuid ("" while undecided) and the converted players of its left and right children, or none when the child or its player is absent |
| TournamentController.DisplayedNamesDistinct | backend/app/src/controllers/tournamentController.ts:66-72 | in a valid tournament every entrant is shown under their own alias, and no two under the same name |
| TournamentController.AnyWithUuid | backend/app/src/controllers/tournamentController.ts:26 | true exactly when an entrant carries the uuid |
| TournamentController.Info | backend/app/src/controllers/tournamentController.ts:18-29 | the row carries uuid, name, count and limit; isOwner and joined are decided by uuid |
| TournamentController.StatusFollowsBracket | backend/app/src/controllers/tournamentController.ts:23-27 | "Pending" exactly while no bracket exists, "Ongoing" with a new bracket, "Ended" with an entrant as champion |
| TournamentController.ListTournaments | backend/app/src/controllers/tournamentController.ts:8-31 | 401 "Invalid Token" without a requester, else one row per tournament in creation order |
| TournamentController.Progression | backend/app/src/controllers/tournamentController.ts:33-57 | 400 without a uuid, 404 for an unknown one, else the conversion of that tournament's bracket, absent exactly while the tournament is open, with the bracket's shape |
| MatchHistory.Entry | backend/app/src/match/getMatchHistory.ts:20-41 | "draw" exactly for a drawn row, "win" exactly when the marker is the requester's side, "lose" otherwise; opponent and score are oriented to the requester |
| MatchHistory.History | backend/app/src/match/getMatchHistory.ts:20-41 | one entry per row, in row order |
| MatchHistory.Mirrored | backend/app/src/match/getMatchHistory.ts:21-38 | the two players of a match see each other as opponent, one wins exactly when the other loses, both see a draw together, and the scores read in opposite orders |
| MatchHistory.ScoreTextInjective | backend/app/src/match/getMatchHistory.ts:38 | the score text "a - b" determines both scores |
| ReplayController.SnapshotReplayData | backend/app/src/controllers/replayController.ts:15-49 | a position sample is stored at `time` exactly when there is no previous sample or some coordinate differs from the last inserted one by more than 1e-6; a score sample exactly when either score differs; nothing else changes |
| ReplayController.RecordOnlyAtTime | backend/app/src/controllers/replayController.ts:38-47 | only the key `time` can be written; every other entry and the key order are kept |
| ReplayController.StorePositionIff | backend/app/src/controllers/replayController.ts:31-37 | a sample is skipped exactly when all six coordinates are within 1e-6 of the last one |
| ReplayController.SnapshotTwiceAddsNothing | backend/app/src/controllers/replayController.ts:15-49 | snapshotting the same game data again at a later time adds nothing |
| Replay.MapSet | backend/app/src/controllers/replayController.ts:38 | setting a key keeps the other entries; a new key goes last in insertion order |
| Replay.LastEntry | backend/app/src/controllers/replayController.ts:16-21 | the entry filed under the last key in insertion order, none exactly for an empty map |
| Replay.FromPairsEntries | backend/app/src/shared/game/replayData.ts:58-59 | building a map from pairs keeps, for each key, its last pair's value |
| Replay.FromPairsKeys | backend/app/src/shared/game/replayData.ts:58-59 | every key of the built map comes from some pair |
| Replay.SortKeys | backend/app/src/shared/game/replayData.ts:65-67 | the keys are sorted, and they are a permutation of the stored keys |
| Replay.LastBelowIsMax | backend/app/src/shared/game/replayData.ts:71 | in sorted keys, the last key below `time` is the largest such key |
| Replay.ClosestTimeIsFloor | backend/app/src/shared/game/replayData.ts:64-74 | the key chosen is the largest one at or before `time`; there is none exactly when every key is later |
| Replay.ClosestTimeMonotone | backend/app/src/shared/game/replayData.ts:64-87 | a later time never chooses an earlier key |
| Replay.EntryAtTime | backend/app/src/shared/game/replayData.ts:64-87 | the entry at the latest key at or before `time`, absent exactly when every key is later |
| Replay.EncodeRaw | backend/app/src/shared/game/replayData.ts:13-22 | every raw replay, encoded, passes `isRawReplayData` |
| Replay.ReplayData.constructor | backend/app/src/shared/game/replayData.ts:43-51 | duration 0, empty skins and empty maps |
| Replay.ReplayData.FromRaw | backend/app/src/shared/game/replayData.ts:53-61 | keeps duration and skins and builds both maps from the pair lists |
| Replay.ReplayData.GetReplayDataAtTime | backend/app/src/shared/game/replayData.ts:64-74 | the positions at the latest key at or before `time`, none exactly when every key is later |
| Replay.ReplayData.GetScoreAtTime | backend/app/src/shared/game/replayData.ts:77-87 | the same rule over the score samples |
| ReplayView.FormatTimeShape | frontend/src/controllers/replay.ts:223-228 | the text is the whole minutes, ":", then the seconds within the minute as two digits |
| ReplayView.FormatTimeInjective | frontend/src/controllers/replay.ts:223-228 | two durations show the same text exactly when they have the same whole seconds |
| ReplayView.TimeArgCanonical | frontend/src/controllers/replay.ts:78-83 | the time argument is accepted exactly when it is the decimal form of a positive integer |
| ReplayView.ReplayPlayer.constructor | frontend/src/controllers/replay.ts:25-47 | speed 1, no replay loaded, progress 0 (the bar's initial value), no user interaction, and the clock reference taken now, as `mainLoop` does at line 160 |
| ReplayView.ReplayPlayer.Load | frontend/src/controllers/replay.ts:74-86 | an accepted argument sets progress to its milliseconds clamped to the duration; otherwise progress is kept |
| ReplayView.ReplayPlayer.SetReplaySpeed | frontend/src/controllers/replay.ts:230-237 | the multiplier changes only to 0.5, 1, 1.5 or 2 |
| ReplayView.ReplayPlayer.Tick | frontend/src/controllers/replay.ts:160-173 | progress advances by the scaled elapsed time and never passes the duration; it is frozen while the user drags or nothing is loaded |
| GameElements.Vector2RoundTrip | backend/app/src/shared/game/gameElements.ts:14-20 | an encoded vector decodes back to itself |
| GameElements.GameDataRoundTrip | backend/app/src/shared/game/gameElements.ts:52-62 | encoded game data passes `isGameData` and decodes back to itself |
| GameElements.GameStatsRoundTrip | backend/app/src/shared/game/gameElements.ts:86-96 | encoded statistics pass `isGameStats` and decode back to themselves |
| GameElements.NewGameData | backend/app/src/shared/game/gameElements.ts:64-75 | ball at the origin with zero velocity, paddles at (0, 4.4) and (0, -4.4), scores 0, and it passes `isGameData` |
| GameElements.NewGameStats | backend/app/src/shared/game/gameElements.ts:98-107 | all six statistics zero, and it passes `isGameStats` |
| GameMessages.Decode | backend/app/src/shared/game/gameMessageTypes.ts:9-156 | a value decodes exactly when some game-message predicate accepts it, into a message of that kind |
| GameMessages.ValidatorsExclusive | backend/app/src/shared/game/gameMessageTypes.ts:9-156 | no value is accepted by two game-message predicates |
| GameMessages.TagInjective | backend/app/src/shared/game/gameMessageTypes.ts:9-156 | the game-message tags are distinct |
| GameMessages.EncodeAccepted | backend/app/src/shared/game/gameMessageTypes.ts:9-156 | an encoded message is accepted by its own predicate and by no other |
| GameMessages.DecodeEncode | backend/app/src/shared/game/gameMessageTypes.ts:9-156 | decoding an encoded game message gives it back |
| MessageEnvelope.Decode | backend/app/src/shared/messageType.ts:12-100 | a value decodes exactly when one of the error, notification, game, chat or tournament predicates accepts it |
| MessageEnvelope.ValidatorsExclusive | backend/app/src/shared/messageType.ts:12-100 | at most one envelope predicate holds |
| MessageEnvelope.EncodeAccepted | backend/app/src/shared/messageType.ts:12-100 | an encoded envelope is accepted by its own predicate only |
| MessageEnvelope.DecodeEncode | backend/app/src/shared/messageType.ts:12-100 | decoding an encoded envelope gives it back |
| ChatMessages.Decode | backend/app/src/shared/chat/chatMessageTypes.ts:8-80 | a value decodes exactly when some chat-message predicate accepts it |
| ChatMessages.ValidatorsExclusive | backend/app/src/shared/chat/chatMessageTypes.ts:58-80 | no value is accepted by two chat predicates, the accept and redirect predicates included |
| ChatMessages.EncodeAccepted | backend/app/src/shared/chat/chatMessageTypes.ts:8-80 | an encoded chat message is accepted by its own predicate only |
| ChatMessages.DecodeEncode | backend/app/src/shared/chat/chatMessageTypes.ts:8-80 | decoding an encoded chat message gives it back |
| TournamentMessages.Decode | backend/app/src/shared/tournament/tournamentMessageTypes.ts:9-69 | a value decodes exactly when some tournament predicate accepts it; create accepts settings that pass only the shape check |
| TournamentMessages.ValidatorsExclusive | backend/app/src/shared/tournament/tournamentMessageTypes.ts:9-69 | the five tournament predicates are mutually exclusive |
| TournamentMessages.EncodeAccepted | backend/app/src/shared/tournament/tournamentMessageTypes.ts:9-69 | an encoded tournament message is accepted by its own predicate only |
| TournamentMessages.DecodeEncode | backend/app/src/shared/tournament/tournamentMessageTypes.ts:9-69 | decoding an encoded tournament message gives it back |
| InputHandler.MutableVector2.constructor | backend/app/src/shared/inputHandler.ts:16-21 | a position with the given coordinates |
| InputHandler.Clamp | backend/app/src/shared/inputHandler.ts:47-50 | the result lies in the bounds and equals the value when the value already does |
| InputHandler.Direction | backend/app/src/shared/inputHandler.ts:27-39 | the step direction lies in [-1, 1] |
| InputHandler.HandlePlayerInput | backend/app/src/shared/inputHandler.ts:16-56 | x becomes the input step's result, y never changes, and the mesh, when there is one, takes the new x whenever there was a direction to move in and is untouched otherwise |
| InputHandler.HandleAIInput | backend/app/src/shared/inputHandler.ts:59-78 | the AI is player input with no keys and a drag aimed at the ball's x |
| InputHandler.NoInputNoMove | backend/app/src/shared/inputHandler.ts:23-25 | with no key and no active drag the paddle does not move |
| InputHandler.DragTakesPrecedence | backend/app/src/shared/inputHandler.ts:27-32 | an active drag ignores the keys and heads toward its target, or stays when it has none |
| InputHandler.KeyDirection | backend/app/src/shared/inputHandler.ts:34-39 | without a drag the direction is UP minus DOWN, so both together do not move |
| InputHandler.MoveStaysInBounds | backend/app/src/shared/inputHandler.ts:44-50 | a moved paddle lies in [-2.5, 2.5] |
| InputHandler.StepBounded | backend/app/src/shared/inputHandler.ts:41-50 | one step moves at most paddleSpeed times deltaTime and lands in bounds |
| InputHandler.AiFollowsBall | backend/app/src/shared/inputHandler.ts:59-78 | the AI paddle never moves away from the ball's x |
| LoadingHandler.CountLoadedAll | frontend/src/game/loadingHandler.ts:43-45 | every state is loaded exactly when the loaded count is the length |
| LoadingHandler.CountLoadedUpdate | frontend/src/game/loadingHandler.ts:21-25 | marking one state adds one to the count exactly when it was not loaded |
| LoadingHandler.ProportionBounds | frontend/src/game/loadingHandler.ts:31-37 | the proportion lies in [0, 1] and is 1 exactly when the list is non-empty and fully loaded |
| LoadingHandler.MarkLoadedMonotone | frontend/src/game/loadingHandler.ts:21-25 | marking never unloads a state and never lowers the proportion |
| LoadingHandler.MarkLoadedIdempotent | frontend/src/game/loadingHandler.ts:21-25 | marking twice is marking once |
| LoadingHandler.LoadingHandler.constructor | frontend/src/game/loadingHandler.ts:4-6 | no states |
| LoadingHandler.LoadingHandler.AddLoadingState | frontend/src/game/loadingHandler.ts:12-15 | appends a state that is not loaded and returns the old length as its index |
| LoadingHandler.LoadingHandler.SetLoaded | frontend/src/game/loadingHandler.ts:21-25 | marks an index in range, and does nothing otherwise |
| LoadingHandler.LoadingHandler.GetLoadedProportion | frontend/src/game/loadingHandler.ts:31-37 | 0 for an empty list, within [0, 1], and 1 exactly when all are loaded |
| LoadingHandler.LoadingHandler.IsAllLoaded | frontend/src/game/loadingHandler.ts:43-45 | true exactly when the loaded count is the length, so an empty list counts as loaded |
| LoadingHandler.LoadingHandler.Clear | frontend/src/game/loadingHandler.ts:50-52 | the list is empty |
| WebSocketManager.IndexOf | frontend/src/websocketManager.ts:54 | the first position of the callback, -1 exactly when absent |
| WebSocketManager.RemoveFirstCount | frontend/src/websocketManager.ts:51-59 | unsubscribing removes one occurrence of a present callback, and nothing for an absent one |
| WebSocketManager.SubscribeUnsubscribe | frontend/src/websocketManager.ts:43-59 | subscribing a callback not yet registered and then unsubscribing it restores the list |
| WebSocketManager.WebSocketManager.constructor | frontend/src/websocketManager.ts:40 | no callbacks and not connected |
| WebSocketManager.WebSocketManager.SetConnected | frontend/src/websocketManager.ts:80-82 | `isConnected` then reads back the given flag |
| WebSocketManager.WebSocketManager.SubscribeTo | frontend/src/websocketManager.ts:43-48 | appends the callback to that event's list, duplicates allowed, and leaves the other events' lists alone |
| WebSocketManager.WebSocketManager.UnsubscribeTo | frontend/src/websocketManager.ts:51-59 | removes the first occurrence from that event's list only |
| WebSocketManager.WebSocketManager.NotifySubscribers | frontend/src/websocketManager.ts:62-66 | the event's callbacks are invoked in registration order |
| WebSocketManager.WebSocketManager.SendMessage | frontend/src/websocketManager.ts:84-96 | nothing is sent exactly when not connected; otherwise the envelope of that type and data is sent, and it decodes back |
| ChatUtils.AddIdProperties | frontend/src/utils/chatUtils.ts:16-22 | adding keeps the list free of duplicates, is idempotent, and appends an absent id |
| ChatUtils.RemoveIdProperties | frontend/src/utils/chatUtils.ts:24-28 | removing drops every occurrence of the id and keeps each other id's occurrences |
| ChatUtils.RemoveIdAppend | frontend/src/utils/chatUtils.ts:26 | removal works piecewise over concatenation, so the others keep their order |
| ChatUtils.AddThenRemove | frontend/src/utils/chatUtils.ts:16-28 | adding an absent id and then removing it restores the list |
| ChatUtils.RemoveIdAbsent | frontend/src/utils/chatUtils.ts:24-28 | removing an absent id changes nothing |
| ChatUtils.ChatUtils.constructor | frontend/src/utils/chatUtils.ts:1 | the ready flag starts false |
| ChatUtils.ChatUtils.SetReadyToPlaySent | frontend/src/utils/chatUtils.ts:3-9 | `hasSentReadyToPlay` then reads back the value written, and the hidden room list is untouched |
| ChatUtils.ChatUtils.GetHiddenRoomIds | frontend/src/utils/chatUtils.ts:11-14 | nothing stored gives the empty list |
| ChatUtils.ChatUtils.AddHiddenRoomId | frontend/src/utils/chatUtils.ts:16-22 | the stored list becomes the added list; a present id writes nothing; other keys are untouched |
| ChatUtils.ChatUtils.RemoveHiddenRoomId | frontend/src/utils/chatUtils.ts:24-28 | the stored list becomes the list without that id |

## Behaviours worth noting


- **Paddle positions.** A client's paddle position is stored verbatim. There is no clamping and no check that the game is launched (`room.ts:167-175`, `setupWebSocket.ts:201-208`). `Room.SetPaddlePosition` and `SessionRegistry.MovePaddle` state exactly that.
- **Player count after close.** `playerCount` is the roster size before the bots are added (`tournamentManager.ts:193`), not the padded size. `Close` and `ClosedBy` state this.
- **Alias keys.** Aliases are keyed by the player's uuid. The type's comment says they are keyed by alias, but the code keys them by uuid (`tournamentManager.ts:117`, `types/tournament.ts:12`).
- **Draws in the bracket.** A drawn room advances side A, because the winner name of a draw is "" and matches no username (`tournamentTree.ts:237-240`).
- **Reconnection.** A reconnecting player keeps the stored player object, including their old username (`setupWebSocket.ts:125-130`).

## Left out

- Ball physics, `scaleMagnitude` and the distance a paddle has travelled are not modelled: they are floating-point geometry with random angle resampling. `Room.RunTick` receives the game data after the bots' moves and the ball update as the `moved` parameter.
- Numbers are modelled as `real` or unbounded `int`. The model has no IEEE rounding, NaN or infinity.
- Timers are not modelled: the 60 Hz interval, the one-second sweep, the ping interval and the 10 s pause between tournament rounds. Each timer callback is a method with time as a parameter.
- `Tournaments.TournamentTree.PlayTournament` plays the matches of a round one after another rather than in parallel. This does not change the outcome, because each match writes only its own node.
- The asynchronous room life inside `playMatchAsync` is not modelled: the room, the acknowledgments and their 10 s timeout. Each match's outcome is a `MatchRun` parameter that `Bracket.Resolve` turns into a side.
- Socket I/O and JSON text are not modelled. Messages are `Json` values, the notification and broadcast bodies are left out, and so is the frontend's connect and reconnect loop.
- JWT checks and database lookups are not modelled. Authentication is an `authenticated` flag with the uuid and name it resolved to.
- `saveMatchData` is not modelled; `Room.EndGame` returns the row it would store. Replay file saving and loading are left out.
- `saveToBlockchain` is not modelled: it is an external contract call.
- Randomness is not modelled as a distribution. This covers the shuffle of human entrants, the coin for bot-against-bot and failed starts, fresh uuids and bot skins. A coin is a parameter, and a shuffle or uuid is a choice the contracts cover for every value.
- Callbacks are not modelled as functions: a subscribed callback is an id, and a notification is the sequence of ids invoked.
- The order in which the sweep visits recent entries is left open, since a JavaScript `Map` visits them in insertion order. `Sessions.SessionRegistry.Sweep` states its result without depending on that order.
- `Sessions.SessionRegistry.Sweep`: does not state, for each dropped entry, what happened to its player's room. Each dropped entry goes through `Sessions.SessionRegistry.Evict`, whose contract states it: the player is removed from the room that still seats them, or marked as having left a launched game.
- `ReplayView.ReplayPlayer.Tick`: the progress is a real number. The browser's range input clamps the value it stores to the bar's bounds and rounds it to the step of 1; the model does not apply that rounding.
- Chat and invitation dispatch in the message handler (chatInviteHandler.ts) is not part of this model.
- The HTTP controllers other than the tournament list and progression are not part of this model. Neither are the 3D front end, the views or the skin selector.
- `Rooms.Room.RunTick`: does not record the replay snapshot the loop takes each tick. The snapshot is modelled on its own by `ReplayController.SnapshotReplayData`.
- `Rooms.Room.StartGame`: does not record the players' paddle skins in the room's replay data, and does not take the initial replay snapshot at time 0 (`room.ts:530-533`). The room carries no replay data in this model. The snapshot step itself is `ReplayController.SnapshotReplayData`.
- `Tournaments.TournamentTree.PlayMatch`: decides each match with the corrected uuid rule, `Bracket.Resolve`. The code compares the room's winner username with the right child's username (`tournamentTree.ts:237-240`). The two rules differ whenever the left player wins while sharing the right player's username: two accounts with the same name (usernames are not unique), or a human named like the padded bot, as the Findings row shows. `PlayRound`, `PlayTournament`, `TournamentManager.Play` and `RunTournament` inherit this rule. `Bracket.ResolveByName` is the rule as written, and `Bracket.ResolveAgreeUnlessFinished` states where the two agree.
- `TournamentManager.Close`: does not start the play-through that `close` starts at `tournamentManager.ts:217`. That play-through is asynchronous; it is modelled as the separate step `TournamentManager.TournamentRegistry.RunTournament`.
- `Sessions.SessionRegistry.ChangeSkin`: does not model the skin notification sent to the room.

## Findings

| source | as written | input that shows it | evidently intended | confidence | as-written member | corrected member |
|---|---|---|---|---|---|---|
| backend/app/src/tournament/tournamentTree.ts:237-240 | the side that advances is "B" exactly when the room's winner username equals the right child's username | a human whose username is "Bot 1" joins under the alias "Ace", so "Bot 1" stays free and the padded bot is named "Bot 1"; the human, on side A, beats that bot; the winner name "Bot 1" equals the bot's username, so B advances (two accounts sharing a username diverge the same way whenever side A wins) | the winner is identified by uuid: B advances exactly when the room's winner is the right child's player | not executed | Bracket.ResolveByNameClash | Bracket.ResolveFollowsRoom |
