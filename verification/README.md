# Battleship server: a Dafny model of its game core

This project models the game core of a two-player Battleship server written
in C++ with Qt. The server keeps one session record in memory: who is
connected, the roster of players who asked to start, who declared themselves
ready, how many ships each player has sunk, and the current game id. It also
keeps three SQL tables: Game, Ship and Move.

The model treats both as plain values:

- `Session.Server` is the session record.
- `Database.Store` holds the three tables as a map and two sequences, plus
  the autoincrement counter.

Every operation is a pure function from the old state to the new state, the
reply and the messages pushed to other players.

The modules follow the program's structure:

- `Types` holds nicknames, shot outcomes, replies, pushed messages and deliveries.
- `Database` models `DatabaseManager.cpp`: `createGame`, `saveShip`,
  `saveMove`, `checkMove` (the shot transaction), `getCurrentTurn` and
  `updateTurn`. Failures are arguments. `saveShip`, `saveMove` and the shot
  transaction each take one boolean `fails`, and a set flag changes nothing.
  `createGame` runs two statements outside any transaction, so it takes a
  `CreateFault` that names the one that fails; when only the id query
  fails, the Game row stays stored and -1 is still returned.
- `Session` models the helpers of `mytcpserver.cpp` that work on the session
  record: `addPlayerToGame`, `getOpponentInternal`, `resetGame`,
  `registerClient` and `unregisterClient`.
- `Handlers` models `handleStartGame`, `handlePlaceShip` and `handleMakeMove`
  from `func2serv.cpp`.
- `TcpServer` models the command loop `slotServerRead`:
  - the register/login branch;
  - the ready_to_battle and make_move branches, which the loop handles itself;
  - the start_game and place_ship commands, which it hands to their handlers;
  - the disconnect slot.

  `TcpServer.Step` is one command. `TcpServer.Inv` is the invariant that
  every `Step` keeps.
- `Scenarios` holds runs of several commands, including a complete
  two-player exchange.

The model keeps the code's behaviour as written, including these quirks:

- The Game row is created by the second player to ask for a game. That
  player becomes `player1` and holds the stored turn. When both players are
  ready, the turn is overwritten with the first roster member. So the first
  arrival shoots first (`Scenarios.FirstTurnGoesToFirstArrival`).
- The make_move branch compares only the stored turn with the shooter; it
  checks neither readiness nor a game phase. Between game creation and
  the second ready, the second arrival holds the turn and can shoot
  (`Scenarios.SecondArrivalMayShootBeforeReady`).
- Every ready declaration made while two players are ready fires the start
  again. It resets the turn to the first roster member and broadcasts
  game_start again (`Scenarios.RepeatedReadyRefires`).
- After a winning shot, game_over goes to the winner and, when the roster
  still holds another player, to that player too; with no one else on the
  roster it goes to the winner alone (`TcpServer.GameOverEvents`). The game
  is then reset. The shooter's own reply is the ordinary move reply, with
  the shooter as the turn holder.
- Reading a missing sunk counter creates it at zero. `QHash::operator[]`
  does this, and `TcpServer.CounterAfter` models it.
- Placing a ship is not checked against the player's earlier ships.
- The make_move command is caught by the command loop. So `handleMakeMove`
  is never reached from the loop. It is modelled on its own
  (`Handlers.HandleMakeMove`), and `TcpServer.Step` does not call it.
- `addPlayerToGame` has no cap on the roster. The only cap in the code is
  the "server full" refusal of new connections, which is left out.
- A shot only ever looks at the opponent's ships. Ship rows of anyone else
  never change a shot (`Database.OtherShipsIgnored`), so a fresh shot at a
  cell covered only by the shooter's own ships misses
  (`Database.OwnShipsShotMiss`; one instance is
  `Scenarios.BobShotAtOwnShipMisses`). In the model's
  exchange (`Scenarios.TwoPlayerExchange`), bob places the ship and alice
  shoots it.
- Any registered client who disconnects ends the game while the roster
  holds someone else, even a client who never joined the roster: the first
  roster member other than the leaver is told "opponent disconnected" and
  the game is reset (`Session.UnregisterClient`).

## Model

| member | source | states |
|---|---|---|
| Database.CoversIffInCells | DatabaseManager.cpp:304-314 | the scan's horizontal/vertical cell test holds exactly for the `size` cells that run right (horizontal) or down (vertical) from the ship's origin |
| Database.ShipIndex | DatabaseManager.cpp:280-315 | the scan over the opponent's ships finds nothing exactly when no Ship row of that owner in that game covers the cell, and otherwise stops at the first such row in table order |
| Database.ShipIndexAppend | DatabaseManager.cpp:296-315 | appending a Ship row never changes the ship an earlier row already places on a cell; the new row only claims cells that no earlier ship of that owner covered |
| Database.PriorHits | DatabaseManager.cpp:319-335 | the count of earlier hit/sunk moves of the shooter inside the ship is at most the number of moves, and is zero exactly when no such move exists |
| Database.PriorHitsAppend | DatabaseManager.cpp:319-354 | recording one more move raises a ship's hit count by one exactly when that move is a hit/sunk move of the shooter inside the ship |
| Database.CheckMove | DatabaseManager.cpp:237-379 | the shot transaction: "error" exactly on a failure or an unknown game; "already_shot" exactly when the shooter has a Move row at the cell; "miss" exactly when no opponent ship in the game covers the cell; otherwise the first covering ship decides, "sunk" exactly when its earlier hits plus this one reach its size; a resolved shot appends exactly one Move row and nothing else changes, and every other result leaves the store as it was |
| Database.OtherShipsIgnored | DatabaseManager.cpp:280-315 | the ship scan filters on the opponent as owner, so adding Ship rows owned by anyone but the shooter's opponent leaves the shot's result and its recorded move unchanged |
| Database.OwnShipsShotMiss | DatabaseManager.cpp:262-315 | a fresh shot at a cell no ship of the opponent covers is a miss, however many of the shooter's own ships cover that cell |
| Database.RepeatShotRejected | DatabaseManager.cpp:267-278 | once a shot is resolved, the same shot again is refused as already shot and leaves the store unchanged |
| Database.ShotOnSoleShip | DatabaseManager.cpp:296-345 | a fresh shot at a cell of an opponent ship that shares no cell with another of that fleet's ships lands on that ship, is classified by its hits so far, and raises them by one |
| Database.NotShotYet | DatabaseManager.cpp:267-278 | in a run over distinct cells of one ship, the next cell has not been shot yet, so the repeat check lets it through |
| Database.SinkPrefix | DatabaseManager.cpp:317-345 | provided no other ship of the owner in that game shares a cell with the ship and the shooter has no earlier move inside it: after the first n shots at distinct cells of one ship, the ship has taken n hits, and shot k was "hit" while k + 1 < size and "sunk" from then on |
| Database.SinkStep | DatabaseManager.cpp:317-345 | under the same two provisions, one more shot at a fresh cell of the same ship keeps every earlier result, adds exactly one hit to the count, and is "sunk" exactly when the count reaches the ship's size |
| Database.SinkSequence | DatabaseManager.cpp:335-342 | provided no other ship of the owner in that game shares a cell with the ship (placement does not check overlap) and the shooter has no earlier move inside it: a ship of size L shot once at each of its distinct cells, in any order, gives "hit" on every shot before the L-th and "sunk" on the L-th |
| Database.SaveShip | DatabaseManager.cpp:177-200 | inserting a ship appends exactly that one Ship row; the store checks neither bounds nor overlap; a failure changes nothing |
| Database.SavedShipIsTargeted | DatabaseManager.cpp:177-200 | a saved ship is the ship a later shot at any of its cells lands on, unless an earlier ship of the same owner already covers that cell |
| Database.SaveMove | DatabaseManager.cpp:202-235 | recording a move appends exactly one Move row, after which that cell counts as already shot by that player; a failure changes nothing |
| Database.CreateGame | DatabaseManager.cpp:149-175 | a new game gets the next autoincrement id, which no existing game has, and a row whose stored turn is player1; other games keep their rows; -1 exactly when a statement fails; a failed INSERT changes nothing, while a failed id query leaves the new row stored |
| Database.CurrentTurn | DatabaseManager.cpp:381-397 | the turn read is the stored turn of that game's row, and the empty nickname when no row has that id |
| Database.UpdateTurn | DatabaseManager.cpp:399-417 | after the update, reading the turn of that game gives the new holder, and the turn of every other game reads as before; an unknown game id changes nothing; players, ships and moves are untouched |
| Database.UpdateTurnToHolder | DatabaseManager.cpp:399-417 | handing the turn to the player who already holds it leaves the store exactly as it was |
| Session.AddPlayer | mytcpserver.cpp:293-301 | the roster gains the nickname exactly when it was absent, at the end and with the existing order kept; it stays free of duplicates; a new member's sunk counter starts at zero |
| Session.RosterOpponent | mytcpserver.cpp:308-317 | the opponent is the first roster member other than the nickname, or empty when every member is that nickname |
| Session.RosterOpponentOfPair | mytcpserver.cpp:308-317 | in a two-member roster without duplicates, each member's opponent is the other member, and the opponent of the opponent is the member itself |
| Session.RemoveAll | mytcpserver.cpp:276 | removing a nickname keeps exactly the other members, shrinks the roster by the number of its occurrences, is the identity when the nickname is absent, and introduces no duplicates |
| Session.RemoveAllAppend | mytcpserver.cpp:276 | removal from a concatenation is removal from each part, so the remaining members keep their relative order |
| Session.RemoveAllKeepsOpponent | mytcpserver.cpp:276-279 | the opponent looked up after removing a nickname is the first member other than that nickname in the roster before removal |
| Session.ResetGame | mytcpserver.cpp:330-338 | a reset empties the roster, the ready set and the counters, forgets the game id, keeps the connections, and leaves nobody with an opponent |
| Session.RegisterClient | mytcpserver.cpp:260-267 | the nickname and the connection map to each other, a later registration overwrites an earlier one, every other entry is kept, and the nickname's sunk counter restarts at zero |
| Session.UnregisterClient | mytcpserver.cpp:269-285 | the connection's nickname leaves both maps, the roster, the ready set and the counters; the first roster member other than that nickname is told "opponent disconnected", and the game is reset, exactly when such a member exists; an unknown connection changes nothing; when nobody is told, the game id is kept and the roster, the ready set and the counters lose only that nickname |
| Handlers.HandleStartGame | func2serv.cpp:178-219 | the caller joins the roster; when that makes two, a game is created with the caller as player1 holding the stored turn and becomes the current game; each player is told the id and the other's nickname; every other Game row, the Ship and Move tables are kept; a failed INSERT is reported with the store unchanged, and a failed id query is reported with the new row left stored and the current game id left as it was; otherwise the reply is "waiting" |
| Handlers.PlacementChecksIffOnBoard | func2serv.cpp:248-257 | the handler's three range checks pass exactly for a ship of size 1 to 4 all of whose cells lie on the 10x10 board |
| Handlers.HandlePlaceShip | func2serv.cpp:221-268 | a placement is saved exactly when all fields are present, the nickname is not empty, the game id is the current one, the checks pass and the insert succeeds; the saved ship lies on the board; each failed check gives its own error (missing fields, empty nickname, wrong game, out of range, past the right or bottom edge, failed insert) and changes nothing |
| Handlers.HandleMakeMove | func2serv.cpp:270-332 | the handler version of a shot: the game id must be the current one and the caller must hold the turn; a shot is accepted exactly when the caller holds the turn and the shot transaction resolves it; the turn passes only on a miss and no other Game row changes; a resolved shot is stored twice, by the shot transaction and again by saveMove |
| Handlers.FirstHitStoredTwice | func2serv.cpp:296-305 | as written, the first hit on a three-cell ship leaves two identical Move rows |
| Handlers.SecondHitSinks | DatabaseManager.cpp:319-342 | with the first hit stored twice, the second hit on the three-cell ship counts three hits and reports "sunk" |
| Handlers.DoubleRecordSinksEarly | func2serv.cpp:296-305 | as written, two hits on a three-cell ship report it sunk while one of its cells has never been shot |
| Handlers.HandleMakeMoveOnce | func2serv.cpp:270-332 | the handler with each shot stored once: the same checks, acceptance rule, turn rule and messages, and a resolved shot appends exactly one Move row |
| Handlers.SaveAndPass | func2serv.cpp:305-331 | after a resolved shot the handler saves the move again (unless that insert fails), replies with the outcome, and hands the stored turn to the opponent only on a miss, touching no other Game row |
| Handlers.FirstHitStoredOnce | func2serv.cpp:296-305 | with each shot stored once, alice's first shot at bob's three-cell ship is a hit and leaves exactly one Move row |
| Handlers.SecondHitHits | func2serv.cpp:296-305 | with each shot stored once, alice's second shot at the same ship is still a hit, not a sinking |
| Handlers.OnceKeepsHitCount | func2serv.cpp:296-305 | with each shot stored once, one shot raises a ship's hit count by at most one |
| Handlers.SingleRecordCountsHits | func2serv.cpp:296-305 | with each shot stored once, the same two shots at the three-cell ship are two hits and do not sink it |
| TcpServer.OnRegister | mytcpserver.cpp:64-71 | an empty nickname is refused; any other nickname is recorded for the connection before the credential check answers |
| TcpServer.OnReady | mytcpserver.cpp:72-109 | only a non-empty roster member may declare ready; whenever the ready set then has two members and a game exists, the stored turn becomes the first roster member and game_start naming that member goes to every connected client; otherwise the store is untouched and nothing is sent |
| TcpServer.GameOverEvents | mytcpserver.cpp:154-170 | game_over naming the winner goes to the winner, and also to the opponent exactly when there is one; with no opponent it is delivered exactly once |
| TcpServer.OnMakeMove | mytcpserver.cpp:110-204 | only the stored turn holder may shoot, and the turn holder's shot is accepted exactly when the shot transaction resolves it; a failed or repeated shot is refused and changes nothing; apart from the one Move row, only the turn of the shot's game can change; a resolved shot is recorded once; a sinking counts toward the shooter's total; reaching ten ends and resets the game and sends game_over; otherwise the turn passes to the opponent exactly on a miss, and the opponent is told the outcome and the new turn holder |
| TcpServer.AfterShot | mytcpserver.cpp:132-203 | after a resolved shot, the reply carries the outcome and the cell; a sinking adds one to the shooter's count; reaching ten resets the game and keeps the turn with the shooter; otherwise the stored turn passes to a present opponent exactly on a miss; the invariant is kept |
| TcpServer.WinExactlyOnTenthSinking | mytcpserver.cpp:149-153 | under the invariant, a shot ends the game exactly when it sinks a ship while the shooter's counter stands at nine |
| TcpServer.OnDisconnect | mytcpserver.cpp:223-237 | a closed connection with a nickname removes that nickname's ready mark, counter, map entries and roster place; if another roster member remains, the first such member is told and the game is reset; otherwise the game id is kept and the other counters are untouched |
| TcpServer.StartGameKeepsInv | func2serv.cpp:178-219 | start_game keeps the invariant, including when the game row is stored but its id cannot be read |
| TcpServer.PlaceShipKeepsInv | func2serv.cpp:221-268 | place_ship keeps the invariant |
| TcpServer.Step | mytcpserver.cpp:43-221 | every command keeps the invariant: no duplicate or empty roster member, only roster members ready, sunk counters in 0..9, the current game present in the store, and game ids within the autoincrement range |
| TcpServer.InitialSatisfiesInv | mytcpserver.cpp:8 | the server as constructed (no game, id -1) with an empty store satisfies the invariant |
| Scenarios.Run | mytcpserver.cpp:43-221 | a run of commands without store failures gives one reply per command and keeps the invariant |
| Scenarios.RunWith | mytcpserver.cpp:43-221 | a run of commands, each meeting its own store failures, gives one reply per command and keeps the invariant |
| Scenarios.RunIsFaultFree | mytcpserver.cpp:43-221 | a run whose every command meets no store failure is the run without store failures |
| Scenarios.ReachableStatesKeepInv | mytcpserver.cpp:43-221 | every state reachable from the start keeps the invariant, whatever store failures the commands meet, including a game row stored while its id could not be read |
| Scenarios.FirstArrivalWaits | func2serv.cpp:194-218 | the first player to ask for a game waits, with no game created and nothing sent |
| Scenarios.SecondArrivalCreatesGame | func2serv.cpp:194-212 | the second arrival creates the game as its player1, holding the stored turn, and both players learn the id and the other's nickname |
| Scenarios.SecondArrivalMayShootBeforeReady | mytcpserver.cpp:110-132 | right after the game is created, the second arrival's shot is neither refused as out of turn nor failed for an unknown game, and a fresh cell is resolved, although no player is ready |
| Scenarios.SecondReadyStarts | mytcpserver.cpp:72-89 | the first ready of a fresh pair changes nothing else; the second hands the turn to the first roster member and broadcasts game_start |
| Scenarios.FirstTurnGoesToFirstArrival | mytcpserver.cpp:79-83 | the game row names the second arrival as holding the turn, yet after both ready declarations the first arrival holds it |
| Scenarios.RepeatedReadyRefires | mytcpserver.cpp:76-83 | a ready declaration while two players are ready broadcasts game_start again and resets the turn to the first roster member |
| Scenarios.BobShotAtOwnShipMisses | DatabaseManager.cpp:262-284 | in the two-player exchange, bob's shot at (3, 3), a cell covered by his own ship and by no ship of alice's, is a miss and is recorded as one |
| Scenarios.ExchangeFrom9 | mytcpserver.cpp:110-204 | after alice has sunk bob's ship, a repeat of a used cell is refused, bob is refused out of turn, alice's miss hands the turn to bob and bob's miss hands it back, with alice's sinking count left at one |
| Scenarios.TwoPlayerExchange | mytcpserver.cpp:43-221 | registration, start, one placement, two readies, then hit, sink, repeated cell, out-of-turn shot, miss and counter-miss produce exactly the expected replies; alice ends with one ship sunk and the turn |

## Left out

- Socket I/O, Qt signals and slots, and the flushing and connection-state checks before writes are left out. A delivery is an `Event` (`Notify` or `Broadcast`), and whether it reaches a live socket is not modelled.
- JSON framing and decoding are left out. So are `parse`, `createJsonResponse` and the message texts. Commands arrive already decoded as `TcpServer.Cmd`, and a missing field is `None`.
- Registration and login credentials live in the users table and are not part of this model. The reply to register/login is `AuthReply`.
- The `DatabaseManager` constructor, the schema setup and the singleton are left out.
- `slotNewConnection`'s "server is full" refusal is a property of a connection, not of a command, and is left out.
- Locking is left out. Every command runs as one atomic step, so races between connections are not modelled. Some calls re-lock the non-recursive `QMutex` while it is held: `slotClientDisconnected` calls `unregisterClient`, which calls `getOpponentInternal` and `sendMessageToUser`. The model treats these calls as ordinary sequential calls.
- Failures of `getCurrentTurn` and `updateTurn` are not modelled. A read of an unknown game gives the empty nickname, as the source's error path does.
- Database.CheckMove: one `fails` flag stands for every SQL step of the transaction, and a failure always reports "error". In the source, a failed execution of the repeat-shot query is read as "not shot before", and the shot goes on.
- The source's `int` is 32 bits, and `toInt` turns a missing or non-numeric JSON field into 0. The model's integers are unbounded, and missing fields are explicit.
- The ship scan reads the Ship rows without an ORDER BY. The model takes table order (insertion order) as the order of the scan.
- TcpServer.Step: its own contract states only that the invariant is preserved. What each command does is stated on `OnRegister`, `HandleStartGame`, `HandlePlaceShip`, `OnReady`, `OnMakeMove` and `OnDisconnect`.
- Session.UnregisterClient: the statement that someone is told "exactly when another roster member remains" holds only when the roster has no empty nickname. The invariant guarantees that.
- Session.RosterOpponentOfPair: it assumes the roster has no duplicates. The invariant guarantees that too.

## Findings

| source | as written | input that shows it | evidently intended | confidence | as-written member | corrected member |
|---|---|---|---|---|---|---|
| func2serv.cpp:296-305 | `handleMakeMove` calls `checkMove`, which already inserts the Move row, and then calls `saveMove`, which inserts the same row again | bob has a horizontal three-cell ship at (0,0) in game 1 and it is alice's turn; alice shoots (0,0) and then (1,0); the second shot reports "sunk" although (2,0) was never shot | each shot stored once. `checkMove` stores the row in its own transaction, and `saveMove`'s comment describes it as called from `checkMove` | not executed; the handler is unreachable from the command loop, which handles make_move itself | Handlers.DoubleRecordSinksEarly | Handlers.HandleMakeMoveOnce |
