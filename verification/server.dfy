/** The server's command loop as a state machine over the session record and
    the store: registration, start_game and place_ship (through their
    handlers), the ready_to_battle and make_move branches the read loop
    handles itself, and the teardown when a connection closes. */
module TcpServer {
  import opened Types
  import opened Database
  import opened Session
  import opened Handlers

  /** A player wins once their sunk counter reaches this value. */
  const WinThreshold := 10

  /** Which store calls fail while one command runs. */
  datatype Faults = Faults(createFault: CreateFault, saveShipFails: bool, checkFails: bool)

  const NoFaults := Faults(NoCreateFault, false, false)

  /** A decoded client command. */
  datatype Cmd =
    | Register(nick: Nick, sock: Socket)                 // register or login
    | StartGame(nick: Nick)
    | PlaceShip(req: PlaceRequest)
    | ReadyToBattle(nick: Nick)
    | MakeMove(nick: Nick, gameId: int, x: int, y: int)
    | Disconnect(sock: Socket)

  /** What stays true of the session record and the store between commands. */
  predicate Inv(sv: Server, db: Store) {
    && Valid(db)
    && NoDuplicates(sv.players)
    && "" !in sv.players
    && (forall n :: n in sv.ready ==> n in sv.players)
    && (forall n :: n in sv.sunk ==> 0 <= sv.sunk[n] < WinThreshold)
    && (sv.gameId == NoGame || sv.gameId in db.games)
  }

  // ---------------------------------------------------------------------
  // register / login

  /** A non-empty nickname is recorded for the connection before the
      credentials are checked; the reply is the credential check's. */
  function OnRegister(sv: Server, db: Store, nick: Nick, sock: Socket): (r: Handled)
    ensures nick == "" ==> r == Handled(Rejected(NicknameEmpty), sv, db, [])
    ensures nick != "" ==> r == Handled(AuthReply, RegisterClient(sv, nick, sock), db, [])
    ensures Inv(sv, db) ==> Inv(r.sv, r.db)
  {
    if nick == "" then Handled(Rejected(NicknameEmpty), sv, db, [])
    else Handled(AuthReply, RegisterClient(sv, nick, sock), db, [])
  }

  // ---------------------------------------------------------------------
  // ready_to_battle

  /** Marks a roster member ready. Whenever the ready set then has exactly two
      members and a game exists, the turn is set to the first roster member and
      game_start is broadcast to every connected client. */
  function OnReady(sv: Server, db: Store, nick: Nick): (r: Handled)
    ensures nick == "" || nick !in sv.players ==> r == Handled(Rejected(NotRegistered), sv, db, [])
    ensures nick != "" && nick in sv.players ==>
              && r.reply == ReadyReceived
              && r.sv == sv.(ready := sv.ready + {nick})
              && (|r.sv.ready| == 2 && sv.gameId != NoGame ==>
                    && r.db == UpdateTurn(db, sv.gameId, sv.players[0])
                    && (sv.gameId in db.games ==> CurrentTurn(r.db, sv.gameId) == sv.players[0])
                    && r.events == [Broadcast(sv.clients.Keys, GameStart(sv.players[0]))])
              && (|r.sv.ready| != 2 || sv.gameId == NoGame ==> r.db == db && r.events == [])
    ensures Inv(sv, db) ==> Inv(r.sv, r.db)
  {
    if nick == "" || nick !in sv.players then Handled(Rejected(NotRegistered), sv, db, [])
    else
      var sv1 := sv.(ready := sv.ready + {nick});
      if |sv1.ready| == 2 && sv1.gameId != NoGame then
        var first := sv1.players[0];
        Handled(ReadyReceived, sv1, UpdateTurn(db, sv1.gameId, first), [Broadcast(sv1.clients.Keys, GameStart(first))])
      else Handled(ReadyReceived, sv1, db, [])
  }

  // ---------------------------------------------------------------------
  // make_move

  /** The shooter's sunk counter after a resolved shot; reading the counter
      creates it at zero when it is missing. */
  function CounterAfter(sunk: map<Nick, int>, nick: Nick, outcome: Outcome): int {
    GetOr(sunk, nick, 0) + (if outcome == Sunk then 1 else 0)
  }

  /** The game_over deliveries: to the winner, and to the opponent if there is one. */
  function GameOverEvents(winner: Nick, opponent: Nick): (evs: seq<Event>)
    ensures |evs| >= 1 && evs[0] == Notify(winner, GameOver(winner))
    ensures forall e :: e in evs ==> e.Notify? && e.msg == GameOver(winner)
    ensures opponent != "" <==> Notify(opponent, GameOver(winner)) in evs && |evs| == 2
    ensures opponent == "" ==> evs == [Notify(winner, GameOver(winner))]
  {
    if opponent != "" then [Notify(winner, GameOver(winner)), Notify(opponent, GameOver(winner))]
    else [Notify(winner, GameOver(winner))]
  }

  /** What follows a resolved shot, given the store the shot transaction left:
      the sinking is counted, a total of ten ends and resets the game, and the
      turn passes to the opponent only on a miss. */
  function AfterShot(sv: Server, db1: Store, nick: Nick, gid: int, x: int, y: int, outcome: Outcome): (r: Handled)
    ensures r.reply.MoveDone? && r.reply.outcome == outcome && r.reply.x == x && r.reply.y == y
    ensures r.db.ships == db1.ships && r.db.games.Keys == db1.games.Keys && r.db.moves == db1.moves
    ensures var won := CounterAfter(sv.sunk, nick, outcome) >= WinThreshold;
            var opponent := RosterOpponent(sv.players, nick);
            && (won ==>
                  && r.sv == ResetGame(sv)
                  && r.reply.turn == nick
                  && r.db == db1
                  && r.events == GameOverEvents(nick, opponent))
            && (!won ==>
                  && r.sv == sv.(sunk := sv.sunk[nick := CounterAfter(sv.sunk, nick, outcome)])
                  && r.reply.turn == (if outcome == Miss && opponent != "" then opponent else nick)
                  && (r.reply.turn == nick ==> r.db == db1)
                  && (r.reply.turn != nick ==> r.db == UpdateTurn(db1, gid, opponent))
                  && r.events == (if opponent != "" then [Notify(opponent, MoveResult(outcome, x, y, r.reply.turn))] else []))
    ensures CurrentTurn(db1, gid) == nick ==> r.db == UpdateTurn(db1, gid, r.reply.turn)
    ensures Inv(sv, db1) ==> Inv(r.sv, r.db)
  {
    UpdateTurnToHolder(db1, gid);
    var sv1 := sv.(sunk := sv.sunk[nick := CounterAfter(sv.sunk, nick, outcome)]);
    var won := sv1.sunk[nick] >= WinThreshold;
    var overEvents := if won then GameOverEvents(nick, RosterOpponent(sv1.players, nick)) else [];
    var sv2 := if won then ResetGame(sv1) else sv1;
    var opponent := RosterOpponent(sv2.players, nick);
    var passes := outcome != Hit && outcome != Sunk;
    var next := if opponent != "" && passes then opponent else nick;
    var db' := if opponent != "" && passes then UpdateTurn(db1, gid, opponent) else db1;
    var moveEvents := if opponent != "" then [Notify(opponent, MoveResult(outcome, x, y, next))] else [];
    Handled(MoveDone(outcome, x, y, next), sv2, db', overEvents + moveEvents)
  }

  /** The shot as the read loop handles it: only the stored turn holder may
      shoot; a resolved shot counts a sinking towards the shooter's total, a
      total of ten ends and resets the game, and the turn passes to the
      opponent only on a miss. */
  function OnMakeMove(sv: Server, db: Store, nick: Nick, gid: int, x: int, y: int, checkFails: bool): (r: Handled)
    ensures var shot := CheckMove(db, gid, nick, x, y, checkFails).0;
            && (CurrentTurn(db, gid) != nick ==> r == Handled(Rejected(NotYourTurn), sv, db, []))
            && (CurrentTurn(db, gid) == nick && shot == Failed ==> r == Handled(Rejected(MoveFailed), sv, db, []))
            && (CurrentTurn(db, gid) == nick && shot == AlreadyShot ==>
                  r == Handled(Rejected(CellAlreadyShot), sv, db, []))
            && (r.reply.Rejected? || r.reply.MoveDone?)
            && (r.reply.MoveDone? <==> CurrentTurn(db, gid) == nick && shot.Resolved?)
            && (r.reply.MoveDone? ==>
                  var o := r.reply.outcome;
                  var won := CounterAfter(sv.sunk, nick, o) >= WinThreshold;
                  var opponent := RosterOpponent(sv.players, nick);
                  && CurrentTurn(db, gid) == nick
                  && shot == Resolved(o)
                  && r.reply.x == x && r.reply.y == y
                  && r.db.ships == db.ships && r.db.games.Keys == db.games.Keys
                  && r.db.moves == db.moves + [Move(gid, nick, x, y, o)]
                  && r.db == UpdateTurn(db.(moves := r.db.moves), gid, r.reply.turn)
                  && (won ==>
                        && r.sv == ResetGame(sv)
                        && r.reply.turn == nick
                        && CurrentTurn(r.db, gid) == nick
                        && r.events == GameOverEvents(nick, opponent))
                  && (!won ==>
                        && r.sv.players == sv.players && r.sv.ready == sv.ready && r.sv.gameId == sv.gameId
                        && r.sv.clients == sv.clients && r.sv.nickOf == sv.nickOf
                        && r.sv.sunk == sv.sunk[nick := CounterAfter(sv.sunk, nick, o)]
                        && r.reply.turn == (if o == Miss && opponent != "" then opponent else nick)
                        && CurrentTurn(r.db, gid) == r.reply.turn
                        && r.events == (if opponent != "" then [Notify(opponent, MoveResult(o, x, y, r.reply.turn))] else [])))
    ensures Inv(sv, db) ==> Inv(r.sv, r.db)
  {
    var turn := CurrentTurn(db, gid);
    if turn != nick then Handled(Rejected(NotYourTurn), sv, db, [])
    else
      var checked := CheckMove(db, gid, nick, x, y, checkFails);
      match checked.0
      case Failed => Handled(Rejected(MoveFailed), sv, db, [])
      case AlreadyShot => Handled(Rejected(CellAlreadyShot), sv, db, [])
      case Resolved(outcome) =>
        assert checked.1 == db.(moves := db.moves + [Move(gid, nick, x, y, outcome)]);
        AfterShot(sv, checked.1, nick, gid, x, y, outcome)
  }

  /** Under the invariant the game ends exactly on a sinking shot that brings
      the shooter's counter from nine to ten. */
  lemma WinExactlyOnTenthSinking(sv: Server, db: Store, nick: Nick, o: Outcome)
    requires Inv(sv, db)
    ensures CounterAfter(sv.sunk, nick, o) >= WinThreshold <==> o == Sunk && GetOr(sv.sunk, nick, 0) == WinThreshold - 1
  {
    if nick in sv.sunk {
      assert 0 <= sv.sunk[nick] < WinThreshold;
    }
  }

  // ---------------------------------------------------------------------
  // connection closed

  /** A closed connection with a registered nickname drops that nickname's
      ready mark and counter and then unregisters the connection. */
  function OnDisconnect(sv: Server, db: Store, sock: Socket): (r: Handled)
    ensures r.reply == Silent && r.db == db
    ensures NickOf(sv, sock) == "" ==> r == Handled(Silent, sv, db, [])
    ensures NickOf(sv, sock) != "" ==>
              var nick := NickOf(sv, sock);
              && r.sv.clients == sv.clients - {nick}
              && r.sv.nickOf == sv.nickOf - {sock}
              && nick !in r.sv.players && nick !in r.sv.ready && nick !in r.sv.sunk
              && (Inv(sv, db) ==> r.sv.players == [] && r.sv.ready == {})
              && (r.events == [] ==>
                    && r.sv.players == RemoveAll(sv.players, nick)
                    && r.sv.ready == sv.ready - {nick}
                    && r.sv.sunk == sv.sunk - {nick}
                    && r.sv.gameId == sv.gameId)
              && (Inv(sv, db) ==> (r.events != [] <==> exists p :: p in sv.players && p != nick))
              && (Inv(sv, db) && (exists p :: p in sv.players && p != nick) ==>
                    && r.sv.gameId == NoGame && r.sv.sunk == map[]
                    && |r.events| == 1 && r.events[0].Notify? && r.events[0].msg == OpponentDisconnected
                    && r.events[0].to in sv.players && r.events[0].to != nick)
              && (r.events != [] ==> r.events == [Notify(RosterOpponent(sv.players, nick), OpponentDisconnected)])
    ensures Inv(sv, db) ==> Inv(r.sv, r.db)
  {
    var nick := NickOf(sv, sock);
    if nick == "" then Handled(Silent, sv, db, [])
    else
      var sv1 := sv.(ready := sv.ready - {nick}, sunk := sv.sunk - {nick});
      assert NickOf(sv1, sock) == nick;
      var u := UnregisterClient(sv1, sock);
      Handled(Silent, u.0, db, u.1)
  }

  // ---------------------------------------------------------------------
  // The whole machine

  /** start_game keeps the invariant, whichever statement of game creation fails. */
  lemma StartGameKeepsInv(sv: Server, db: Store, nick: Nick, fault: CreateFault)
    ensures Inv(sv, db) ==> var r := HandleStartGame(nick, sv, db, fault); Inv(r.sv, r.db)
  {
  }

  /** place_ship keeps the invariant: it touches only the Ship table. */
  lemma PlaceShipKeepsInv(sv: Server, db: Store, req: PlaceRequest, fails: bool)
    ensures Inv(sv, db) ==> var r := HandlePlaceShip(req, sv, db, fails); Inv(r.sv, r.db)
  {
  }

  /** One command against the session record and the store. */
  function Step(sv: Server, db: Store, cmd: Cmd, fx: Faults): (r: Handled)
    ensures Inv(sv, db) ==> Inv(r.sv, r.db)
  {
    match cmd
    case Register(nick, sock) => OnRegister(sv, db, nick, sock)
    case StartGame(nick) =>
      StartGameKeepsInv(sv, db, nick, fx.createFault);
      HandleStartGame(nick, sv, db, fx.createFault)
    case PlaceShip(req) =>
      PlaceShipKeepsInv(sv, db, req, fx.saveShipFails);
      HandlePlaceShip(req, sv, db, fx.saveShipFails)
    case ReadyToBattle(nick) => OnReady(sv, db, nick)
    case MakeMove(nick, gid, x, y) => OnMakeMove(sv, db, nick, gid, x, y, fx.checkFails)
    case Disconnect(sock) => OnDisconnect(sv, db, sock)
  }

  /** The machine's starting point: no connections, no roster, an empty store. */
  lemma InitialSatisfiesInv()
    ensures Inv(Initial, EmptyStore)
  {
  }
}
