/** The command handlers that the dispatcher calls for start_game, place_ship
    and make_move: game creation once two players have asked to start, the
    validation of a ship placement on the 10x10 board, and the handler-level
    shot with its turn rule. Each handler takes the session record and the
    store and returns the reply, the new session record and store, and the
    messages pushed to other players. */
module Handlers {
  import opened Types
  import opened Database
  import opened Session

  const BoardSize := 10
  const MinShipSize := 1
  const MaxShipSize := 4

  /** What a command handler produces. */
  datatype Handled = Handled(reply: Reply, sv: Server, db: Store, events: seq<Event>)

  // ---------------------------------------------------------------------
  // start_game

  /** Adds the caller to the roster; when that makes a roster of exactly two,
      creates a game with the caller as player1 (so the caller holds the
      stored turn), makes it the current game and tells both players. The
      caller's own reply is "waiting" either way. */
  function HandleStartGame(nick: Nick, sv: Server, db: Store, fault: CreateFault): (r: Handled)
    ensures nick == "" ==> r == Handled(Rejected(MissingNickname), sv, db, [])
    ensures nick != "" ==>
              && r.sv.players == AddPlayer(sv, nick).players
              && nick in r.sv.players
              && r.sv.clients == sv.clients && r.sv.nickOf == sv.nickOf && r.sv.ready == sv.ready
              && r.sv.sunk == AddPlayer(sv, nick).sunk
              && r.db.ships == db.ships && r.db.moves == db.moves
    ensures nick != "" && |r.sv.players| != 2 ==> r == Handled(Waiting, AddPlayer(sv, nick), db, [])
    ensures nick != "" && |r.sv.players| == 2 && fault == InsertFails ==>
              r == Handled(Rejected(GameCreateFailed), AddPlayer(sv, nick), db, [])
    ensures nick != "" && |r.sv.players| == 2 && fault == RowIdFails ==>
              && r.reply == Rejected(GameCreateFailed) && r.sv == AddPlayer(sv, nick) && r.events == []
              && r.db.lastGameId == db.lastGameId + 1
              && r.db.games == db.games[r.db.lastGameId := GameRow(nick, RosterOpponent(r.sv.players, nick), nick)]
    ensures nick != "" && |r.sv.players| == 2 && fault == NoCreateFault ==>
              var id := r.sv.gameId;
              var opponent := RosterOpponent(r.sv.players, nick);
              && r.reply == Waiting
              && id == db.lastGameId + 1 && r.db.lastGameId == id
              && r.db.games == db.games[id := GameRow(nick, opponent, nick)]
              && (NoDuplicates(sv.players) ==> opponent in r.sv.players && opponent != nick)
              && r.events == [Notify(nick, GameReady(id, opponent)), Notify(opponent, GameReady(id, nick))]
              && (Valid(db) ==> id !in db.games && Valid(r.db))
  {
    if nick == "" then Handled(Rejected(MissingNickname), sv, db, [])
    else
      var sv1 := AddPlayer(sv, nick);
      if |sv1.players| == 2 then
        var opponent := RosterOpponent(sv1.players, nick);
        RosterOpponentOfPair(sv1.players, nick);
        var created := CreateGame(db, nick, opponent, fault);
        var id := created.0;
        if id != -1 then
          Handled(Waiting, sv1.(gameId := id), created.1,
                  [Notify(nick, GameReady(id, opponent)), Notify(opponent, GameReady(id, nick))])
        else Handled(Rejected(GameCreateFailed), sv1, created.1, [])
      else Handled(Waiting, sv1, db, [])
  }

  // ---------------------------------------------------------------------
  // place_ship

  /** The fields of a place_ship request; `None` is a field the request lacks. */
  datatype PlaceRequest = PlaceRequest(
    nickname: Option<Nick>, gameId: Option<int>,
    x: Option<int>, y: Option<int>, size: Option<int>, horizontal: Option<bool>)

  predicate PlaceComplete(req: PlaceRequest) {
    req.nickname.Some? && req.gameId.Some? && req.x.Some? && req.y.Some? && req.size.Some? && req.horizontal.Some?
  }

  /** The ship a complete request describes. */
  function RequestedShip(req: PlaceRequest): Ship
    requires PlaceComplete(req)
  {
    Ship(req.gameId.value, req.nickname.value, req.x.value, req.y.value, req.size.value, req.horizontal.value)
  }

  /** The handler's coordinate and size checks, in the order it applies them. */
  function PlacementError(x: int, y: int, size: int, horizontal: bool): Option<Reason> {
    if x < 0 || y < 0 || size < MinShipSize || size > MaxShipSize || x >= BoardSize || y >= BoardSize then Some(InvalidShip)
    else if horizontal && x + size > BoardSize then Some(ExceedsHorizontal)
    else if !horizontal && y + size > BoardSize then Some(ExceedsVertical)
    else None
  }

  predicate OnBoard(c: (int, int)) {
    0 <= c.0 < BoardSize && 0 <= c.1 < BoardSize
  }

  /** The handler's checks pass exactly for a ship of size 1..4 every one of
      whose cells lies on the board. */
  lemma PlacementChecksIffOnBoard(s: Ship)
    ensures PlacementError(s.x, s.y, s.size, s.horizontal).None? <==>
              && MinShipSize <= s.size <= MaxShipSize
              && forall c :: c in ShipCells(s) ==> OnBoard(c)
  {
    if MinShipSize <= s.size <= MaxShipSize && forall c :: c in ShipCells(s) ==> OnBoard(c) {
      assert NthCell(s, 0) in ShipCells(s);
      assert NthCell(s, s.size - 1) in ShipCells(s);
    }
  }

  /** Validates a placement request and saves the ship once it passes. The
      placement is not compared with the player's earlier ships. */
  function HandlePlaceShip(req: PlaceRequest, sv: Server, db: Store, fails: bool): (r: Handled)
    ensures r.sv == sv && r.events == []
    ensures r.reply == ShipPlaced || r.reply.Rejected?
    ensures r.reply == ShipPlaced <==>
              && PlaceComplete(req)
              && req.nickname.value != ""
              && req.gameId.value == sv.gameId
              && PlacementError(req.x.value, req.y.value, req.size.value, req.horizontal.value).None?
              && !fails
    ensures r.reply == ShipPlaced ==>
              var s := RequestedShip(req);
              && r.db == db.(ships := db.ships + [s])
              && MinShipSize <= s.size <= MaxShipSize
              && forall cx, cy :: Covers(s, cx, cy) ==> OnBoard((cx, cy))
    ensures r.reply != ShipPlaced ==> r.db == db
    ensures r.reply == Rejected(MissingFields) <==> !PlaceComplete(req)
    ensures PlaceComplete(req) && req.nickname.value == "" ==> r.reply == Rejected(InvalidNickname)
    ensures PlaceComplete(req) && req.nickname.value != "" && req.gameId.value != sv.gameId ==>
              r.reply == Rejected(InvalidGameId)
    ensures PlaceComplete(req) && req.nickname.value != "" && req.gameId.value == sv.gameId ==>
              var e := PlacementError(req.x.value, req.y.value, req.size.value, req.horizontal.value);
              && (e.Some? ==> r.reply == Rejected(e.value))
              && (e.None? && fails ==> r.reply == Rejected(ShipSaveFailed))
  {
    if !PlaceComplete(req) then Handled(Rejected(MissingFields), sv, db, [])
    else if req.nickname.value == "" then Handled(Rejected(InvalidNickname), sv, db, [])
    else if req.gameId.value != sv.gameId then Handled(Rejected(InvalidGameId), sv, db, [])
    else match PlacementError(req.x.value, req.y.value, req.size.value, req.horizontal.value)
      case Some(e) => Handled(Rejected(e), sv, db, [])
      case None =>
        var s := RequestedShip(req);
        var saved := SaveShip(db, s.game, s.owner, s.x, s.y, s.size, s.horizontal, fails);
        if saved.0 then Handled(ShipPlaced, sv, saved.1, []) else Handled(Rejected(ShipSaveFailed), sv, db, [])
  }

  // ---------------------------------------------------------------------
  // make_move, handler version

  /** The fields of a make_move request; `None` is a field the request lacks. */
  datatype MoveRequest = MoveRequest(nickname: Option<Nick>, gameId: Option<int>, x: Option<int>, y: Option<int>)

  predicate MoveComplete(req: MoveRequest) {
    req.nickname.Some? && req.gameId.Some? && req.x.Some? && req.y.Some?
  }

  /** The make_move handler: checks the game id and the turn, resolves the
      shot, records the move a second time, and passes the turn to the
      opponent unless the shot hit or sank a ship. */
  function HandleMakeMove(req: MoveRequest, sv: Server, db: Store, checkFails: bool, saveFails: bool): (r: Handled)
    ensures r.sv == sv
    ensures r.reply.Rejected? || r.reply.MoveDone?
    ensures r.reply.Rejected? ==> r.db == db && r.events == []
    ensures !MoveComplete(req) ==> r.reply == Rejected(MissingFields)
    ensures MoveComplete(req) && req.gameId.value != sv.gameId ==> r.reply == Rejected(InvalidGameId)
    ensures MoveComplete(req) && req.gameId.value == sv.gameId ==>
              var nick := req.nickname.value;
              var gid := req.gameId.value;
              var x := req.x.value;
              var y := req.y.value;
              var shot := CheckMove(db, gid, nick, x, y, checkFails).0;
              && (CurrentTurn(db, gid) != nick ==> r.reply == Rejected(NotYourTurn))
              && (CurrentTurn(db, gid) == nick && shot == Failed ==> r.reply == Rejected(MoveFailed))
              && (CurrentTurn(db, gid) == nick && shot == AlreadyShot ==> r.reply == Rejected(CellAlreadyShot))
              && (r.reply.MoveDone? <==> CurrentTurn(db, gid) == nick && shot.Resolved?)
              && (r.reply.MoveDone? ==>
                    && CurrentTurn(db, gid) == nick
                    && shot == Resolved(r.reply.outcome)
                    && r.reply.x == x && r.reply.y == y
                    && r.reply.turn == (if r.reply.outcome == Miss then RosterOpponent(sv.players, nick) else nick)
                    && CurrentTurn(r.db, gid) == r.reply.turn
                    && r.db.games == UpdateTurn(db, gid, r.reply.turn).games && r.db.lastGameId == db.lastGameId
                    && r.db.ships == db.ships
                    && (!saveFails ==>
                          var m := Move(gid, nick, x, y, r.reply.outcome);
                          r.db.moves == db.moves + [m, m])
                    && (saveFails ==> r.db.moves == db.moves + [Move(gid, nick, x, y, r.reply.outcome)])
                    && r.events == [Notify(RosterOpponent(sv.players, nick),
                                           MoveResult(r.reply.outcome, x, y, r.reply.turn))])
  {
    if !MoveComplete(req) then Handled(Rejected(MissingFields), sv, db, [])
    else
      var nick := req.nickname.value;
      var gid := req.gameId.value;
      var x := req.x.value;
      var y := req.y.value;
      if gid != sv.gameId then Handled(Rejected(InvalidGameId), sv, db, [])
      else if CurrentTurn(db, gid) != nick then Handled(Rejected(NotYourTurn), sv, db, [])
      else
        var checked := CheckMove(db, gid, nick, x, y, checkFails);
        match checked.0
        case Failed => Handled(Rejected(MoveFailed), sv, db, [])
        case AlreadyShot => Handled(Rejected(CellAlreadyShot), sv, db, [])
        case Resolved(outcome) => SaveAndPass(sv, checked.1, nick, gid, x, y, outcome, saveFails)
  }

  /** The handler's steps after a resolved shot: the move is saved again, and
      the turn passes to the opponent unless the shot hit or sank a ship. */
  function SaveAndPass(sv: Server, db1: Store, nick: Nick, gid: int, x: int, y: int, outcome: Outcome,
                       saveFails: bool): (r: Handled)
    ensures var m := Move(gid, nick, x, y, outcome);
            && r.sv == sv
            && r.reply == MoveDone(outcome, x, y, if outcome == Miss then RosterOpponent(sv.players, nick) else nick)
            && (CurrentTurn(db1, gid) == nick ==> r.db.games == UpdateTurn(db1, gid, r.reply.turn).games)
            && r.db.lastGameId == db1.lastGameId && r.db.ships == db1.ships
            && r.db.moves == (if saveFails then db1.moves else db1.moves + [m])
            && r.events == [Notify(RosterOpponent(sv.players, nick), MoveResult(outcome, x, y, r.reply.turn))]
  {
    UpdateTurnToHolder(db1, gid);
    var saved := SaveMove(db1, gid, nick, x, y, outcome, saveFails);
    var opponent := RosterOpponent(sv.players, nick);
    var passes := outcome != Hit && outcome != Sunk;
    var next := if passes then opponent else nick;
    var db' := if passes then UpdateTurn(saved.1, gid, opponent) else saved.1;
    Handled(MoveDone(outcome, x, y, next), sv, db', [Notify(opponent, MoveResult(outcome, x, y, next))])
  }

  /** The make_move handler with every shot recorded once, by the shot
      transaction alone; otherwise the same checks, turn rule and messages. */
  function HandleMakeMoveOnce(req: MoveRequest, sv: Server, db: Store, checkFails: bool): (r: Handled)
    ensures r.sv == sv
    ensures r.reply.Rejected? || r.reply.MoveDone?
    ensures r.reply.Rejected? ==> r.db == db && r.events == []
    ensures !MoveComplete(req) ==> r.reply == Rejected(MissingFields)
    ensures MoveComplete(req) && req.gameId.value != sv.gameId ==> r.reply == Rejected(InvalidGameId)
    ensures MoveComplete(req) && req.gameId.value == sv.gameId ==>
              var nick := req.nickname.value;
              var gid := req.gameId.value;
              var x := req.x.value;
              var y := req.y.value;
              var shot := CheckMove(db, gid, nick, x, y, checkFails).0;
              && (CurrentTurn(db, gid) != nick ==> r.reply == Rejected(NotYourTurn))
              && (CurrentTurn(db, gid) == nick && shot == Failed ==> r.reply == Rejected(MoveFailed))
              && (CurrentTurn(db, gid) == nick && shot == AlreadyShot ==> r.reply == Rejected(CellAlreadyShot))
              && (r.reply.MoveDone? <==> CurrentTurn(db, gid) == nick && shot.Resolved?)
              && (r.reply.MoveDone? ==>
                    && CurrentTurn(db, gid) == nick
                    && shot == Resolved(r.reply.outcome)
                    && r.reply.x == x && r.reply.y == y
                    && r.reply.turn == (if r.reply.outcome == Miss then RosterOpponent(sv.players, nick) else nick)
                    && CurrentTurn(r.db, gid) == r.reply.turn
                    && r.db.games == UpdateTurn(db, gid, r.reply.turn).games && r.db.lastGameId == db.lastGameId
                    && r.db.ships == db.ships
                    && r.db.moves == db.moves + [Move(gid, nick, x, y, r.reply.outcome)]
                    && r.events == [Notify(RosterOpponent(sv.players, nick),
                                           MoveResult(r.reply.outcome, x, y, r.reply.turn))])
  {
    if !MoveComplete(req) then Handled(Rejected(MissingFields), sv, db, [])
    else
      var nick := req.nickname.value;
      var gid := req.gameId.value;
      var x := req.x.value;
      var y := req.y.value;
      if gid != sv.gameId then Handled(Rejected(InvalidGameId), sv, db, [])
      else if CurrentTurn(db, gid) != nick then Handled(Rejected(NotYourTurn), sv, db, [])
      else
        var checked := CheckMove(db, gid, nick, x, y, checkFails);
        match checked.0
        case Failed => Handled(Rejected(MoveFailed), sv, db, [])
        case AlreadyShot => Handled(Rejected(CellAlreadyShot), sv, db, [])
        case Resolved(outcome) =>
          var opponent := RosterOpponent(sv.players, nick);
          var passes := outcome != Hit && outcome != Sunk;
          var next := if passes then opponent else nick;
          var db' := if passes then UpdateTurn(checked.1, gid, opponent) else checked.1;
          Handled(MoveDone(outcome, x, y, next), sv, db', [Notify(opponent, MoveResult(outcome, x, y, next))])
  }

  /** A shot the handler resolves leaves one Move row per shot, so a ship's
      hit count never runs ahead of the distinct cells shot inside it: the
      corrected handler keeps the row count the shot transaction promises. */
  lemma {:induction false} OnceKeepsHitCount(req: MoveRequest, sv: Server, db: Store, s: Ship)
    requires MoveComplete(req)
    ensures var r := HandleMakeMoveOnce(req, sv, db, false);
            var nick := req.nickname.value;
            r.reply.MoveDone? ==>
              PriorHits(r.db.moves, req.gameId.value, nick, s)
              <= PriorHits(db.moves, req.gameId.value, nick, s) + 1
  {
    var r := HandleMakeMoveOnce(req, sv, db, false);
    if r.reply.MoveDone? {
      var m := Move(req.gameId.value, req.nickname.value, req.x.value, req.y.value, r.reply.outcome);
      PriorHitsAppend(db.moves, m, req.gameId.value, req.nickname.value, s);
    }
  }

  // ---------------------------------------------------------------------
  // The double record, on a concrete game

  /** bob owns a three-cell ship at (0, 0)-(2, 0) in game 1, and it is alice's turn. */
  const LongShip := Ship(1, "bob", 0, 0, 3, true)
  const DuelServer := Server(map[], map[], ["alice", "bob"], {}, map[], 1)
  const DuelStore := Store(map[1 := GameRow("bob", "alice", "alice")], 1, [LongShip], [])

  function Shot(x: int, y: int): MoveRequest {
    MoveRequest(Some("alice"), Some(1), Some(x), Some(y))
  }

  /** As written, alice's first hit on the three-cell ship leaves two identical Move rows. */
  lemma FirstHitStoredTwice()
    ensures var first := HandleMakeMove(Shot(0, 0), DuelServer, DuelStore, false, false);
            var m := Move(1, "alice", 0, 0, Hit);
            first.reply == MoveDone(Hit, 0, 0, "alice") && first.db == DuelStore.(moves := [m, m])
  {
    var m := Move(1, "alice", 0, 0, Hit);
    assert ShipIndex([LongShip], 1, "bob", 0, 0) == Some(0);
    assert GameOpponent(DuelStore.games[1], "alice") == "bob";
    assert CheckMove(DuelStore, 1, "alice", 0, 0, false) == (Resolved(Hit), DuelStore.(moves := [m])) by {
      assert PriorHits([], 1, "alice", LongShip) == 0;
      assert [] + [m] == [m];
    }
    assert [m] + [m] == [m, m];
  }

  /** With the first hit stored twice, the second hit reports the ship sunk
      and the ship's third cell has not been shot at. */
  lemma SecondHitSinks()
    ensures var m := Move(1, "alice", 0, 0, Hit);
            var second := HandleMakeMove(Shot(1, 0), DuelServer, DuelStore.(moves := [m, m]), false, false);
            && second.reply.MoveDone? && second.reply.outcome == Sunk
            && !ShotBefore(second.db.moves, 1, "alice", 2, 0)
  {
    var m := Move(1, "alice", 0, 0, Hit);
    var db1 := DuelStore.(moves := [m, m]);
    assert GameOpponent(db1.games[1], "alice") == "bob";
    assert !ShotBefore([m, m], 1, "alice", 1, 0);
    assert ShipIndex([LongShip], 1, "bob", 1, 0) == Some(0);
    assert PriorHits([m, m], 1, "alice", LongShip) == 2 by {
      assert [m, m][..1] == [m];
      assert [m][..0] == [];
    }
    var m2 := Move(1, "alice", 1, 0, Sunk);
    assert CheckMove(db1, 1, "alice", 1, 0, false) == (Resolved(Sunk), db1.(moves := [m, m, m2])) by {
      assert [m, m] + [m2] == [m, m, m2];
    }
    assert [m, m, m2] + [m2] == [m, m, m2, m2];
  }

  /** As written, two hits on a three-cell ship sink it: the second hit is
      reported as "sunk" while the cell (2, 0) of the ship is still untouched. */
  lemma DoubleRecordSinksEarly(sv: Server, db: Store)
    requires sv == DuelServer && db == DuelStore
    ensures var first := HandleMakeMove(Shot(0, 0), sv, db, false, false);
            var second := HandleMakeMove(Shot(1, 0), sv, first.db, false, false);
            && first.reply == MoveDone(Hit, 0, 0, "alice")
            && second.reply.MoveDone? && second.reply.outcome == Sunk
            && Covers(LongShip, 2, 0) && !ShotBefore(second.db.moves, 1, "alice", 2, 0)
  {
    FirstHitStoredTwice();
    SecondHitSinks();
  }

  /** Recorded once, alice's first hit on the three-cell ship leaves one Move row. */
  lemma FirstHitStoredOnce()
    ensures var first := HandleMakeMoveOnce(Shot(0, 0), DuelServer, DuelStore, false);
            first.reply == MoveDone(Hit, 0, 0, "alice")
            && first.db == DuelStore.(moves := [Move(1, "alice", 0, 0, Hit)])
  {
    var m := Move(1, "alice", 0, 0, Hit);
    assert ShipIndex([LongShip], 1, "bob", 0, 0) == Some(0);
    assert GameOpponent(DuelStore.games[1], "alice") == "bob";
    assert CheckMove(DuelStore, 1, "alice", 0, 0, false) == (Resolved(Hit), DuelStore.(moves := [m])) by {
      assert PriorHits([], 1, "alice", LongShip) == 0;
      assert [] + [m] == [m];
    }
  }

  /** After one recorded hit, the second hit on the three-cell ship is a hit. */
  lemma SecondHitHits()
    ensures var db1 := DuelStore.(moves := [Move(1, "alice", 0, 0, Hit)]);
            HandleMakeMoveOnce(Shot(1, 0), DuelServer, db1, false).reply == MoveDone(Hit, 1, 0, "alice")
  {
    var m := Move(1, "alice", 0, 0, Hit);
    var db1 := DuelStore.(moves := [m]);
    assert GameOpponent(db1.games[1], "alice") == "bob";
    assert !ShotBefore([m], 1, "alice", 1, 0);
    assert ShipIndex([LongShip], 1, "bob", 1, 0) == Some(0);
    assert PriorHits([m], 1, "alice", LongShip) == 1 by {
      assert [m][..0] == [];
    }
    assert CheckMove(db1, 1, "alice", 1, 0, false).0 == Resolved(Hit);
  }

  /** Recorded once, the same two shots are two hits, and the ship is not sunk. */
  lemma SingleRecordCountsHits()
    ensures var first := HandleMakeMoveOnce(Shot(0, 0), DuelServer, DuelStore, false);
            var second := HandleMakeMoveOnce(Shot(1, 0), DuelServer, first.db, false);
            && first.reply == MoveDone(Hit, 0, 0, "alice")
            && second.reply == MoveDone(Hit, 1, 0, "alice")
  {
    FirstHitStoredOnce();
    SecondHitHits();
  }
}
