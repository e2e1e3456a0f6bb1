/** Properties of runs of several commands: every state a run reaches keeps
    the invariant, who holds the first turn, what a repeated ready does, and
    a complete two-player exchange. */
module Scenarios {
  import opened Types
  import opened Database
  import opened Session
  import opened Handlers
  import opened TcpServer

  /** Runs commands one after another without store failures, collecting the replies. */
  function Run(sv: Server, db: Store, cmds: seq<Cmd>): (r: (seq<Reply>, Server, Store))
    ensures |r.0| == |cmds|
    ensures Inv(sv, db) ==> Inv(r.1, r.2)
    decreases |cmds|
  {
    if |cmds| == 0 then ([], sv, db)
    else
      var h := Step(sv, db, cmds[0], NoFaults);
      var rest := Run(h.sv, h.db, cmds[1..]);
      ([h.reply] + rest.0, rest.1, rest.2)
  }

  /** Runs commands one after another, command i meeting the store failures
      fxs[i], collecting the replies. */
  function RunWith(sv: Server, db: Store, cmds: seq<Cmd>, fxs: seq<Faults>): (r: (seq<Reply>, Server, Store))
    requires |fxs| == |cmds|
    ensures |r.0| == |cmds|
    ensures Inv(sv, db) ==> Inv(r.1, r.2)
    decreases |cmds|
  {
    if |cmds| == 0 then ([], sv, db)
    else
      var h := Step(sv, db, cmds[0], fxs[0]);
      var rest := RunWith(h.sv, h.db, cmds[1..], fxs[1..]);
      ([h.reply] + rest.0, rest.1, rest.2)
  }

  /** A run without store failures is the run whose every command meets no failure. */
  lemma {:induction false} RunIsFaultFree(sv: Server, db: Store, cmds: seq<Cmd>, fxs: seq<Faults>)
    requires |fxs| == |cmds|
    requires forall i :: 0 <= i < |fxs| ==> fxs[i] == NoFaults
    ensures RunWith(sv, db, cmds, fxs) == Run(sv, db, cmds)
    decreases |cmds|
  {
    if |cmds| > 0 {
      var h := Step(sv, db, cmds[0], NoFaults);
      RunIsFaultFree(h.sv, h.db, cmds[1..], fxs[1..]);
    }
  }

  /** Every state reachable from the initial one keeps the invariant, whatever
      store failures the commands meet: no duplicate or empty nickname in the
      roster, only roster members ready, sunk counters below ten, and the
      current game present in the store. */
  lemma ReachableStatesKeepInv(cmds: seq<Cmd>, fxs: seq<Faults>)
    requires |fxs| == |cmds|
    ensures var r := RunWith(Initial, EmptyStore, cmds, fxs); Inv(r.1, r.2)
  {
    InitialSatisfiesInv();
  }

  /** The first arrival waits: no game yet, nothing pushed to anyone. */
  lemma FirstArrivalWaits(sv: Server, db: Store, a: Nick)
    requires sv.players == [] && a != ""
    ensures HandleStartGame(a, sv, db, NoCreateFault) == Handled(Waiting, AddPlayer(sv, a), db, [])
    ensures AddPlayer(sv, a).players == [a]
  {
  }

  /** The second arrival creates the game as its player1, holding the stored
      turn, and both players learn the game id and each other's nickname. */
  lemma SecondArrivalCreatesGame(sv: Server, db: Store, a: Nick, b: Nick)
    requires Inv(sv, db) && sv.players == [a] && sv.ready == {}
    requires b != "" && a != b
    ensures var s := HandleStartGame(b, sv, db, NoCreateFault);
            && s.reply == Waiting
            && s.sv.players == [a, b] && s.sv.ready == {} && s.sv.clients == sv.clients
            && s.sv.gameId in s.db.games
            && s.db.games[s.sv.gameId] == GameRow(b, a, b)
            && s.events == [Notify(b, GameReady(s.sv.gameId, a)), Notify(a, GameReady(s.sv.gameId, b))]
  {
    assert AddPlayer(sv, b).players == [a, b];
    assert RosterOpponent([a, b], b) == a;
  }

  /** The second ready of a fresh pair hands the turn to the first roster member. */
  lemma SecondReadyStarts(sv: Server, db: Store, a: Nick, b: Nick)
    requires sv.players == [a, b] && sv.ready == {} && a != b && a != "" && b != ""
    requires sv.gameId in db.games && sv.gameId != NoGame
    ensures var s3 := OnReady(sv, db, a);
            var s4 := OnReady(s3.sv, s3.db, b);
            && s3.events == [] && s3.db == db
            && s4.events == [Broadcast(sv.clients.Keys, GameStart(a))]
            && CurrentTurn(s4.db, sv.gameId) == a && s4.sv.gameId == sv.gameId
  {
    var s3 := OnReady(sv, db, a);
    assert s3.sv.ready == {a};
    var s4 := OnReady(s3.sv, s3.db, b);
    assert s4.sv.ready == {a, b};
  }

  /** The first arrival gets the first turn, although the game row is created
      with the second arrival as player1 holding the stored turn: the second
      ready overwrites the turn with the first roster member. */
  lemma FirstTurnGoesToFirstArrival(sv: Server, db: Store, a: Nick, b: Nick)
    requires Inv(sv, db) && sv.players == [] && sv.ready == {}
    requires a != "" && b != "" && a != b
    ensures var s1 := HandleStartGame(a, sv, db, NoCreateFault);
            var s2 := HandleStartGame(b, s1.sv, s1.db, NoCreateFault);
            var s4 := OnReady(OnReady(s2.sv, s2.db, a).sv, OnReady(s2.sv, s2.db, a).db, b);
            && GameOpponent(s2.db.games[s2.sv.gameId], a) == b
            && s2.db.games[s2.sv.gameId].turn == b
            && CurrentTurn(s4.db, s4.sv.gameId) == a
  {
    FirstArrivalWaits(sv, db, a);
    var s1 := HandleStartGame(a, sv, db, NoCreateFault);
    SecondArrivalCreatesGame(s1.sv, s1.db, a, b);
    var s2 := HandleStartGame(b, s1.sv, s1.db, NoCreateFault);
    SecondReadyStarts(s2.sv, s2.db, a, b);
  }

  /** The shot branch never looks at readiness: right after the game is
      created its stored turn is the second arrival's, whose shot is then
      resolved before either player has declared ready. */
  lemma SecondArrivalMayShootBeforeReady(sv: Server, db: Store, a: Nick, b: Nick, x: int, y: int)
    requires Inv(sv, db) && sv.players == [a] && sv.ready == {}
    requires b != "" && a != b
    ensures var s := HandleStartGame(b, sv, db, NoCreateFault);
            var shot := OnMakeMove(s.sv, s.db, b, s.sv.gameId, x, y, false);
            && s.sv.ready == {}
            && shot.reply != Rejected(NotYourTurn) && shot.reply != Rejected(MoveFailed)
            && (!ShotBefore(s.db.moves, s.sv.gameId, b, x, y) ==> shot.reply.MoveDone?)
  {
    SecondArrivalCreatesGame(sv, db, a, b);
  }

  /** A ready declaration after both players are ready fires the start again:
      game_start is broadcast a second time and the turn goes back to the
      first roster member, whoever held it. */
  lemma RepeatedReadyRefires(sv: Server, db: Store, nick: Nick)
    requires Inv(sv, db) && |sv.ready| == 2 && sv.gameId != NoGame && nick in sv.ready
    ensures var r := OnReady(sv, db, nick);
            && r.sv == sv
            && r.reply == ReadyReceived
            && r.events == [Broadcast(sv.clients.Keys, GameStart(sv.players[0]))]
            && CurrentTurn(r.db, sv.gameId) == sv.players[0]
  {
    assert sv.ready + {nick} == sv.ready;
  }

  // ---------------------------------------------------------------------
  // A complete exchange between "alice" and "bob"

  const Clients := map["alice" := 1, "bob" := 2]
  const Sockets := map[1 := "alice", 2 := "bob"]
  const BobShip := Ship(1, "bob", 3, 3, 2, true)

  /** The session record of the exchange once both players are connected. */
  function Lobby(players: seq<Nick>, ready: set<Nick>, aliceSunk: int, gameId: int): Server {
    Server(Clients, Sockets, players, ready, map["alice" := aliceSunk, "bob" := 0], gameId)
  }

  /** The store of the exchange once the game exists, given whose turn it is and the moves so far. */
  function Table(turn: Nick, ships: seq<Ship>, moves: seq<Move>): Store {
    Store(map[1 := GameRow("bob", "alice", turn)], 1, ships, moves)
  }

  const BobPlaces := PlaceRequest(Some("bob"), Some(1), Some(3), Some(3), Some(2), Some(true))

  /** The state the exchange ends in. */
  const FinalServer := Lobby(["alice", "bob"], {"alice", "bob"}, 1, 1)
  const FinalStore := Table("alice", [BobShip], [AliceHit, AliceSink, AliceMiss, BobMiss])

  /** The Move rows the exchange records, in order. */
  const AliceHit := Move(1, "alice", 3, 3, Hit)
  const AliceSink := Move(1, "alice", 4, 3, Sunk)
  const AliceMiss := Move(1, "alice", 0, 0, Miss)
  const BobMiss := Move(1, "bob", 3, 3, Miss)

  const Exchange := [
    Register("alice", 1), Register("bob", 2),
    StartGame("alice"), StartGame("bob"),
    PlaceShip(BobPlaces),
    ReadyToBattle("alice"), ReadyToBattle("bob"),
    MakeMove("alice", 1, 3, 3), MakeMove("alice", 1, 4, 3),
    MakeMove("alice", 1, 3, 3), MakeMove("bob", 1, 0, 0),
    MakeMove("alice", 1, 0, 0), MakeMove("bob", 1, 3, 3)]

  const ExchangeReplies := [
    AuthReply, AuthReply, Waiting, Waiting, ShipPlaced, ReadyReceived, ReadyReceived,
    MoveDone(Hit, 3, 3, "alice"), MoveDone(Sunk, 4, 3, "alice"),
    Rejected(CellAlreadyShot), Rejected(NotYourTurn),
    MoveDone(Miss, 0, 0, "bob"), MoveDone(Miss, 3, 3, "alice")]

  /** A shot of game 1 that is resolved and does not win: the reply, the
      counters and the store follow from the shot transaction's result. */
  lemma ResolvedShot(sv: Server, db: Store, nick: Nick, x: int, y: int, o: Outcome, db1: Store)
    requires CurrentTurn(db, 1) == nick
    requires CheckMove(db, 1, nick, x, y, false) == (Resolved(o), db1)
    requires CounterAfter(sv.sunk, nick, o) < WinThreshold
    ensures var r := Step(sv, db, MakeMove(nick, 1, x, y), NoFaults);
            var opponent := RosterOpponent(sv.players, nick);
            var passes := o == Miss && opponent != "";
            && r.reply == MoveDone(o, x, y, if passes then opponent else nick)
            && r.sv == sv.(sunk := sv.sunk[nick := CounterAfter(sv.sunk, nick, o)])
            && r.db == (if passes then UpdateTurn(db1, 1, opponent) else db1)
  {
  }

  /** alice's first shot lands on bob's two-cell ship, which has taken no hits yet. */
  lemma AliceHits()
    ensures CheckMove(Table("alice", [BobShip], []), 1, "alice", 3, 3, false)
            == (Resolved(Hit), Table("alice", [BobShip], [AliceHit]))
  {
    var db := Table("alice", [BobShip], []);
    assert ShipIndex([BobShip], 1, "bob", 3, 3) == Some(0);
    assert PriorHits([], 1, "alice", BobShip) == 0;
    assert [] + [AliceHit] == [AliceHit];
    assert GameOpponent(db.games[1], "alice") == "bob";
  }

  /** alice's second shot is the ship's second distinct cell and sinks it. */
  lemma AliceSinks()
    ensures CheckMove(Table("alice", [BobShip], [AliceHit]), 1, "alice", 4, 3, false)
            == (Resolved(Sunk), Table("alice", [BobShip], [AliceHit, AliceSink]))
  {
    var db := Table("alice", [BobShip], [AliceHit]);
    assert !ShotBefore([AliceHit], 1, "alice", 4, 3);
    assert ShipIndex([BobShip], 1, "bob", 4, 3) == Some(0);
    assert PriorHits([AliceHit], 1, "alice", BobShip) == 1 by {
      assert [AliceHit][..0] == [];
    }
    assert [AliceHit] + [AliceSink] == [AliceHit, AliceSink];
    assert GameOpponent(db.games[1], "alice") == "bob";
  }

  /** alice's shot at (0, 0) finds no ship of bob's. */
  lemma AliceMisses()
    ensures CheckMove(Table("alice", [BobShip], [AliceHit, AliceSink]), 1, "alice", 0, 0, false)
            == (Resolved(Miss), Table("alice", [BobShip], [AliceHit, AliceSink, AliceMiss]))
  {
    var db := Table("alice", [BobShip], [AliceHit, AliceSink]);
    assert !ShotBefore([AliceHit, AliceSink], 1, "alice", 0, 0);
    assert ShipIndex([BobShip], 1, "bob", 0, 0) == None;
    assert [AliceHit, AliceSink] + [AliceMiss] == [AliceHit, AliceSink, AliceMiss];
    assert GameOpponent(db.games[1], "alice") == "bob";
  }

  /** bob's shot at (3, 3) looks for alice's ships there, finds none, and is a
      miss, although his own ship lies there and alice already shot that cell. */
  lemma BobShotAtOwnShipMisses()
    ensures CheckMove(Table("bob", [BobShip], [AliceHit, AliceSink, AliceMiss]), 1, "bob", 3, 3, false)
            == (Resolved(Miss), Table("bob", [BobShip], [AliceHit, AliceSink, AliceMiss, BobMiss]))
  {
    var m := [AliceHit, AliceSink, AliceMiss];
    var db := Table("bob", [BobShip], m);
    assert !ShotBefore(m, 1, "bob", 3, 3);
    assert GameOpponent(db.games[1], "bob") == "alice";
    assert ShipIndex([BobShip], 1, "alice", 3, 3) == None;
    assert m + [BobMiss] == [AliceHit, AliceSink, AliceMiss, BobMiss];
  }

  /** alice's sinking shot takes her counter from zero to one. */
  lemma SinkingCounts()
    ensures var sunk := Lobby(["alice", "bob"], {"alice", "bob"}, 0, 1).sunk;
            && CounterAfter(sunk, "alice", Sunk) == 1
            && sunk["alice" := 1] == Lobby(["alice", "bob"], {"alice", "bob"}, 1, 1).sunk
  {
  }

  /** A miss in the exchange hands the turn from the shooter to the other player. */
  lemma TurnPasses(shooter: Nick, other: Nick, moves: seq<Move>)
    requires {shooter, other} == {"alice", "bob"} && shooter != other
    ensures RosterOpponent(["alice", "bob"], shooter) == other
    ensures UpdateTurn(Table(shooter, [BobShip], moves), 1, other) == Table(other, [BobShip], moves)
  {
    var db := Table(shooter, [BobShip], moves);
    assert db.games[1 := db.games[1].(turn := other)] == map[1 := GameRow("bob", "alice", other)];
  }

  // Each command of the exchange, on the state before it. The states are
  // passed in as arguments so that the verifier evaluates the handlers only
  // as far as each proof needs.

  lemma ExchangeStep0(sv: Server, db: Store)
    requires sv == Initial
    requires db == EmptyStore
    ensures var h := Step(sv, db, Register("alice", 1), NoFaults);
            && h.reply == AuthReply
            && h.sv == Server(map["alice" := 1], map[1 := "alice"], [], {}, map["alice" := 0], NoGame)
            && h.db == EmptyStore
  {
  }

  lemma ExchangeStep1(sv: Server, db: Store)
    requires sv == Server(map["alice" := 1], map[1 := "alice"], [], {}, map["alice" := 0], NoGame)
    requires db == EmptyStore
    ensures var h := Step(sv, db, Register("bob", 2), NoFaults);
            && h.reply == AuthReply
            && h.sv == Lobby([], {}, 0, NoGame)
            && h.db == EmptyStore
  {
  }

  lemma ExchangeStep2(sv: Server, db: Store)
    requires sv == Lobby([], {}, 0, NoGame)
    requires db == EmptyStore
    ensures var h := Step(sv, db, StartGame("alice"), NoFaults);
            && h.reply == Waiting
            && h.sv == Lobby(["alice"], {}, 0, NoGame)
            && h.db == EmptyStore
  {
    assert sv.sunk["alice" := 0] == sv.sunk;
    assert [] + ["alice"] == ["alice"];
  }

  lemma ExchangeStep3(sv: Server, db: Store)
    requires sv == Lobby(["alice"], {}, 0, NoGame)
    requires db == EmptyStore
    ensures var h := Step(sv, db, StartGame("bob"), NoFaults);
            && h.reply == Waiting
            && h.sv == Lobby(["alice", "bob"], {}, 0, 1)
            && h.db == Table("bob", [], [])
  {
    var sv1 := Lobby(["alice", "bob"], {}, 0, NoGame);
    assert AddPlayer(sv, "bob") == sv1 by {
      assert ["alice"] + ["bob"] == ["alice", "bob"];
      assert sv.sunk["bob" := 0] == sv.sunk;
    }
    assert RosterOpponent(sv1.players, "bob") == "alice";
    assert CreateGame(db, "bob", "alice", NoCreateFault) == (1, Table("bob", [], []));
  }

  lemma ExchangeStep4(sv: Server, db: Store)
    requires sv == Lobby(["alice", "bob"], {}, 0, 1)
    requires db == Table("bob", [], [])
    ensures var h := Step(sv, db, PlaceShip(BobPlaces), NoFaults);
            && h.reply == ShipPlaced
            && h.sv == Lobby(["alice", "bob"], {}, 0, 1)
            && h.db == Table("bob", [BobShip], [])
  {
    assert PlacementError(3, 3, 2, true) == None;
    assert RequestedShip(BobPlaces) == BobShip;
    assert [] + [BobShip] == [BobShip];
  }

  lemma ExchangeStep5(sv: Server, db: Store)
    requires sv == Lobby(["alice", "bob"], {}, 0, 1)
    requires db == Table("bob", [BobShip], [])
    ensures var h := Step(sv, db, ReadyToBattle("alice"), NoFaults);
            && h.reply == ReadyReceived
            && h.sv == Lobby(["alice", "bob"], {"alice"}, 0, 1)
            && h.db == Table("bob", [BobShip], [])
  {
  }

  lemma ExchangeStep6(sv: Server, db: Store)
    requires sv == Lobby(["alice", "bob"], {"alice"}, 0, 1)
    requires db == Table("bob", [BobShip], [])
    ensures var h := Step(sv, db, ReadyToBattle("bob"), NoFaults);
            && h.reply == ReadyReceived
            && h.sv == Lobby(["alice", "bob"], {"alice", "bob"}, 0, 1)
            && h.db == Table("alice", [BobShip], [])
  {
    assert sv.ready + {"bob"} == {"alice", "bob"};
    assert |{"alice", "bob"}| == 2;
    assert UpdateTurn(db, 1, "alice") == Table("alice", [BobShip], []) by {
      assert db.games[1 := db.games[1].(turn := "alice")] == map[1 := GameRow("bob", "alice", "alice")];
    }
  }

  lemma ExchangeStep7(sv: Server, db: Store)
    requires sv == Lobby(["alice", "bob"], {"alice", "bob"}, 0, 1)
    requires db == Table("alice", [BobShip], [])
    ensures var h := Step(sv, db, MakeMove("alice", 1, 3, 3), NoFaults);
            && h.reply == MoveDone(Hit, 3, 3, "alice")
            && h.sv == Lobby(["alice", "bob"], {"alice", "bob"}, 0, 1)
            && h.db == Table("alice", [BobShip], [AliceHit])
  {
    AliceHits();
    ResolvedShot(sv, db, "alice", 3, 3, Hit, Table("alice", [BobShip], [AliceHit]));
    assert sv.sunk["alice" := 0] == sv.sunk;
  }

  lemma ExchangeStep8(sv: Server, db: Store)
    requires sv == Lobby(["alice", "bob"], {"alice", "bob"}, 0, 1)
    requires db == Table("alice", [BobShip], [AliceHit])
    ensures var h := Step(sv, db, MakeMove("alice", 1, 4, 3), NoFaults);
            && h.reply == MoveDone(Sunk, 4, 3, "alice")
            && h.sv == Lobby(["alice", "bob"], {"alice", "bob"}, 1, 1)
            && h.db == Table("alice", [BobShip], [AliceHit, AliceSink])
  {
    AliceSinks();
    SinkingCounts();
    ResolvedShot(sv, db, "alice", 4, 3, Sunk, Table("alice", [BobShip], [AliceHit, AliceSink]));
  }

  lemma ExchangeStep9(sv: Server, db: Store)
    requires sv == Lobby(["alice", "bob"], {"alice", "bob"}, 1, 1)
    requires db == Table("alice", [BobShip], [AliceHit, AliceSink])
    ensures var h := Step(sv, db, MakeMove("alice", 1, 3, 3), NoFaults);
            && h.reply == Rejected(CellAlreadyShot)
            && h.sv == Lobby(["alice", "bob"], {"alice", "bob"}, 1, 1)
            && h.db == Table("alice", [BobShip], [AliceHit, AliceSink])
  {
    assert AliceHit in db.moves;
  }

  lemma ExchangeStep10(sv: Server, db: Store)
    requires sv == Lobby(["alice", "bob"], {"alice", "bob"}, 1, 1)
    requires db == Table("alice", [BobShip], [AliceHit, AliceSink])
    ensures var h := Step(sv, db, MakeMove("bob", 1, 0, 0), NoFaults);
            && h.reply == Rejected(NotYourTurn)
            && h.sv == Lobby(["alice", "bob"], {"alice", "bob"}, 1, 1)
            && h.db == Table("alice", [BobShip], [AliceHit, AliceSink])
  {
  }

  lemma ExchangeStep11(sv: Server, db: Store)
    requires sv == Lobby(["alice", "bob"], {"alice", "bob"}, 1, 1)
    requires db == Table("alice", [BobShip], [AliceHit, AliceSink])
    ensures var h := Step(sv, db, MakeMove("alice", 1, 0, 0), NoFaults);
            && h.reply == MoveDone(Miss, 0, 0, "bob")
            && h.sv == Lobby(["alice", "bob"], {"alice", "bob"}, 1, 1)
            && h.db == Table("bob", [BobShip], [AliceHit, AliceSink, AliceMiss])
  {
    var checked := Table("alice", [BobShip], [AliceHit, AliceSink, AliceMiss]);
    AliceMisses();
    TurnPasses("alice", "bob", [AliceHit, AliceSink, AliceMiss]);
    ResolvedShot(sv, db, "alice", 0, 0, Miss, checked);
    assert sv.sunk["alice" := 1] == sv.sunk;
  }

  lemma ExchangeStep12(sv: Server, db: Store)
    requires sv == Lobby(["alice", "bob"], {"alice", "bob"}, 1, 1)
    requires db == Table("bob", [BobShip], [AliceHit, AliceSink, AliceMiss])
    ensures var h := Step(sv, db, MakeMove("bob", 1, 3, 3), NoFaults);
            && h.reply == MoveDone(Miss, 3, 3, "alice")
            && h.sv == Lobby(["alice", "bob"], {"alice", "bob"}, 1, 1)
            && h.db == Table("alice", [BobShip], [AliceHit, AliceSink, AliceMiss, BobMiss])
  {
    var checked := Table("bob", [BobShip], [AliceHit, AliceSink, AliceMiss, BobMiss]);
    BobShotAtOwnShipMisses();
    TurnPasses("bob", "alice", [AliceHit, AliceSink, AliceMiss, BobMiss]);
    ResolvedShot(sv, db, "bob", 3, 3, Miss, checked);
    assert sv.sunk["bob" := 0] == sv.sunk;
  }

  /** A slice that starts inside a sequence is its first element and the rest. */
  lemma SliceStep<T>(s: seq<T>, k: nat)
    requires k < |s|
    ensures s[k..] == [s[k]] + s[k + 1..]
    ensures s[k..][0] == s[k] && s[k..][1..] == s[k + 1..]
  {
  }

  // Running the exchange from command k on, for each k from the last one
  // back to the first.

  lemma ExchangeFrom12(sv: Server, db: Store)
    requires sv == Lobby(["alice", "bob"], {"alice", "bob"}, 1, 1)
    requires db == Table("bob", [BobShip], [AliceHit, AliceSink, AliceMiss])
    ensures Run(sv, db, Exchange[12..]) == (ExchangeReplies[12..], FinalServer, FinalStore)
  {
    assert Exchange[12] == MakeMove("bob", 1, 3, 3);
    ExchangeStep12(sv, db);
    assert Exchange[13..] == [] && ExchangeReplies[13..] == [];
    var h := Step(sv, db, Exchange[12], NoFaults);
    assert Run(h.sv, h.db, Exchange[13..]) == ([], FinalServer, FinalStore);
    SliceStep(Exchange, 12);
    SliceStep(ExchangeReplies, 12);
    RunFirst(sv, db, Exchange[12..]);
  }

  lemma ExchangeFrom11(sv: Server, db: Store)
    requires sv == Lobby(["alice", "bob"], {"alice", "bob"}, 1, 1)
    requires db == Table("alice", [BobShip], [AliceHit, AliceSink])
    ensures Run(sv, db, Exchange[11..]) == (ExchangeReplies[11..], FinalServer, FinalStore)
  {
    assert Exchange[11] == MakeMove("alice", 1, 0, 0);
    ExchangeStep11(sv, db);
    var h := Step(sv, db, Exchange[11], NoFaults);
    ExchangeFrom12(h.sv, h.db);
    SliceStep(Exchange, 11);
    SliceStep(ExchangeReplies, 11);
    RunFirst(sv, db, Exchange[11..]);
  }

  lemma ExchangeFrom10(sv: Server, db: Store)
    requires sv == Lobby(["alice", "bob"], {"alice", "bob"}, 1, 1)
    requires db == Table("alice", [BobShip], [AliceHit, AliceSink])
    ensures Run(sv, db, Exchange[10..]) == (ExchangeReplies[10..], FinalServer, FinalStore)
  {
    assert Exchange[10] == MakeMove("bob", 1, 0, 0);
    ExchangeStep10(sv, db);
    var h := Step(sv, db, Exchange[10], NoFaults);
    ExchangeFrom11(h.sv, h.db);
    SliceStep(Exchange, 10);
    SliceStep(ExchangeReplies, 10);
    RunFirst(sv, db, Exchange[10..]);
  }

  lemma ExchangeFrom9(sv: Server, db: Store)
    requires sv == Lobby(["alice", "bob"], {"alice", "bob"}, 1, 1)
    requires db == Table("alice", [BobShip], [AliceHit, AliceSink])
    ensures Run(sv, db, Exchange[9..]) == (ExchangeReplies[9..], FinalServer, FinalStore)
  {
    assert Exchange[9] == MakeMove("alice", 1, 3, 3);
    ExchangeStep9(sv, db);
    var h := Step(sv, db, Exchange[9], NoFaults);
    ExchangeFrom10(h.sv, h.db);
    SliceStep(Exchange, 9);
    SliceStep(ExchangeReplies, 9);
    RunFirst(sv, db, Exchange[9..]);
  }

  lemma ExchangeFrom8(sv: Server, db: Store)
    requires sv == Lobby(["alice", "bob"], {"alice", "bob"}, 0, 1)
    requires db == Table("alice", [BobShip], [AliceHit])
    ensures Run(sv, db, Exchange[8..]) == (ExchangeReplies[8..], FinalServer, FinalStore)
  {
    assert Exchange[8] == MakeMove("alice", 1, 4, 3);
    ExchangeStep8(sv, db);
    var h := Step(sv, db, Exchange[8], NoFaults);
    ExchangeFrom9(h.sv, h.db);
    SliceStep(Exchange, 8);
    SliceStep(ExchangeReplies, 8);
    RunFirst(sv, db, Exchange[8..]);
  }

  lemma ExchangeFrom7(sv: Server, db: Store)
    requires sv == Lobby(["alice", "bob"], {"alice", "bob"}, 0, 1)
    requires db == Table("alice", [BobShip], [])
    ensures Run(sv, db, Exchange[7..]) == (ExchangeReplies[7..], FinalServer, FinalStore)
  {
    assert Exchange[7] == MakeMove("alice", 1, 3, 3);
    ExchangeStep7(sv, db);
    var h := Step(sv, db, Exchange[7], NoFaults);
    ExchangeFrom8(h.sv, h.db);
    SliceStep(Exchange, 7);
    SliceStep(ExchangeReplies, 7);
    RunFirst(sv, db, Exchange[7..]);
  }

  lemma ExchangeFrom6(sv: Server, db: Store)
    requires sv == Lobby(["alice", "bob"], {"alice"}, 0, 1)
    requires db == Table("bob", [BobShip], [])
    ensures Run(sv, db, Exchange[6..]) == (ExchangeReplies[6..], FinalServer, FinalStore)
  {
    assert Exchange[6] == ReadyToBattle("bob");
    ExchangeStep6(sv, db);
    var h := Step(sv, db, Exchange[6], NoFaults);
    ExchangeFrom7(h.sv, h.db);
    SliceStep(Exchange, 6);
    SliceStep(ExchangeReplies, 6);
    RunFirst(sv, db, Exchange[6..]);
  }

  lemma ExchangeFrom5(sv: Server, db: Store)
    requires sv == Lobby(["alice", "bob"], {}, 0, 1)
    requires db == Table("bob", [BobShip], [])
    ensures Run(sv, db, Exchange[5..]) == (ExchangeReplies[5..], FinalServer, FinalStore)
  {
    assert Exchange[5] == ReadyToBattle("alice");
    ExchangeStep5(sv, db);
    var h := Step(sv, db, Exchange[5], NoFaults);
    ExchangeFrom6(h.sv, h.db);
    SliceStep(Exchange, 5);
    SliceStep(ExchangeReplies, 5);
    RunFirst(sv, db, Exchange[5..]);
  }

  lemma ExchangeFrom4(sv: Server, db: Store)
    requires sv == Lobby(["alice", "bob"], {}, 0, 1)
    requires db == Table("bob", [], [])
    ensures Run(sv, db, Exchange[4..]) == (ExchangeReplies[4..], FinalServer, FinalStore)
  {
    assert Exchange[4] == PlaceShip(BobPlaces);
    ExchangeStep4(sv, db);
    var h := Step(sv, db, Exchange[4], NoFaults);
    ExchangeFrom5(h.sv, h.db);
    SliceStep(Exchange, 4);
    SliceStep(ExchangeReplies, 4);
    RunFirst(sv, db, Exchange[4..]);
  }

  lemma ExchangeFrom3(sv: Server, db: Store)
    requires sv == Lobby(["alice"], {}, 0, NoGame)
    requires db == EmptyStore
    ensures Run(sv, db, Exchange[3..]) == (ExchangeReplies[3..], FinalServer, FinalStore)
  {
    assert Exchange[3] == StartGame("bob");
    ExchangeStep3(sv, db);
    var h := Step(sv, db, Exchange[3], NoFaults);
    ExchangeFrom4(h.sv, h.db);
    SliceStep(Exchange, 3);
    SliceStep(ExchangeReplies, 3);
    RunFirst(sv, db, Exchange[3..]);
  }

  lemma ExchangeFrom2(sv: Server, db: Store)
    requires sv == Lobby([], {}, 0, NoGame)
    requires db == EmptyStore
    ensures Run(sv, db, Exchange[2..]) == (ExchangeReplies[2..], FinalServer, FinalStore)
  {
    assert Exchange[2] == StartGame("alice");
    ExchangeStep2(sv, db);
    var h := Step(sv, db, Exchange[2], NoFaults);
    ExchangeFrom3(h.sv, h.db);
    SliceStep(Exchange, 2);
    SliceStep(ExchangeReplies, 2);
    RunFirst(sv, db, Exchange[2..]);
  }

  lemma ExchangeFrom1(sv: Server, db: Store)
    requires sv == Server(map["alice" := 1], map[1 := "alice"], [], {}, map["alice" := 0], NoGame)
    requires db == EmptyStore
    ensures Run(sv, db, Exchange[1..]) == (ExchangeReplies[1..], FinalServer, FinalStore)
  {
    assert Exchange[1] == Register("bob", 2);
    ExchangeStep1(sv, db);
    var h := Step(sv, db, Exchange[1], NoFaults);
    ExchangeFrom2(h.sv, h.db);
    SliceStep(Exchange, 1);
    SliceStep(ExchangeReplies, 1);
    RunFirst(sv, db, Exchange[1..]);
  }

  lemma ExchangeFrom0(sv: Server, db: Store)
    requires sv == Initial
    requires db == EmptyStore
    ensures Run(sv, db, Exchange[0..]) == (ExchangeReplies[0..], FinalServer, FinalStore)
  {
    assert Exchange[0] == Register("alice", 1);
    ExchangeStep0(sv, db);
    var h := Step(sv, db, Exchange[0], NoFaults);
    ExchangeFrom1(h.sv, h.db);
    SliceStep(Exchange, 0);
    SliceStep(ExchangeReplies, 0);
    RunFirst(sv, db, Exchange[0..]);
  }

  /** A run is its first step followed by the run of the remaining commands. */
  lemma RunFirst(sv: Server, db: Store, cmds: seq<Cmd>)
    requires |cmds| > 0
    ensures var h := Step(sv, db, cmds[0], NoFaults);
            var rest := Run(h.sv, h.db, cmds[1..]);
            Run(sv, db, cmds) == ([h.reply] + rest.0, rest.1, rest.2)
  {
  }

  /** Two players meet, bob places a two-cell ship, both get ready; alice hits
      it, sinks it, is refused a repeated cell, bob is refused out of turn,
      alice misses and hands the turn over, and bob's shot at a cell alice
      already used is his own first shot there. */
  lemma TwoPlayerExchange()
    ensures var r := Run(Initial, EmptyStore, Exchange);
            && r.0 == ExchangeReplies
            && "alice" in r.1.sunk && r.1.sunk["alice"] == 1
            && CurrentTurn(r.2, 1) == "alice"
  {
    ExchangeFrom0(Initial, EmptyStore);
    assert Exchange[0..] == Exchange && ExchangeReplies[0..] == ExchangeReplies;
  }
}
