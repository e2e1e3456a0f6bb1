/** The game tables of the server's store (Game, Ship, Move) as plain values,
    and the store operations the game logic uses: creating a game, saving a
    ship or a move, reading and changing whose turn it is, and resolving a
    shot. Failures are parameters: the single statements of saveShip and
    saveMove and the shot transaction each take one `fails` flag, and a set
    flag changes nothing; game creation, whose two statements share no
    transaction, takes a `CreateFault` naming the one that fails. */
module Database {
  import opened Types

  /** One row of the Ship table. */
  datatype Ship = Ship(game: int, owner: Nick, x: int, y: int, size: int, horizontal: bool)

  /** One row of the Move table. */
  datatype Move = Move(game: int, player: Nick, x: int, y: int, result: Outcome)

  /** One row of the Game table (its key is the game id). */
  datatype GameRow = GameRow(player1: Nick, player2: Nick, turn: Nick)

  /** The whole store; `lastGameId` is the autoincrement counter of the Game table. */
  datatype Store = Store(games: map<int, GameRow>, lastGameId: nat, ships: seq<Ship>, moves: seq<Move>)

  const EmptyStore := Store(map[], 0, [], [])

  /** Game ids are handed out by autoincrement, starting at 1. */
  predicate Valid(db: Store) {
    forall id :: id in db.games ==> 1 <= id <= db.lastGameId
  }

  // ---------------------------------------------------------------------
  // Geometry of a ship

  /** The cell test the shot scan applies to a ship. */
  predicate Covers(s: Ship, x: int, y: int) {
    if s.horizontal then y == s.y && s.x <= x < s.x + s.size
    else x == s.x && s.y <= y < s.y + s.size
  }

  /** The cells a ship occupies: `size` cells to the right of its origin when
      horizontal, `size` cells downwards otherwise. */
  function ShipCells(s: Ship): set<(int, int)> {
    set i | 0 <= i < s.size :: NthCell(s, i)
  }

  /** The `i`-th cell of a ship, counted from its origin. */
  function NthCell(s: Ship, i: int): (int, int) {
    if s.horizontal then (s.x + i, s.y) else (s.x, s.y + i)
  }

  /** The scan's cell test agrees with the ship's set of occupied cells. */
  lemma CoversIffInCells(s: Ship, x: int, y: int)
    ensures Covers(s, x, y) <==> (x, y) in ShipCells(s)
  {
    if Covers(s, x, y) {
      var i := if s.horizontal then x - s.x else y - s.y;
      assert NthCell(s, i) == (x, y);
    }
  }

  // ---------------------------------------------------------------------
  // Locating the ship a shot lands on

  /** Ship `s` belongs to `owner` in game `gid` and lies on cell (x, y). */
  predicate Targets(s: Ship, gid: int, owner: Nick, x: int, y: int) {
    s.game == gid && s.owner == owner && Covers(s, x, y)
  }

  /** Row `i` is the first row of the table that `Targets` the cell. */
  predicate IsFirstTarget(ships: seq<Ship>, i: int, gid: int, owner: Nick, x: int, y: int) {
    && 0 <= i < |ships|
    && Targets(ships[i], gid, owner, x, y)
    && forall j :: 0 <= j < i ==> !Targets(ships[j], gid, owner, x, y)
  }

  /** The scan over the owner's ships in table order, stopping at the first
      ship that lies on the cell. */
  function ShipIndex(ships: seq<Ship>, gid: int, owner: Nick, x: int, y: int): (r: Option<nat>)
    ensures r.None? <==> forall i :: 0 <= i < |ships| ==> !Targets(ships[i], gid, owner, x, y)
    ensures r.Some? ==> IsFirstTarget(ships, r.value, gid, owner, x, y)
  {
    if |ships| == 0 then None
    else if Targets(ships[0], gid, owner, x, y) then Some(0)
    else match ShipIndex(ships[1..], gid, owner, x, y)
      case None => None
      case Some(i) => Some(i + 1)
  }

  /** Appending a Ship row never changes which ship an earlier row already
      places on a cell; it only fills cells no earlier ship of that owner covered. */
  lemma {:induction false} ShipIndexAppend(ships: seq<Ship>, s: Ship, gid: int, owner: Nick, x: int, y: int)
    ensures ShipIndex(ships + [s], gid, owner, x, y) ==
            match ShipIndex(ships, gid, owner, x, y)
            case Some(i) => Some(i)
            case None => if Targets(s, gid, owner, x, y) then Some(|ships|) else None
  {
    if |ships| == 0 {
      assert [s][1..] == [];
    } else {
      assert (ships + [s])[1..] == ships[1..] + [s];
      ShipIndexAppend(ships[1..], s, gid, owner, x, y);
    }
  }

  // ---------------------------------------------------------------------
  // Counting earlier hits on a ship

  /** A move of `player` in game `gid` that hit or sank something inside ship `s`. */
  predicate CountsToward(m: Move, gid: int, player: Nick, s: Ship) {
    m.game == gid && m.player == player && m.result != Miss && Covers(s, m.x, m.y)
  }

  /** How many of `player`'s earlier hit/sunk moves fall inside ship `s`. */
  function PriorHits(moves: seq<Move>, gid: int, player: Nick, s: Ship): (n: nat)
    ensures n <= |moves|
    ensures n == 0 <==> forall i :: 0 <= i < |moves| ==> !CountsToward(moves[i], gid, player, s)
  {
    if |moves| == 0 then 0
    else PriorHits(moves[..|moves| - 1], gid, player, s)
         + (if CountsToward(moves[|moves| - 1], gid, player, s) then 1 else 0)
  }

  /** Recording one more move raises the count by one exactly when that move counts. */
  lemma PriorHitsAppend(moves: seq<Move>, m: Move, gid: int, player: Nick, s: Ship)
    ensures PriorHits(moves + [m], gid, player, s)
            == PriorHits(moves, gid, player, s) + (if CountsToward(m, gid, player, s) then 1 else 0)
  {
    assert (moves + [m])[..|moves|] == moves;
  }

  // ---------------------------------------------------------------------
  // Shot resolution

  /** `player` already has a Move row at (x, y) in game `gid`. */
  predicate ShotBefore(moves: seq<Move>, gid: int, player: Nick, x: int, y: int) {
    exists m :: m in moves && m.game == gid && m.player == player && m.x == x && m.y == y
  }

  /** The other player of a game row; anyone who is not player1 faces player1. */
  function GameOpponent(g: GameRow, player: Nick): Nick {
    if player == g.player1 then g.player2 else g.player1
  }

  /** A shot on a ship is the sinking one when, counting itself, the shooter
      has hit it at least `size` times. */
  function Classify(priorHits: nat, size: int): Outcome {
    if priorHits + 1 >= size then Sunk else Hit
  }

  datatype ShotResult = Resolved(outcome: Outcome) | AlreadyShot | Failed

  /** The shot transaction: refuse a repeated cell, find the opponent's ship
      on the cell, classify the shot and record it as one new Move row. */
  function CheckMove(db: Store, gid: int, player: Nick, x: int, y: int, fails: bool): (r: (ShotResult, Store))
    ensures r.1.games == db.games && r.1.lastGameId == db.lastGameId && r.1.ships == db.ships
    ensures r.0.Resolved? ==> r.1.moves == db.moves + [Move(gid, player, x, y, r.0.outcome)]
    ensures !r.0.Resolved? ==> r.1 == db
    ensures r.0 == Failed <==> fails || gid !in db.games
    ensures r.0 == AlreadyShot <==> !fails && gid in db.games && ShotBefore(db.moves, gid, player, x, y)
    ensures !fails && gid in db.games ==>
              var opponent := GameOpponent(db.games[gid], player);
              && (r.0 == Resolved(Miss) <==>
                    !ShotBefore(db.moves, gid, player, x, y)
                    && forall i :: 0 <= i < |db.ships| ==> !Targets(db.ships[i], gid, opponent, x, y))
              && (r.0.Resolved? && r.0.outcome != Miss ==>
                    exists i :: IsFirstTarget(db.ships, i, gid, opponent, x, y)
                      && (r.0.outcome == Sunk <==>
                            PriorHits(db.moves, gid, player, db.ships[i]) + 1 >= db.ships[i].size))
  {
    if fails || gid !in db.games then (Failed, db)
    else if ShotBefore(db.moves, gid, player, x, y) then (AlreadyShot, db)
    else
      var opponent := GameOpponent(db.games[gid], player);
      var outcome :=
        match ShipIndex(db.ships, gid, opponent, x, y)
        case None => Miss
        case Some(i) => Classify(PriorHits(db.moves, gid, player, db.ships[i]), db.ships[i].size);
      (Resolved(outcome), db.(moves := db.moves + [Move(gid, player, x, y, outcome)]))
  }

  /** A Ship row that does not belong to the shooter's opponent never changes
      a shot: whatever ships the shooter (or anyone else but the opponent)
      adds, the outcome and the recorded move stay the same. */
  lemma {:induction false} OtherShipsIgnored(db: Store, gid: int, player: Nick, x: int, y: int, fails: bool, extra: seq<Ship>)
    requires gid in db.games ==>
               forall i :: 0 <= i < |extra| ==> extra[i].owner != GameOpponent(db.games[gid], player)
    ensures var before := CheckMove(db, gid, player, x, y, fails);
            CheckMove(db.(ships := db.ships + extra), gid, player, x, y, fails)
              == (before.0, before.1.(ships := db.ships + extra))
    decreases |extra|
  {
    if |extra| == 0 {
      assert db.ships + extra == db.ships;
      assert db.(ships := db.ships + extra) == db;
    } else {
      var init := extra[..|extra| - 1];
      var last := extra[|extra| - 1];
      OtherShipsIgnored(db, gid, player, x, y, fails, init);
      var mid := db.(ships := db.ships + init);
      assert db.ships + extra == mid.ships + [last];
      if !fails && gid in db.games && !ShotBefore(db.moves, gid, player, x, y) {
        var opponent := GameOpponent(db.games[gid], player);
        ShipIndexAppend(mid.ships, last, gid, opponent, x, y);
        assert !Targets(last, gid, opponent, x, y);
        forall i | 0 <= i < |mid.ships|
          ensures (mid.ships + [last])[i] == mid.ships[i]
        {
        }
      }
    }
  }

  /** With no ship of the opponent on the cell, a fresh shot is a miss, however
      many of the shooter's own ships cover it. */
  lemma OwnShipsShotMiss(db: Store, gid: int, player: Nick, x: int, y: int, own: seq<Ship>)
    requires gid in db.games && player != GameOpponent(db.games[gid], player)
    requires !ShotBefore(db.moves, gid, player, x, y)
    requires forall i :: 0 <= i < |db.ships| ==> !Targets(db.ships[i], gid, GameOpponent(db.games[gid], player), x, y)
    requires forall i :: 0 <= i < |own| ==> own[i].owner == player
    ensures CheckMove(db.(ships := db.ships + own), gid, player, x, y, false).0 == Resolved(Miss)
  {
    OtherShipsIgnored(db, gid, player, x, y, false, own);
  }

  /** Once a shot is resolved, the same shot again is refused as already
      shot and leaves the store as it is. */
  lemma RepeatShotRejected(db: Store, gid: int, player: Nick, x: int, y: int)
    requires CheckMove(db, gid, player, x, y, false).0.Resolved?
    ensures var db' := CheckMove(db, gid, player, x, y, false).1;
            CheckMove(db', gid, player, x, y, false) == (AlreadyShot, db')
  {
    var db' := CheckMove(db, gid, player, x, y, false).1;
    var m := db'.moves[|db'.moves| - 1];
    assert m in db'.moves;
  }

  /** `player` fires at `cells` one after another in game `gid`, each shot
      resolved against the store the previous one left behind. */
  function ShootAll(db: Store, gid: int, player: Nick, cells: seq<(int, int)>): (r: (seq<ShotResult>, Store))
    ensures |r.0| == |cells|
    ensures r.1.games == db.games && r.1.lastGameId == db.lastGameId && r.1.ships == db.ships
    ensures |db.moves| <= |r.1.moves| <= |db.moves| + |cells| && r.1.moves[..|db.moves|] == db.moves
    decreases |cells|
  {
    if |cells| == 0 then ([], db)
    else
      var prev := ShootAll(db, gid, player, cells[..|cells| - 1]);
      var last := cells[|cells| - 1];
      var step := CheckMove(prev.1, gid, player, last.0, last.1, false);
      (prev.0 + [step.0], step.1)
  }

  /** No other ship of `s`'s owner in game `gid` shares a cell with `s`. */
  ghost predicate SoleCover(ships: seq<Ship>, s: Ship) {
    forall t, cx, cy :: t in ships && Targets(t, s.game, s.owner, cx, cy) && Covers(s, cx, cy) ==> t == s
  }

  /** The cells are pairwise distinct. */
  predicate Distinct(cells: seq<(int, int)>) {
    forall i, j :: 0 <= i < j < |cells| ==> cells[i] != cells[j]
  }

  /** The conditions under which shooting the cells of one ship is a clean run:
      the ship is in the opponent's fleet for this game, shares no cell with
      another of that fleet's ships, the shooter has not yet fired inside it,
      and the cells are distinct cells of the ship. */
  ghost predicate FreshRun(db: Store, gid: int, player: Nick, s: Ship, cells: seq<(int, int)>) {
    && gid in db.games
    && s in db.ships && s.game == gid && s.owner == GameOpponent(db.games[gid], player)
    && SoleCover(db.ships, s)
    && (forall m :: m in db.moves && m.game == gid && m.player == player ==> !Covers(s, m.x, m.y))
    && (forall c :: c in cells ==> Covers(s, c.0, c.1))
    && Distinct(cells)
  }

  /** One shot of a clean run: a fresh cell of `s` lands on `s` and is
      classified by the hits `s` has taken so far, which then grow by one. */
  lemma ShotOnSoleShip(db: Store, gid: int, player: Nick, s: Ship, cx: int, cy: int)
    requires gid in db.games
    requires s in db.ships && s.game == gid && s.owner == GameOpponent(db.games[gid], player)
    requires SoleCover(db.ships, s)
    requires Covers(s, cx, cy)
    requires !ShotBefore(db.moves, gid, player, cx, cy)
    ensures var outcome := Classify(PriorHits(db.moves, gid, player, s), s.size);
            && CheckMove(db, gid, player, cx, cy, false)
               == (Resolved(outcome), db.(moves := db.moves + [Move(gid, player, cx, cy, outcome)]))
            && PriorHits(db.moves + [Move(gid, player, cx, cy, outcome)], gid, player, s)
               == PriorHits(db.moves, gid, player, s) + 1
  {
    var opponent := GameOpponent(db.games[gid], player);
    assert Targets(s, gid, opponent, cx, cy);
    var idx := ShipIndex(db.ships, gid, opponent, cx, cy);
    assert idx.Some? && db.ships[idx.value] == s;
    var outcome := Classify(PriorHits(db.moves, gid, player, s), s.size);
    PriorHitsAppend(db.moves, Move(gid, player, cx, cy, outcome), gid, player, s);
  }

  /** Every move of `player` in game `gid` inside ship `s` was at one of `shots`. */
  ghost predicate ShotsInside(moves: seq<Move>, gid: int, player: Nick, s: Ship, shots: seq<(int, int)>) {
    forall m :: m in moves && m.game == gid && m.player == player && Covers(s, m.x, m.y) ==> (m.x, m.y) in shots
  }

  /** Shot k was a hit, or the sinking shot once k + 1 reaches the size. */
  predicate HitsThenSunk(results: seq<ShotResult>, size: int) {
    forall k :: 0 <= k < |results| ==> results[k] == Resolved(if k + 1 < size then Hit else Sunk)
  }

  /** What a clean run has done after its first `n` shots: the ship has taken
      `n` hits, every one of the shooter's moves inside it is one of those
      shots, and the shots were hits up to the sinking one. */
  ghost predicate RunSoFar(db: Store, gid: int, player: Nick, s: Ship, cells: seq<(int, int)>, n: nat,
                           r: (seq<ShotResult>, Store))
    requires n <= |cells|
  {
    && r.1.games == db.games && r.1.ships == db.ships
    && PriorHits(r.1.moves, gid, player, s) == n
    && ShotsInside(r.1.moves, gid, player, s, cells[..n])
    && |r.0| == n
    && HitsThenSunk(r.0, s.size)
  }

  /** The first `n` shots of a clean run leave it as `RunSoFar` describes. */
  lemma {:induction false} SinkPrefix(db: Store, gid: int, player: Nick, s: Ship, cells: seq<(int, int)>, n: nat)
    requires FreshRun(db, gid, player, s, cells)
    requires n <= |cells|
    ensures RunSoFar(db, gid, player, s, cells, n, ShootAll(db, gid, player, cells[..n]))
  {
    if n == 0 {
      assert cells[..0] == [];
      assert PriorHits(db.moves, gid, player, s) == 0;
    } else {
      SinkPrefix(db, gid, player, s, cells, n - 1);
      SinkStep(db, gid, player, s, cells, n - 1);
    }
  }

  /** One more shot of a clean run keeps `RunSoFar` true, one shot further on. */
  lemma SinkStep(db: Store, gid: int, player: Nick, s: Ship, cells: seq<(int, int)>, n: nat)
    requires FreshRun(db, gid, player, s, cells)
    requires n < |cells|
    requires RunSoFar(db, gid, player, s, cells, n, ShootAll(db, gid, player, cells[..n]))
    ensures RunSoFar(db, gid, player, s, cells, n + 1, ShootAll(db, gid, player, cells[..n + 1]))
  {
    TakeOneMore(cells, n);
    var prev := ShootAll(db, gid, player, cells[..n]);
    var c := cells[n];
    assert c in cells;
    NotShotYet(prev.1.moves, gid, player, s, cells, n);
    ShotOnSoleShip(prev.1, gid, player, s, c.0, c.1);
    var outcome := Classify(PriorHits(prev.1.moves, gid, player, s), s.size);
    var m := Move(gid, player, c.0, c.1, outcome);
    ShotsInsideAppend(prev.1.moves, m, gid, player, s, cells[..n]);
    HitsThenSunkAppend(prev.0, s.size, Resolved(outcome));
  }

  /** A new move at `(m.x, m.y)` extends the shots by that cell. */
  lemma ShotsInsideAppend(moves: seq<Move>, m: Move, gid: int, player: Nick, s: Ship, shots: seq<(int, int)>)
    requires ShotsInside(moves, gid, player, s, shots)
    ensures ShotsInside(moves + [m], gid, player, s, shots + [(m.x, m.y)])
  {
  }

  /** The next result of a run extends the hits-then-sunk pattern when it is
      the one the pattern prescribes for its position. */
  lemma HitsThenSunkAppend(results: seq<ShotResult>, size: int, next: ShotResult)
    requires HitsThenSunk(results, size)
    requires next == Resolved(if |results| + 1 < size then Hit else Sunk)
    ensures HitsThenSunk(results + [next], size)
  {
  }

  /** A prefix one element longer is the shorter prefix and that element. */
  lemma TakeOneMore<T>(s: seq<T>, n: nat)
    requires n < |s|
    ensures s[..n + 1] == s[..n] + [s[n]]
    ensures s[..n + 1][..n] == s[..n] && s[..n + 1][n] == s[n]
  {
  }

  /** In a clean run, the next cell has not been shot yet: every earlier shot
      inside the ship was at one of the earlier, distinct cells. */
  lemma NotShotYet(moves: seq<Move>, gid: int, player: Nick, s: Ship, cells: seq<(int, int)>, n: nat)
    requires n < |cells| && Distinct(cells) && Covers(s, cells[n].0, cells[n].1)
    requires ShotsInside(moves, gid, player, s, cells[..n])
    ensures !ShotBefore(moves, gid, player, cells[n].0, cells[n].1)
  {
    forall m | m in moves && m.game == gid && m.player == player && Covers(s, m.x, m.y)
      ensures (m.x, m.y) != cells[n]
    {
      var j :| 0 <= j < n && cells[j] == (m.x, m.y);
    }
  }

  /** Shooting the distinct cells of a ship once each gives "hit" on every
      shot before the size-th and "sunk" from the size-th on, in any order. */
  lemma SinkSequence(db: Store, gid: int, player: Nick, s: Ship, cells: seq<(int, int)>)
    requires FreshRun(db, gid, player, s, cells)
    ensures var outcomes := ShootAll(db, gid, player, cells).0;
            forall k :: 0 <= k < |cells| ==>
              outcomes[k] == Resolved(if k + 1 < s.size then Hit else Sunk)
  {
    SinkPrefix(db, gid, player, s, cells, |cells|);
    assert cells[..|cells|] == cells;
  }

  // ---------------------------------------------------------------------
  // Rows written outside the shot transaction

  /** Inserts one Ship row; the store does no bounds or overlap check itself. */
  function SaveShip(db: Store, gid: int, player: Nick, x: int, y: int, size: int, horizontal: bool, fails: bool): (r: (bool, Store))
    ensures r.0 == !fails
    ensures r.0 ==> r.1 == db.(ships := db.ships + [Ship(gid, player, x, y, size, horizontal)])
    ensures !r.0 ==> r.1 == db
  {
    if fails then (false, db)
    else (true, db.(ships := db.ships + [Ship(gid, player, x, y, size, horizontal)]))
  }

  /** A ship that is saved becomes the ship a shot at any of its cells lands
      on, unless an earlier ship of the same owner already lies on that cell. */
  lemma SavedShipIsTargeted(db: Store, gid: int, player: Nick, x: int, y: int, size: int, horizontal: bool, cx: int, cy: int)
    requires Covers(Ship(gid, player, x, y, size, horizontal), cx, cy)
    requires ShipIndex(db.ships, gid, player, cx, cy).None?
    ensures var db' := SaveShip(db, gid, player, x, y, size, horizontal, false).1;
            ShipIndex(db'.ships, gid, player, cx, cy) == Some(|db.ships|)
            && db'.ships[|db.ships|] == Ship(gid, player, x, y, size, horizontal)
  {
    ShipIndexAppend(db.ships, Ship(gid, player, x, y, size, horizontal), gid, player, cx, cy);
  }

  /** Inserts one Move row with the given result. */
  function SaveMove(db: Store, gid: int, player: Nick, x: int, y: int, result: Outcome, fails: bool): (r: (bool, Store))
    ensures r.0 == !fails
    ensures r.0 ==> r.1 == db.(moves := db.moves + [Move(gid, player, x, y, result)])
    ensures r.0 ==> ShotBefore(r.1.moves, gid, player, x, y)
    ensures !r.0 ==> r.1 == db
  {
    if fails then (false, db)
    else
      var db' := db.(moves := db.moves + [Move(gid, player, x, y, result)]);
      assert db'.moves[|db.moves|] in db'.moves;
      (true, db')
  }

  // ---------------------------------------------------------------------
  // The Game table and the turn

  /** Which statement of game creation fails: the INSERT of the row, or the
      `last_insert_rowid()` query that follows it. */
  datatype CreateFault = NoCreateFault | InsertFails | RowIdFails

  /** Inserts a Game row whose first turn belongs to `player1` and returns its
      id, or -1 when either statement fails. The two statements share no
      transaction: when only the id query fails, the row stays stored. */
  function CreateGame(db: Store, player1: Nick, player2: Nick, fault: CreateFault): (r: (int, Store))
    ensures r.0 == -1 <==> fault != NoCreateFault
    ensures fault == InsertFails ==> r.1 == db
    ensures fault != InsertFails ==>
              var id := r.1.lastGameId;
              && id == db.lastGameId + 1
              && r.1.games == db.games[id := GameRow(player1, player2, player1)]
              && r.1.ships == db.ships && r.1.moves == db.moves
    ensures fault == NoCreateFault ==> r.0 == r.1.lastGameId && CurrentTurn(r.1, r.0) == player1
    ensures Valid(db) ==> Valid(r.1)
    ensures Valid(db) && fault != InsertFails ==> r.1.lastGameId !in db.games
  {
    var id := db.lastGameId + 1;
    var db' := db.(games := db.games[id := GameRow(player1, player2, player1)], lastGameId := id);
    match fault
    case InsertFails => (-1, db)
    case RowIdFails => (-1, db')
    case NoCreateFault => (id, db')
  }

  /** Whose turn it is in a game; the empty nickname for an unknown game,
      which is what the failed lookup returns. */
  function CurrentTurn(db: Store, gid: int): (r: Nick)
    ensures gid !in db.games ==> r == ""
    ensures gid in db.games ==> r == db.games[gid].turn
  {
    if gid in db.games then db.games[gid].turn else ""
  }

  /** Hands the turn of game `gid` to `next`; an unknown game id updates no row. */
  function UpdateTurn(db: Store, gid: int, next: Nick): (r: Store)
    ensures r.games.Keys == db.games.Keys
    ensures r.ships == db.ships && r.moves == db.moves && r.lastGameId == db.lastGameId
    ensures forall g :: g in db.games ==>
              r.games[g].player1 == db.games[g].player1 && r.games[g].player2 == db.games[g].player2
    ensures forall g :: CurrentTurn(r, g) == if g == gid && gid in db.games then next else CurrentTurn(db, g)
    ensures Valid(db) ==> Valid(r)
  {
    if gid in db.games then db.(games := db.games[gid := db.games[gid].(turn := next)]) else db
  }

  /** Handing the turn to the player who already holds it changes no row. */
  lemma UpdateTurnToHolder(db: Store, gid: int)
    ensures UpdateTurn(db, gid, CurrentTurn(db, gid)) == db
  {
    if gid in db.games {
      assert db.games[gid := db.games[gid].(turn := db.games[gid].turn)] == db.games;
    }
  }
}
