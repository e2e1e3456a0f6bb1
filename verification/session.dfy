/** The server's in-memory session record and the helper operations on it:
    the nickname/connection maps, the roster of players who asked to start a
    game, the set of players who declared themselves ready, the per-player
    count of ships sunk, and the id of the current game. */
module Session {
  import opened Types

  /** The game id meaning "no game". */
  const NoGame := -1

  datatype Server = Server(
    clients: map<Nick, Socket>,   // nickname -> connection
    nickOf: map<Socket, Nick>,    // connection -> nickname
    players: seq<Nick>,           // the roster, in order of arrival
    ready: set<Nick>,             // roster members who declared themselves ready
    sunk: map<Nick, int>,         // ships sunk by each player in the current game
    gameId: int)                  // the current game, or NoGame

  const Initial := Server(map[], map[], [], {}, map[], NoGame)

  predicate NoDuplicates(s: seq<Nick>) {
    forall i, j :: 0 <= i < j < |s| ==> s[i] != s[j]
  }

  /** Appends a nickname to the roster unless it is already there, starting
      its sunk counter at zero. The roster has no size cap here. */
  function AddPlayer(sv: Server, nick: Nick): (r: Server)
    ensures forall p :: p in r.players <==> p in sv.players || p == nick
    ensures |r.players| == if nick in sv.players then |sv.players| else |sv.players| + 1
    ensures r.players[..|sv.players|] == sv.players
    ensures NoDuplicates(sv.players) ==> NoDuplicates(r.players)
    ensures nick in sv.players ==> r == sv
    ensures nick !in sv.players ==> r.sunk.Keys == sv.sunk.Keys + {nick} && r.sunk[nick] == 0
    ensures forall p :: p != nick && p in sv.sunk ==> p in r.sunk && r.sunk[p] == sv.sunk[p]
    ensures r.clients == sv.clients && r.nickOf == sv.nickOf && r.ready == sv.ready && r.gameId == sv.gameId
  {
    if nick in sv.players then sv
    else sv.(players := sv.players + [nick], sunk := sv.sunk[nick := 0])
  }

  /** The first roster member other than `nick`, or the empty nickname when
      every member is `nick`. */
  function RosterOpponent(players: seq<Nick>, nick: Nick): (r: Nick)
    ensures r == "" || (r in players && r != nick)
    ensures (forall i :: 0 <= i < |players| ==> players[i] == nick) ==> r == ""
    ensures forall i :: (0 <= i < |players| && players[i] != nick
                          && (forall j :: 0 <= j < i ==> players[j] == nick)) ==> r == players[i]
  {
    if |players| == 0 then ""
    else if players[0] != nick then players[0]
    else RosterOpponent(players[1..], nick)
  }

  /** With no duplicates and no empty nickname in a two-member roster, each
      member's opponent is the other member. */
  lemma RosterOpponentOfPair(players: seq<Nick>, nick: Nick)
    requires |players| == 2 && nick in players
    ensures NoDuplicates(players) ==>
              && RosterOpponent(players, nick) in players
              && RosterOpponent(players, nick) != nick
              && RosterOpponent(players, RosterOpponent(players, nick)) == nick
  {
    if NoDuplicates(players) {
      if players[0] == nick {
        assert RosterOpponent(players, nick) == players[1];
      } else {
        assert RosterOpponent(players, nick) == players[0];
      }
    }
  }

  /** Every occurrence of `nick` taken out of the roster, the order of the others kept. */
  function RemoveAll(players: seq<Nick>, nick: Nick): (r: seq<Nick>)
    ensures forall p :: p in r <==> p in players && p != nick
    ensures |r| == |players| - multiset(players)[nick]
    ensures nick !in players ==> r == players
    ensures NoDuplicates(players) ==> NoDuplicates(r)
  {
    if |players| == 0 then []
    else
      assert players == [players[0]] + players[1..];
      if players[0] == nick then RemoveAll(players[1..], nick)
      else
        var rest := RemoveAll(players[1..], nick);
        assert NoDuplicates(players) ==> players[0] !in players[1..];
        [players[0]] + rest
  }

  /** Removal works piece by piece: removing from a concatenation is removing
      from each part, so the members that stay keep their relative order. */
  lemma {:induction false} RemoveAllAppend(a: seq<Nick>, b: seq<Nick>, nick: Nick)
    ensures RemoveAll(a + b, nick) == RemoveAll(a, nick) + RemoveAll(b, nick)
    decreases |a|
  {
    if |a| == 0 {
      assert a + b == b;
    } else {
      assert (a + b)[1..] == a[1..] + b;
      RemoveAllAppend(a[1..], b, nick);
    }
  }

  /** The first member that stays is the first member other than the removed
      one, so removing a player does not change who another player's
      opponent is. */
  lemma {:induction false} RemoveAllKeepsOpponent(players: seq<Nick>, nick: Nick)
    ensures RosterOpponent(RemoveAll(players, nick), nick) == RosterOpponent(players, nick)
    decreases |players|
  {
    if |players| > 0 && players[0] == nick {
      RemoveAllKeepsOpponent(players[1..], nick);
    }
  }

  /** Ends the current game: empties the roster, the ready set and the sunk
      counters and forgets the game id, keeping the connections. */
  function ResetGame(sv: Server): (r: Server)
    ensures r.players == [] && r.ready == {} && r.sunk == map[] && r.gameId == NoGame
    ensures r.clients == sv.clients && r.nickOf == sv.nickOf
    ensures forall n :: RosterOpponent(r.players, n) == ""
  {
    Server(sv.clients, sv.nickOf, [], {}, map[], NoGame)
  }

  /** Records a connection under a nickname in both directions and starts its
      sunk counter at zero; a later registration of the same nickname wins. */
  function RegisterClient(sv: Server, nick: Nick, sock: Socket): (r: Server)
    ensures r.clients.Keys == sv.clients.Keys + {nick} && r.clients[nick] == sock
    ensures r.nickOf.Keys == sv.nickOf.Keys + {sock} && r.nickOf[sock] == nick
    ensures forall n :: n in sv.clients && n != nick ==> r.clients[n] == sv.clients[n]
    ensures forall k :: k in sv.nickOf && k != sock ==> r.nickOf[k] == sv.nickOf[k]
    ensures r.sunk.Keys == sv.sunk.Keys + {nick} && r.sunk[nick] == 0
    ensures forall n :: n in sv.sunk && n != nick ==> r.sunk[n] == sv.sunk[n]
    ensures r.players == sv.players && r.ready == sv.ready && r.gameId == sv.gameId
  {
    sv.(clients := sv.clients[nick := sock], nickOf := sv.nickOf[sock := nick], sunk := sv.sunk[nick := 0])
  }

  /** The nickname registered for a connection, or the empty nickname. */
  function NickOf(sv: Server, sock: Socket): Nick {
    if sock in sv.nickOf then sv.nickOf[sock] else ""
  }

  /** Forgets a connection: its nickname leaves both maps, the roster, the
      ready set and the counters; if anyone is left in the roster, that player
      is told the opponent disconnected and the game is reset. */
  function UnregisterClient(sv: Server, sock: Socket): (r: (Server, seq<Event>))
    ensures NickOf(sv, sock) == "" ==> r == (sv, [])
    ensures NickOf(sv, sock) != "" ==>
              var nick := NickOf(sv, sock);
              && r.0.clients == sv.clients - {nick}
              && r.0.nickOf == sv.nickOf - {sock}
              && nick !in r.0.players && nick !in r.0.ready && nick !in r.0.sunk
              && (forall p :: p in r.0.players ==> p in sv.players)
              && (forall p :: p in r.0.ready ==> p in sv.ready)
              && ("" !in sv.players ==> r.0.players == [])
              && ("" !in sv.players ==> (r.1 != [] <==> exists p :: p in sv.players && p != nick))
              && (r.1 != [] ==> r.1 == [Notify(RosterOpponent(sv.players, nick), OpponentDisconnected)])
              && (r.1 != [] ==> r.0.gameId == NoGame && r.0.ready == {} && r.0.sunk == map[]
                                && |r.1| == 1 && r.1[0].Notify? && r.1[0].msg == OpponentDisconnected
                                && r.1[0].to in sv.players && r.1[0].to != nick)
              && (r.1 == [] ==>
                    && r.0.gameId == sv.gameId
                    && r.0.players == RemoveAll(sv.players, nick)
                    && r.0.ready == sv.ready - {nick}
                    && r.0.sunk == sv.sunk - {nick})
  {
    var nick := NickOf(sv, sock);
    if nick == "" then (sv, [])
    else
      var sv1 := sv.(clients := sv.clients - {nick}, nickOf := sv.nickOf - {sock},
                     players := RemoveAll(sv.players, nick), ready := sv.ready - {nick},
                     sunk := sv.sunk - {nick});
      var opponent := RosterOpponent(sv1.players, nick);
      RemoveAllKeepsOpponent(sv.players, nick);
      if opponent != "" then (ResetGame(sv1), [Notify(opponent, OpponentDisconnected)])
      else (sv1, [])
  }
}
