/** Values shared by every part of the Battleship server model: player
    nicknames, connection handles, shot outcomes, the replies a command
    returns to its caller and the events delivered to other players. */
module Types {

  datatype Option<+T> = None | Some(value: T)

  /** A player's nickname; the empty string is the source's "no player". */
  type Nick = string

  /** An opaque handle for a live client connection. */
  type Socket = nat

  /** The three outcomes a resolved shot can have, as stored in the Move table. */
  datatype Outcome = Miss | Hit | Sunk

  /** Looks a key up in a counter map, with a default for a missing key. */
  function GetOr(m: map<Nick, int>, k: Nick, default: int): int {
    if k in m then m[k] else default
  }

  /** Why a command was refused; one variant per error message of the server. */
  datatype Reason =
    | NicknameEmpty        // register/login without a nickname
    | MissingNickname      // start_game without a nickname
    | GameCreateFailed     // the Game row could not be inserted
    | MissingFields        // a required field of place_ship/make_move is absent
    | InvalidNickname      // place_ship with an empty nickname
    | InvalidGameId        // place_ship/make_move for a game that is not the current one
    | InvalidShip          // coordinates outside the board or size outside 1..4
    | ExceedsHorizontal    // a horizontal ship runs past the right edge
    | ExceedsVertical      // a vertical ship runs past the bottom edge
    | ShipSaveFailed       // the Ship row could not be inserted
    | NotRegistered        // ready_to_battle from a nickname outside the roster
    | NotYourTurn          // make_move from a player who does not hold the turn
    | MoveFailed           // the shot transaction failed
    | CellAlreadyShot      // the shooter already fired at that cell

  /** The direct answer to the client that sent the command. */
  datatype Reply =
    | AuthReply                                          // register/login: answered by the credential check
    | Waiting                                            // start_game accepted
    | ShipPlaced                                         // place_ship accepted
    | ReadyReceived                                      // ready_to_battle accepted
    | MoveDone(outcome: Outcome, x: int, y: int, turn: Nick) // make_move resolved
    | Rejected(reason: Reason)
    | Silent                                             // nothing is answered (the connection is gone)

  /** The payload of a message pushed to a player who did not send the command. */
  datatype Msg =
    | GameReady(gameId: int, opponent: Nick)
    | GameStart(turn: Nick)
    | MoveResult(outcome: Outcome, x: int, y: int, turn: Nick)
    | GameOver(winner: Nick)
    | OpponentDisconnected

  /** A delivery: to one nickname, or to every nickname of a set. */
  datatype Event =
    | Notify(to: Nick, msg: Msg)
    | Broadcast(recipients: set<Nick>, msg: Msg)
}
