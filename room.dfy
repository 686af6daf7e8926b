/** One room record of the server, `{ players, board, currentPlayer,
    status, winner }`, the changes the handlers make to it, and the
    invariant every stored room keeps. */
module Rooms {
  import opened TicTacToe

  /** A seat in a room: the socket id, the display name and the symbol. */
  datatype Player = Player(id: string, name: string, symbol: Symbol)

  /** 'waiting', 'playing' or 'finished'. */
  datatype Status = Waiting | Playing | Finished

  datatype Room = Room(
    players: seq<Player>,
    board: seq<Cell>,
    currentPlayer: Symbol,
    status: Status,
    winner: Outcome)

  /** What holds of every room the registry stores.
      - the board has nine cells;
      - one or two players (an emptied room is deleted), and two players
        are X then O;
      - a waiting room is the room as created: its X creator alone on an
        empty board with X to move;
      - a playing room has no result yet, and its turn agrees with the
        number of marks of each symbol;
      - a winner is recorded exactly when the room is finished, and it is
        what the evaluator says of the board. */
  ghost predicate Inv(room: Room)
  {
    && |room.board| == 9
    && 1 <= |room.players| <= 2
    && (|room.players| == 2 ==> room.players[0].symbol == X && room.players[1].symbol == O)
    && (room.status == Waiting ==>
          |room.players| == 1 && room.players[0].symbol == X
          && room.board == EmptyBoard() && room.currentPlayer == X)
    && (room.status == Playing ==>
          CheckWinner(room.board) == NoResult && TurnMatches(room.board, room.currentPlayer))
    && (room.status == Finished <==> room.winner != NoResult)
    && (room.status == Finished ==> room.winner == CheckWinner(room.board))
  }

  /** The record `createRoom` stores: its creator as the only player, with
      symbol X, on an empty board; X to move, waiting, no winner. */
  function NewRoom(id: string, name: string): (r: Room)
    ensures Inv(r)
    ensures r.players == [Player(id, name, X)] && r.status == Waiting
  {
    Room([Player(id, name, X)], EmptyBoard(), X, Waiting, NoResult)
  }

  /** `players.findIndex(p => p.id === id)`: the first seat held by `id`,
      or -1 when `id` holds none. */
  function FindIndex(players: seq<Player>, id: string): (r: int)
    ensures -1 <= r < |players|
    ensures r >= 0 ==> players[r].id == id && forall j :: 0 <= j < r ==> players[j].id != id
    ensures r == -1 <==> forall j :: 0 <= j < |players| ==> players[j].id != id
  {
    if players == [] then -1
    else if players[0].id == id then 0
    else
      var r := FindIndex(players[1..], id);
      if r == -1 then -1 else r + 1
  }

  /** `joinRoom`'s change: a second player with symbol O is pushed and the
      game starts. */
  function AddPlayer(room: Room, id: string, name: string): (r: Room)
    ensures r.players == room.players + [Player(id, name, O)] && r.status == Playing
    ensures r.board == room.board && r.currentPlayer == room.currentPlayer
    ensures r.winner == room.winner
  {
    room.(players := room.players + [Player(id, name, O)], status := Playing)
  }

  /** A join that gets past the handler's checks finds a waiting room, and
      every waiting room gets past them. */
  lemma JoinAdmitsExactlyWaiting(room: Room)
    requires Inv(room)
    ensures (|room.players| < 2 && room.status != Playing && room.status != Finished)
        <==> room.status == Waiting
  {
  }

  /** Joining a waiting room gives a room with two players, X then O, in
      which X is to move on an empty board. */
  lemma JoinKeepsInv(room: Room, id: string, name: string)
    requires Inv(room) && room.status == Waiting
    ensures Inv(AddPlayer(room, id, name))
    ensures |AddPlayer(room, id, name).players| == 2
  {
    EmptyBoardOpen();
  }

  /** `makeMove`'s change once the move is accepted: cell `i` gets the
      mover's symbol; a won or drawn board finishes the game (a win is
      credited to the mover), otherwise the turn passes. */
  function Place(room: Room, i: nat, s: Symbol): (r: Room)
    requires |room.board| == 9 && i < 9
    ensures |r.board| == 9 && r.board[i] == Mark(s)
    ensures forall j :: 0 <= j < 9 && j != i ==> r.board[j] == room.board[j]
    ensures r.players == room.players
    ensures CheckWinner(r.board) != NoResult ==>
      r.status == Finished && r.currentPlayer == room.currentPlayer
      && (r.winner == Draw <==> CheckWinner(r.board) == Draw)
    ensures CheckWinner(r.board) == NoResult ==>
      r.status == room.status && r.winner == room.winner
      && r.currentPlayer == Other(room.currentPlayer)
  {
    var board := room.board[i := Mark(s)];
    if CheckWinner(board) != NoResult then
      room.(board := board, status := Finished,
            winner := if CheckWinner(board) == Draw then Draw else Win(s))
    else
      room.(board := board,
            currentPlayer := Other(room.currentPlayer))
  }

  /** A move accepted in a playing room keeps the invariant: the recorded
      winner, credited to the mover, is the symbol whose line the
      evaluator found, and an open board passes the turn correctly. */
  lemma PlaceKeepsInv(room: Room, i: nat)
    requires Inv(room) && room.status == Playing
    requires i < 9 && room.board[i] == Empty
    ensures Inv(Place(room, i, room.currentPlayer))
  {
    var s := room.currentPlayer;
    var r := Place(room, i, s);
    assert r.board == room.board[i := Mark(s)];
    MoveOnlyWinsForMover(room.board, i, s);
    MoveKeepsTurnRule(room.board, i, s);
  }

  /** `resetGame`'s change: nine empty cells, X to move, playing, no
      winner; the players stay. */
  function ResetRoom(room: Room): (r: Room)
    ensures r.players == room.players
  {
    room.(board := EmptyBoard(), currentPlayer := X, status := Playing, winner := NoResult)
  }

  /** A reset room is a fresh game, whatever state it was in. */
  lemma ResetKeepsInv(room: Room)
    requires Inv(room)
    ensures Inv(ResetRoom(room))
    ensures CheckWinner(ResetRoom(room).board) == NoResult
  {
    EmptyBoardOpen();
  }

  /** Resetting twice is resetting once. */
  lemma ResetIdempotent(room: Room)
    ensures ResetRoom(ResetRoom(room)) == ResetRoom(room)
  {
  }

  /** `players.splice(j, 1)` on the room of a disconnecting player. */
  function RemovePlayerAt(room: Room, j: nat): (r: Room)
    requires j < |room.players|
    ensures r.players == room.players[..j] + room.players[j + 1..]
    ensures |r.players| == |room.players| - 1
    ensures multiset(r.players) + multiset{room.players[j]} == multiset(room.players)
    ensures r.board == room.board && r.currentPlayer == room.currentPlayer
    ensures r.status == room.status && r.winner == room.winner
  {
    assert room.players == room.players[..j] + [room.players[j]] + room.players[j + 1..];
    room.(players := room.players[..j] + room.players[j + 1..])
  }

  /** When one of two players leaves, the other stays in a room whose
      status, board, turn and winner are untouched; such a room is never
      waiting again, so it admits no new player. When the only player
      leaves, the room is left empty. */
  lemma LeaveKeepsInv(room: Room, j: nat)
    requires Inv(room) && j < |room.players|
    ensures |RemovePlayerAt(room, j).players| == |room.players| - 1
    ensures |room.players| == 1 ==> RemovePlayerAt(room, j).players == []
    ensures |room.players| == 2 ==>
      Inv(RemovePlayerAt(room, j)) && RemovePlayerAt(room, j).status != Waiting
  {
  }
}
