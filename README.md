# Tic-tac-toe room server, modelled in Dafny

This project models the game server of a two-player online tic-tac-toe
(`server/index.js`). It has two parts:

- the board evaluator `checkWinner`;
- the registry of rooms (a JavaScript `Map` from room code to room record)
  with the socket handlers `createRoom`, `joinRoom`, `makeMove`, `resetGame`
  and `disconnect` that read and change it.

A room record holds:

- `players`: at most two seats, each with a socket id, a name and a symbol;
- `board`: nine cells;
- `currentPlayer`, `status` (`waiting`, `playing`, `finished`) and `winner`.

The model has four modules:

- `TicTacToe` (`board.dfy`): symbols, cells, the eight lines and the
  evaluator `CheckWinner`. It is pure.
- `RoomCode` (`room_code.dfy`): the upper-casing and trimming of room codes.
- `Rooms` (`room.dfy`): the room record as a value, and the change each
  handler makes to one room. It also holds the invariant `Inv` that every
  stored room keeps:
  - one or two players, and two players are X then O;
  - nine cells;
  - a waiting room is exactly as created;
  - a playing room has no result, and its turn matches the count of marks;
  - a winner is recorded exactly when the room is finished, and it is the
    evaluator's verdict on the board.
- `Server` (`server.dfy`): the class `Registry` with the map and the
  handlers as methods. Each handler either refuses with an error message and
  changes nothing, or updates the map. Every handler keeps `Valid()`, which is
  `Inv` for every stored room plus an exact index of the map's insertion
  order.

Socket ids, room codes, player names and the generated room code are
parameters. What a handler emits is returned as a list of addressed
messages: to the sender, or to a room's channel.

The model follows the code as written, including these behaviours a reader
may not expect:

- `createRoom` replaces a live room with the same code instead of failing.
- `createRoom` does not check the code's format.
- `joinRoom` has no "already a member" check: the same socket can take both
  seats.
- `resetGame` resets any room found, whatever its player count. It sends an
  error for a missing room instead of ignoring the request.
- `disconnect` leaves only the first room, in insertion order, that lists
  the socket.
- There is no `leaveRoom` handler. Both clients emit it and the server
  ignores it.
- After one player of a playing or finished room disconnects, the room keeps
  its status and never admits another player (`Rooms.LeaveKeepsInv`).
- `createRoom` upper-cases the code but does not trim it, while `joinRoom`
  upper-cases and trims. A join with the creator's code finds the room
  exactly when the code has no white space at either end
  (`RoomCode.JoinKeyMatchesCreateKey`).
- `makeMove` and `resetGame` use the code as sent. A code with an ASCII
  lower-case letter never finds a room (`Server.Registry.MakeMove`).

## Model

| member | source | states |
|---|---|---|
| `TicTacToe.ScanLines` | server/index.js:29-34 | the scan over the lines returns the symbol of the first completed line, in the fixed order, and returns nothing exactly when no line is completed |
| `TicTacToe.CheckWinner` | server/index.js:22-41 | a symbol is returned only when one of its lines is complete, and one is returned whenever any line is complete, even on a full board; 'draw' exactly when no line is complete and every cell is filled; null exactly when no line is complete and some cell is empty |
| `TicTacToe.EmptyBoard` | server/index.js:53 | a fresh board has nine cells, all empty |
| `TicTacToe.Other` | server/index.js:143 | the turn passes to the other symbol |
| `TicTacToe.MoveOnlyWinsForMover` | server/index.js:135-141 | a mark placed on a board without a completed line can only complete lines of its own symbol, so crediting the win to the mover agrees with the evaluator |
| `TicTacToe.CountAfterMark` | server/index.js:135 | marking an empty cell adds exactly one mark of the mover and none of the other symbol |
| `TicTacToe.MoveKeepsTurnRule` | server/index.js:135-143 | a move by the symbol to move, followed by the turn flip, keeps "X moves when the counts are equal, O when X is one ahead" |
| `TicTacToe.EmptyBoardOpen` | server/index.js:53-54 | the empty board has no result and X is to move on it |
| `TicTacToe.DiagonalWin` | server/index.js:29-33 | every board with X in cells 0, 4 and 8 is a win for X, whatever the other cells hold |
| `TicTacToe.FullBoardDraw` | server/index.js:36-38 | worked example: the full board XOX/XOO/OXX is a draw |
| `TicTacToe.FullBoardWithLine` | server/index.js:29-38 | worked example: the full board XXX/OOX/XOO is a win for X, not a draw |
| `RoomCode.Upper` | server/index.js:48 | upper-casing keeps the length, leaves no lower-case letter, maps each lower-case letter to its capital and keeps every other character |
| `RoomCode.UpperKeepsUpper` | server/index.js:48 | upper-casing a code without lower-case letters changes nothing |
| `RoomCode.Trim` | server/index.js:69 | trimming keeps a contiguous part of the code that contains every character that is not white space, and the result neither starts nor ends with white space |
| `RoomCode.TrimKeepsTrimmed` | server/index.js:69 | trimming a code without white space at either end changes nothing |
| `RoomCode.Normalize` | server/index.js:69 | the lookup key of a join has no lower-case letter and no white space at either end, and is no longer than the code sent |
| `RoomCode.NormalizeIdempotent` | server/index.js:69 | normalising a normalised key changes nothing |
| `RoomCode.JoinKeyMatchesCreateKey` | server/index.js:48-69 | the key a join looks up equals the key the room was created under exactly when the code has no white space at either end |
| `Rooms.NewRoom` | server/index.js:51-57 | the created room keeps the room invariant, with its creator as the only player, symbol X, waiting |
| `Rooms.FindIndex` | server/index.js:174 | the result is the first seat held by the socket, or -1 exactly when no seat is |
| `Rooms.AddPlayer` | server/index.js:94-95 | the joining socket is appended as a player with symbol O after the existing players, the status becomes playing, and board, turn and winner stay |
| `Rooms.JoinAdmitsExactlyWaiting` | server/index.js:84-92 | for a stored room, passing both join checks (fewer than two players, not playing or finished) is the same as being waiting |
| `Rooms.JoinKeepsInv` | server/index.js:94-95 | joining a waiting room gives two players, X then O, a playing game on an empty board with X to move, and keeps the invariant |
| `Rooms.Place` | server/index.js:135-144 | exactly one cell changes, to the mover's symbol, and the board keeps nine cells; on a result the room finishes with the turn kept and 'draw' recorded exactly for a draw; otherwise the turn flips and status and winner stay; the players stay |
| `Rooms.PlaceKeepsInv` | server/index.js:135-144 | an accepted move keeps the room invariant, so a finished room records the evaluator's verdict and a playing room keeps the turn rule |
| `Rooms.ResetRoom` | server/index.js:160-163 | a reset leaves the players untouched |
| `Rooms.ResetKeepsInv` | server/index.js:160-163 | a reset room keeps the invariant and has an open board, whatever its state before |
| `Rooms.ResetIdempotent` | server/index.js:160-163 | resetting twice is resetting once |
| `Rooms.RemovePlayerAt` | server/index.js:176 | the seat at the given position is spliced out: the players before and after it stay in order, one fewer player remains, the removed player is the only one missing, and board, turn, status and winner stay |
| `Rooms.LeaveKeepsInv` | server/index.js:176-182 | a leaving player's seat is removed; the last player leaves an empty room; one of two leaves a room that keeps the invariant and is not waiting, so it admits nobody new |
| `Server.FailureText` | server/index.js:72-130 | every refusal carries the non-empty message text the server sends |
| `Server.FirstHolder` | server/index.js:173-175 | the first room in insertion order that lists the socket, and -1 exactly when none does |
| `Server.FirstHolderAt` | server/index.js:173-183 | a search that passes rooms without the socket and stops at one with it has found the first holder |
| `Server.FindHolder` | server/index.js:173-175 | the loop over the rooms stops at the first room, in insertion order, that lists the socket, or runs past the last room when none does |
| `Server.Without` | server/index.js:178 | deleting a code removes it from the insertion order: one fewer code, the codes before it in place, the codes after it shifted down by one, and the deleted code the only one missing |
| `Server.DeleteKeepsIndex` | server/index.js:178 | deleting a room and its code keeps the insertion order an exact index of the map |
| `Server.ReplaceKeepsIndex` | server/index.js:176-181 | replacing the room stored under a code keeps the insertion order an exact index of the map |
| `Server.StoreKeepsValid` | server/index.js:51 | storing a valid room under an upper-case code, or deleting a code, keeps every stored room valid |
| `Server.Registry.constructor` | server/index.js:19 | the server starts with no rooms |
| `Server.Registry.CreateRoom` | server/index.js:47-63 | the code asked for, or else the generated one, upper-cased, maps to a new room with one X player, waiting, on an empty board; a live room with that code is replaced and keeps its insertion position; no other room changes; the sender gets 'roomCreated' and the channel the room |
| `Server.Registry.JoinRoom` | server/index.js:66-101 | an empty key, an unknown room, a full room and a playing or finished room are refused in that order with nothing changed; otherwise the sender is appended as O, the room plays, and no other room changes |
| `Server.Registry.MakeMove` | server/index.js:104-148 | a missing room, a non-player, a game not in progress, the wrong turn and a cell that is not an empty cell in 0..8 are refused in that order with nothing changed; otherwise the room becomes `Place` of the move and the channel gets it |
| `Server.Registry.ResetGame` | server/index.js:151-166 | a missing room is refused with nothing changed; otherwise that room alone is reset, whoever asks |
| `Server.Registry.Disconnect` | server/index.js:169-186 | the socket loses its seat in the first room, in insertion order, that lists it, and in no other; an emptied room is deleted with its code; otherwise the room keeps everything but that seat and its channel gets 'playerLeft'; a socket in no room changes nothing |
| `Server.Registry.Leave` | server/index.js:175-182 | at the room where the loop stops, the socket's seat is removed; an emptied room is deleted with its code and nothing is sent; otherwise the room is stored without that seat, keeps its insertion position, and its channel gets 'playerLeft' and the room |

## Left out

- The Express app, the HTTP server, CORS, socket.io setup and `server.listen`: transport plumbing.
- Channel membership (`socket.join`, and socket.io dropping a closed socket from its channels): a message to `Channel(code)` names the room's channel, not the sockets subscribed to it. So the model does not show that sockets of a replaced room still receive the new room's broadcasts.
- `console.log` calls: they change no state.
- `Math.random` room codes: the generated code is the parameter `generated` of `CreateRoom`.
- `RoomCode.Upper`: models `toUpperCase` for the ASCII letters only, because full Unicode case mapping (which can change a string's length) is out of scope.
- Payload shapes: the model assumes string codes and names and an integer cell index. It does not model a missing payload object, a non-string code (which makes `toUpperCase` throw), or a non-integer index. A non-integer index reads `undefined` and is refused like one out of range. A numeric string index such as "4" would index like 4.
- Room records are values stored in the map, not shared objects. Nothing but the map holds a room, and emitted rooms are serialised snapshots, so updating the stored value matches updating the object in place.
- `leaveRoom`: the server has no handler for it, so there is nothing to model.
- Concurrency: the handlers run to completion one at a time on Node's event loop, and the code has no serialisation logic.
- The client applications (`src/App.jsx`, `client/src/`): user interface state, not authoritative.
