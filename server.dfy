/** The server's room registry, the JavaScript `Map` from room code to room
    record, and the socket event handlers that read and change it. Socket
    ids, room codes and player names arrive as parameters; what a handler
    sends is returned as a list of addressed messages. */
module Server {
  import opened TicTacToe
  import opened RoomCode
  import opened Rooms

  /** Who a message goes to: the socket that sent the event, or every
      socket subscribed to a room's channel. */
  datatype Audience = Sender | Channel(roomId: string)

  /** The reasons a handler answers with an 'error' message. */
  datatype Failure =
    | InvalidRoomId            // joinRoom: empty code
    | UnknownRoom(key: string) // joinRoom: no room under the code
    | RoomNotFound             // makeMove, resetGame: no room under the code
    | RoomFull
    | GameUnavailable          // joinRoom: room playing or finished
    | NotInRoom
    | GameNotInProgress
    | NotYourTurn
    | CellTaken

  /** The `message` text the 'error' event carries. */
  function FailureText(f: Failure): (text: string)
    ensures text != ""
  {
    match f
    case InvalidRoomId => "Invalid room ID"
    case UnknownRoom(key) => "Room \"" + key + "\" not found. Make sure the room ID is correct."
    case RoomNotFound => "Room not found"
    case RoomFull => "Room is full"
    case GameUnavailable => "Game already in progress or finished"
    case NotInRoom => "You are not in this room"
    case GameNotInProgress => "Game is not in progress"
    case NotYourTurn => "Not your turn"
    case CellTaken => "Cell already taken"
  }

  /** The events the server emits; a room travels as a snapshot of its
      record at the time of sending. */
  datatype Message =
    | RoomCreated(roomId: string, symbol: Symbol)
    | RoomJoined(roomId: string, symbol: Symbol)
    | RoomUpdate(room: Room)
    | GameUpdate(room: Room)
    | PlayerLeft
    | Error(failure: Failure)

  datatype Emit = Emit(to: Audience, msg: Message)

  /** The single reply of a rejected request. */
  function Rejected(f: Failure): seq<Emit>
  {
    [Emit(Sender, Error(f))]
  }

  /** The position in `order` of the first room, in the map's insertion
      order, that lists `socket` among its players; -1 if there is none. */
  function FirstHolder(order: seq<string>, rooms: map<string, Room>, socket: string): (h: int)
    requires forall k :: k in order ==> k in rooms
    ensures -1 <= h < |order|
    ensures h >= 0 ==>
      FindIndex(rooms[order[h]].players, socket) >= 0
      && forall j :: 0 <= j < h ==> FindIndex(rooms[order[j]].players, socket) == -1
    ensures h == -1 <==> forall j :: 0 <= j < |order| ==> FindIndex(rooms[order[j]].players, socket) == -1
    decreases |order|
  {
    if order == [] then -1
    else if FindIndex(rooms[order[0]].players, socket) >= 0 then 0
    else
      var h := FirstHolder(order[1..], rooms, socket);
      if h == -1 then -1 else h + 1
  }

  /** The search of `disconnect` stops at the first room that lists the
      socket, and only there. */
  lemma FirstHolderAt(order: seq<string>, rooms: map<string, Room>, socket: string, i: nat)
    requires forall k :: k in order ==> k in rooms
    requires i <= |order|
    requires forall j :: 0 <= j < i ==> FindIndex(rooms[order[j]].players, socket) == -1
    requires i < |order| ==> FindIndex(rooms[order[i]].players, socket) >= 0
    ensures FirstHolder(order, rooms, socket) == if i < |order| then i else -1
  {
  }

  /** The loop of `disconnect` over the rooms in insertion order: it stops
      at the first room that lists the socket, or runs off the end. */
  method FindHolder(keys: seq<string>, table: map<string, Room>, socket: string) returns (i: nat)
    requires forall k :: k in keys ==> k in table
    ensures i <= |keys|
    ensures FirstHolder(keys, table, socket) == if i < |keys| then i else -1
  {
    i := 0;
    while i < |keys|
      invariant 0 <= i <= |keys|
      invariant forall j :: 0 <= j < i ==> FindIndex(table[keys[j]].players, socket) == -1
    {
      if FindIndex(table[keys[i]].players, socket) != -1 {
        break;
      }
      i := i + 1;
    }
    FirstHolderAt(keys, table, socket, i);
  }

  /** `order` without its element at position `i`. */
  function Without(order: seq<string>, i: nat): (r: seq<string>)
    requires i < |order|
    ensures |r| == |order| - 1
    ensures forall m :: 0 <= m < |r| ==> r[m] == order[if m < i then m else m + 1]
    ensures multiset(r) + multiset{order[i]} == multiset(order)
  {
    assert order == order[..i] + [order[i]] + order[i + 1..];
    order[..i] + order[i + 1..]
  }

  /** `order` lists every key of `rooms` exactly once. */
  ghost predicate Indexes(order: seq<string>, rooms: map<string, Room>)
  {
    && (forall i, j :: 0 <= i < j < |order| ==> order[i] != order[j])
    && (forall k :: k in order <==> k in rooms)
  }

  /** Deleting a room and its code keeps the insertion order an index of
      the map. */
  lemma DeleteKeepsIndex(order: seq<string>, rooms: map<string, Room>, i: nat)
    requires Indexes(order, rooms) && i < |order|
    ensures Indexes(Without(order, i), rooms - {order[i]})
  {
  }

  /** Replacing the room stored under a code keeps the insertion order an
      index of the map. */
  lemma ReplaceKeepsIndex(order: seq<string>, rooms: map<string, Room>, key: string, room: Room)
    requires Indexes(order, rooms) && key in rooms
    ensures Indexes(order, rooms[key := room])
  {
  }

  /** Every stored code is upper case and every stored room keeps the room
      invariant. */
  ghost predicate AllRoomsValid(rooms: map<string, Room>)
  {
    forall k :: k in rooms ==> NoLower(k) && Inv(rooms[k])
  }

  /** Storing a room that keeps the invariant under an upper-case code, or
      deleting a code, keeps every stored room valid. */
  lemma StoreKeepsValid(rooms: map<string, Room>, key: string, room: Room)
    requires AllRoomsValid(rooms) && NoLower(key) && Inv(room)
    ensures AllRoomsValid(rooms[key := room])
    ensures AllRoomsValid(rooms - {key})
  {
  }

  class Registry {
    /** The room codes in the `Map`'s insertion order, which is the order
        `disconnect` visits them in. */
    var order: seq<string>
    /** The `rooms` map itself. */
    var rooms: map<string, Room>

    /** `order` lists each stored code once; every stored code is upper
        case; every stored room keeps the room invariant. */
    ghost predicate Valid()
      reads this
    {
      && Indexes(order, rooms)
      && AllRoomsValid(rooms)
    }

    /** The server starts with no rooms. */
    constructor ()
      ensures Valid() && order == [] && rooms == map[]
    {
      order := [];
      rooms := map[];
    }

    /** 'createRoom': the code asked for, or the generated one when none is
        given, upper-cased (not trimmed); the room stored under it replaces
        any room already there, which keeps its place in the insertion
        order. */
    method CreateRoom(socket: string, requested: string, generated: string, playerName: string)
      returns (roomId: string, events: seq<Emit>)
      requires Valid()
      modifies this
      ensures Valid()
      ensures roomId == Upper(if requested != "" then requested else generated)
      ensures rooms == old(rooms)[roomId := NewRoom(socket, if playerName != "" then playerName else "Player 1")]
      ensures order == if roomId in old(rooms) then old(order) else old(order) + [roomId]
      ensures events == [Emit(Sender, RoomCreated(roomId, X)), Emit(Channel(roomId), RoomUpdate(rooms[roomId]))]
    {
      roomId := Upper(if requested != "" then requested else generated);
      var room := NewRoom(socket, if playerName != "" then playerName else "Player 1");
      if roomId !in rooms {
        order := order + [roomId];
      }
      rooms := rooms[roomId := room];
      events := [Emit(Sender, RoomCreated(roomId, X)), Emit(Channel(roomId), RoomUpdate(room))];
    }

    /** 'joinRoom': the code is upper-cased and trimmed; an empty code, an
        unknown room, a room with two players and a room that is playing or
        finished are refused in that order, and change nothing. Otherwise
        the sender becomes player O and the game starts. There is no check
        that the sender already sits in the room. */
    method JoinRoom(socket: string, roomId: string, playerName: string) returns (events: seq<Emit>)
      requires Valid()
      modifies this
      ensures Valid()
      ensures
        var key := Normalize(roomId);
        if key == "" then
          unchanged(this) && events == Rejected(InvalidRoomId)
        else if key !in old(rooms) then
          unchanged(this) && events == Rejected(UnknownRoom(key))
        else if |old(rooms)[key].players| >= 2 then
          unchanged(this) && events == Rejected(RoomFull)
        else if old(rooms)[key].status != Waiting then
          unchanged(this) && events == Rejected(GameUnavailable)
        else
          && order == old(order)
          && rooms == old(rooms)[key := AddPlayer(old(rooms)[key], socket,
                                         if playerName != "" then playerName else "Player 2")]
          && |rooms[key].players| == 2 && rooms[key].status == Playing
          && events == [Emit(Sender, RoomJoined(key, O)), Emit(Channel(key), RoomUpdate(rooms[key]))]
    {
      var key := Normalize(roomId);
      if key == "" {
        return Rejected(InvalidRoomId);
      }
      if key !in rooms {
        return Rejected(UnknownRoom(key));
      }
      var room := rooms[key];
      if |room.players| >= 2 {
        return Rejected(RoomFull);
      }
      if room.status == Playing || room.status == Finished {
        return Rejected(GameUnavailable);
      }
      var joined := AddPlayer(room, socket, if playerName != "" then playerName else "Player 2");
      JoinKeepsInv(room, socket, if playerName != "" then playerName else "Player 2");
      rooms := rooms[key := joined];
      events := [Emit(Sender, RoomJoined(key, O)), Emit(Channel(key), RoomUpdate(joined))];
    }

    /** 'makeMove': the code is used as given. A missing room, a sender who
        is not a player, a game not in progress, a sender whose symbol is
        not the one to move and a cell that is not an empty cell of the
        board (an index outside 0..8 reads as taken) are refused in that
        order, and change nothing. Otherwise the move is played. */
    method MakeMove(socket: string, roomId: string, cellIndex: int) returns (events: seq<Emit>)
      requires Valid()
      modifies this
      ensures Valid()
      ensures !NoLower(roomId) ==> unchanged(this) && events == Rejected(RoomNotFound)
      ensures
        if roomId !in old(rooms) then
          unchanged(this) && events == Rejected(RoomNotFound)
        else
          var room := old(rooms)[roomId];
          var p := FindIndex(room.players, socket);
          if p == -1 then
            unchanged(this) && events == Rejected(NotInRoom)
          else if room.status != Playing then
            unchanged(this) && events == Rejected(GameNotInProgress)
          else if room.players[p].symbol != room.currentPlayer then
            unchanged(this) && events == Rejected(NotYourTurn)
          else if !(0 <= cellIndex < 9 && room.board[cellIndex] == Empty) then
            unchanged(this) && events == Rejected(CellTaken)
          else
            && order == old(order)
            && rooms == old(rooms)[roomId := Place(room, cellIndex, room.currentPlayer)]
            && events == [Emit(Channel(roomId), GameUpdate(rooms[roomId]))]
    {
      if roomId !in rooms {
        return Rejected(RoomNotFound);
      }
      var room := rooms[roomId];
      var p := FindIndex(room.players, socket);
      if p == -1 {
        return Rejected(NotInRoom);
      }
      var player := room.players[p];
      if room.status != Playing {
        return Rejected(GameNotInProgress);
      }
      if room.currentPlayer != player.symbol {
        return Rejected(NotYourTurn);
      }
      if !(0 <= cellIndex < 9 && room.board[cellIndex] == Empty) {
        return Rejected(CellTaken);
      }
      var moved := Place(room, cellIndex, player.symbol);
      PlaceKeepsInv(room, cellIndex);
      rooms := rooms[roomId := moved];
      events := [Emit(Channel(roomId), GameUpdate(moved))];
    }

    /** 'resetGame': any room found under the code as given gets a fresh
        game, whoever asks and however many players it has; a missing room
        is refused and nothing changes. */
    method ResetGame(roomId: string) returns (events: seq<Emit>)
      requires Valid()
      modifies this
      ensures Valid()
      ensures
        if roomId !in old(rooms) then
          unchanged(this) && events == Rejected(RoomNotFound)
        else
          && order == old(order)
          && rooms == old(rooms)[roomId := ResetRoom(old(rooms)[roomId])]
          && events == [Emit(Channel(roomId), GameUpdate(rooms[roomId]))]
    {
      if roomId !in rooms {
        return Rejected(RoomNotFound);
      }
      var room := ResetRoom(rooms[roomId]);
      ResetKeepsInv(rooms[roomId]);
      rooms := rooms[roomId := room];
      events := [Emit(Channel(roomId), GameUpdate(room))];
    }

    /** 'disconnect': the rooms are visited in insertion order and the
        socket's seat is removed from the first room that lists it, and from
        no other. A socket in no room changes nothing. */
    method Disconnect(socket: string) returns (events: seq<Emit>)
      requires Valid()
      modifies this
      ensures Valid()
      ensures
        var h := FirstHolder(old(order), old(rooms), socket);
        if h == -1 then
          unchanged(this) && events == []
        else
          var key := old(order)[h];
          var left := RemovePlayerAt(old(rooms)[key], FindIndex(old(rooms)[key].players, socket));
          if left.players == [] then
            && rooms == old(rooms) - {key}
            && order == Without(old(order), h)
            && events == []
          else
            && rooms == old(rooms)[key := left]
            && order == old(order)
            && events == [Emit(Channel(key), PlayerLeft), Emit(Channel(key), RoomUpdate(left))]
    {
      assert Indexes(order, rooms);
      var i := FindHolder(order, rooms, socket);
      if i < |order| {
        events := Leave(i, socket);
      } else {
        events := [];
      }
    }

    /** The step of 'disconnect' at the room where its loop stops: the
        socket's seat is spliced out of the room at position `i`. A room
        left empty is deleted; otherwise its channel is told that a player
        left and gets the room. */
    method Leave(i: nat, socket: string) returns (events: seq<Emit>)
      requires Valid() && i < |order|
      requires order[i] in rooms && FindIndex(rooms[order[i]].players, socket) >= 0
      modifies this
      ensures Valid()
      ensures
        var key := old(order)[i];
        var left := RemovePlayerAt(old(rooms)[key], FindIndex(old(rooms)[key].players, socket));
        if left.players == [] then
          && rooms == old(rooms) - {key}
          && order == Without(old(order), i)
          && events == []
        else
          && rooms == old(rooms)[key := left]
          && order == old(order)
          && events == [Emit(Channel(key), PlayerLeft), Emit(Channel(key), RoomUpdate(left))]
    {
      var key := order[i];
      var room := rooms[key];
      var p := FindIndex(room.players, socket);
      var left := RemovePlayerAt(room, p);
      LeaveKeepsInv(room, p);
      events := [];
      if |left.players| == 0 {
        StoreKeepsValid(rooms, key, room);
        DeleteKeepsIndex(order, rooms, i);
        rooms := rooms - {key};
        order := Without(order, i);
      } else {
        StoreKeepsValid(rooms, key, left);
        ReplaceKeepsIndex(order, rooms, key, left);
        rooms := rooms[key := left];
        events := [Emit(Channel(key), PlayerLeft), Emit(Channel(key), RoomUpdate(left))];
      }
    }
  }
}
