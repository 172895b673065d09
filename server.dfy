/**
 * The room server (server/server.js). A process-wide dictionary maps room ids
 * to rooms; each room holds its players' connections and a game state that the
 * message handlers update in place. Connections are identified by numbers, the
 * clock by a parameter, and every outgoing message is appended to a log as
 * (recipients, message) instead of being written to a socket.
 */
module Server {
  import opened Keys
  import opened Pieces
  import opened AutoPlayer

  type ConnId = nat

  /** What a client sends as a move: the board after it and the side to move next. */
  datatype Payload = Payload(pieces: Board, turn: string)

  /** A room's game: board, side to move and the list of moves received. */
  datatype GameState = GameState(pieces: Board, turn: string, history: seq<Payload>)

  datatype Room = Room(players: seq<ConnId>, state: GameState)

  /** Inbound messages by their `type`; any other type is Unknown and ignored. */
  datatype Request =
    | CreateRoom
    | GetRoomList
    | JoinRoom(roomId: string)
    | MakeMove(roomId: string, payload: Payload)
    | Undo(roomId: string)
    | Restart(roomId: string)
    | Disconnect(roomId: string)
    | Unknown(kind: string)

  /** Outbound messages by their `type`. */
  datatype Notice =
    | RoomList(rooms: seq<string>)
    | RoomJoined(roomId: string, playerColor: string, state: GameState)
    | Error(message: string)
    | PlayerJoined(playerColor: string)
    | Moved(state: GameState)
    | Undone(entry: Payload)
    | Restarted(state: GameState)
    | PlayerDisconnected

  /** One send: the same message to each listed connection. */
  datatype Envelope = Envelope(to: seq<ConnId>, notice: Notice)

  const RoomNotFound: string := "房间未找到"
  const RoomFull: string := "房间已满"

  /**
   * 2^32 - 1, the least integer whose decimal text is not an array index.
   * Object.keys lists array-index keys first, in numeric order, and all other
   * keys in insertion order; the clock's readings lie above this bound, so
   * room ids keep insertion order.
   */
  const ArrayIndexLimit: nat := 4294967295

  predicate Distinct<T(==)>(s: seq<T>) {
    forall i, j :: 0 <= i < j < |s| ==> s[i] != s[j]
  }

  /** filter((player) => player !== x): s without any occurrence of x, order kept. */
  function Without<T(==, !new)>(s: seq<T>, x: T): (r: seq<T>)
    ensures forall y :: y in r <==> y in s && y != x
    ensures |r| <= |s|
    ensures x !in s ==> r == s
    ensures Distinct(s) ==> Distinct(r)
    decreases |s|
  {
    if s == [] then []
    else
      var rest := Without(s[1..], x);
      assert Distinct(s) ==> s[0] !in s[1..];
      if s[0] == x then rest else [s[0]] + rest
  }

  /** Filtering a concatenation filters each part: the kept elements stay in order. */
  lemma {:induction false} WithoutConcat<T(!new)>(a: seq<T>, b: seq<T>, x: T)
    ensures Without(a + b, x) == Without(a, x) + Without(b, x)
    decreases |a|
  {
    if a != [] {
      assert (a + b)[1..] == a[1..] + b;
      WithoutConcat(a[1..], b, x);
    } else {
      assert a + b == b;
    }
  }

  /** A single element is kept exactly when it differs from x. */
  lemma WithoutSingle<T(!new)>(y: T, x: T)
    ensures Without([y], x) == if y == x then [] else [y]
  {
    assert [y][1..] == [];
  }

  /** Without is the filter: order and repeats of the kept elements survive. */
  lemma WithoutExample()
    ensures Without([1, 2, 3], 1) == [2, 3]
    ensures Without([2, 2, 1], 1) == [2, 2]
  {
    assert [1, 2, 3][1..] == [2, 3] && [2, 3][1..] == [3] && [3][1..] == [];
    assert [2, 2, 1][1..] == [2, 1] && [2, 1][1..] == [1] && [1][1..] == [];
  }

  /** The keys of ks that are in keep, in the order of ks. */
  function Survivors(ks: seq<string>, keep: set<string>): seq<string>
    decreases |ks|
  {
    if ks == [] then [] else (if ks[0] in keep then [ks[0]] else []) + Survivors(ks[1..], keep)
  }

  /** The survivors are the listed keys that are kept, without repeats if ks has none. */
  lemma {:induction false} SurvivorsFacts(ks: seq<string>, keep: set<string>)
    ensures forall k :: k in Survivors(ks, keep) <==> k in ks && k in keep
    ensures Distinct(ks) ==> Distinct(Survivors(ks, keep))
  {
    if ks != [] {
      SurvivorsFacts(ks[1..], keep);
      assert Distinct(ks) ==> ks[0] !in ks[1..];
    }
  }

  lemma {:induction false} SurvivorsAll(ks: seq<string>, keep: set<string>)
    requires forall i :: 0 <= i < |ks| ==> ks[i] in keep
    ensures Survivors(ks, keep) == ks
  {
    if ks != [] {
      SurvivorsAll(ks[1..], keep);
    }
  }

  /** Deleting a key from the table deletes it from the key order. */
  lemma {:induction false} SurvivorsWithout(ks: seq<string>, keep: set<string>, id: string)
    ensures Survivors(ks, keep - {id}) == Without(Survivors(ks, keep), id)
  {
    if ks != [] {
      SurvivorsWithout(ks[1..], keep, id);
      var tail := Survivors(ks[1..], keep);
      if ks[0] in keep && ks[0] != id {
        assert Without([ks[0]] + tail, id) == [ks[0]] + Without(tail, id) by {
          assert ([ks[0]] + tail)[1..] == tail;
        }
      } else if ks[0] in keep {
        assert Without([ks[0]] + tail, id) == Without(tail, id) by {
          assert ([ks[0]] + tail)[1..] == tail;
        }
      } else {
        assert Survivors(ks, keep) == tail;
      }
    }
  }

  /** createInitialState: the canonical opening position, red to move, no history. */
  function InitialState(): GameState {
    GameState(
      map[
        "0-0" := "車", "0-1" := "馬", "0-2" := "相", "0-3" := "仕", "0-4" := "帥",
        "0-5" := "仕", "0-6" := "相", "0-7" := "馬", "0-8" := "車",
        "2-1" := "炮", "2-7" := "炮",
        "3-0" := "卒", "3-2" := "卒", "3-4" := "卒", "3-6" := "卒", "3-8" := "卒",
        "9-0" := "车", "9-1" := "马", "9-2" := "象", "9-3" := "士", "9-4" := "将",
        "9-5" := "士", "9-6" := "象", "9-7" := "马", "9-8" := "车",
        "7-1" := "砲", "7-7" := "砲",
        "6-0" := "兵", "6-2" := "兵", "6-4" := "兵", "6-6" := "兵", "6-8" := "兵"
      ],
      "red",
      [])
  }

  /** The cells holding symbol p. */
  function CellsWith(b: Board, p: string): set<string> {
    set k | k in b && b[k] == p
  }

  /** Orders the opening's three-character keys row-major (row digit, then column digit). */
  function CellCode(k: string): int {
    if |k| == 3 then (k[0] as int) * 256 + k[2] as int else 0
  }

  predicate Increasing(ks: seq<string>) {
    forall i :: 0 < i < |ks| ==> CellCode(ks[i - 1]) < CellCode(ks[i])
  }

  lemma {:induction false} IncreasingDistinct(ks: seq<string>)
    requires Increasing(ks)
    ensures Distinct(ks)
    ensures forall i :: 0 <= i < |ks| ==> CellCode(ks[i]) <= CellCode(ks[|ks| - 1])
  {
    if ks != [] {
      var init := ks[..|ks| - 1];
      IncreasingDistinct(init);
      forall i | 0 <= i < |ks| - 1 ensures CellCode(ks[i]) < CellCode(ks[|ks| - 1]) {
        assert ks[i] == init[i];
      }
    }
  }

  lemma {:induction false} DistinctCard<T>(s: seq<T>)
    requires Distinct(s)
    ensures |set x | x in s| == |s|
  {
    if s != [] {
      var init, last := s[..|s| - 1], s[|s| - 1];
      DistinctCard(init);
      assert last !in init;
      assert (set x | x in s) == (set x | x in init) + {last};
    }
  }

  /** The opening's occupied cells, row by row. */
  const OpeningCells: seq<string> := [
    "0-0", "0-1", "0-2", "0-3", "0-4", "0-5", "0-6", "0-7", "0-8",
    "2-1", "2-7",
    "3-0", "3-2", "3-4", "3-6", "3-8",
    "6-0", "6-2", "6-4", "6-6", "6-8",
    "7-1", "7-7",
    "9-0", "9-1", "9-2", "9-3", "9-4", "9-5", "9-6", "9-7", "9-8"]

  lemma OpeningCellsDistinct()
    ensures Distinct(OpeningCells) && |OpeningCells| == 32
  {
    assert Increasing(OpeningCells);
    IncreasingDistinct(OpeningCells);
  }

  lemma OpeningCellsCover()
    ensures InitialState().pieces.Keys == set k | k in OpeningCells
  {
  }

  lemma OpeningSize()
    ensures |InitialState().pieces| == 32
  {
    OpeningCellsDistinct();
    DistinctCard(OpeningCells);
    OpeningCellsCover();
    assert |InitialState().pieces.Keys| == 32;
  }

  lemma OpeningKings()
    ensures CellsWith(InitialState().pieces, "帥") == {"0-4"}
    ensures CellsWith(InitialState().pieces, "将") == {"9-4"}
  {
  }

  /** The opening has 32 pieces, one king per side, red to move, and is not over. */
  lemma InitialStateFacts()
    ensures |InitialState().pieces| == 32
    ensures CellsWith(InitialState().pieces, "帥") == {"0-4"}
    ensures CellsWith(InitialState().pieces, "将") == {"9-4"}
    ensures InitialState().turn == "red" && InitialState().history == []
    ensures !IsGameOver(InitialState().pieces)
  {
    OpeningSize();
    OpeningKings();
    assert "0-4" in CellsWith(InitialState().pieces, "帥");
    assert "9-4" in CellsWith(InitialState().pieces, "将");
  }

  /**
   * The close cleanup: ws leaves every room, and a room it leaves empty is
   * deleted.
   */
  function CloseAll(rooms: map<string, Room>, ws: ConnId): map<string, Room> {
    map id | id in rooms && Without(rooms[id].players, ws) != []
      :: rooms[id].(players := Without(rooms[id].players, ws))
  }

  /** The table after ws leaves room id: that room loses ws, and goes if that empties it. */
  function Dropped(rooms: map<string, Room>, id: string, ws: ConnId): map<string, Room>
    requires id in rooms
  {
    var p := Without(rooms[id].players, ws);
    if p == [] then rooms - {id} else rooms[id := rooms[id].(players := p)]
  }

  /**
   * The table part-way through the cleanup: the rooms listed in done have
   * lost ws (and are gone if that left them empty), the others are as they were.
   */
  function Closing(rooms: map<string, Room>, ws: ConnId, done: seq<string>): map<string, Room> {
    map id | id in rooms && (id in done ==> Without(rooms[id].players, ws) != [])
      :: if id in done then rooms[id].(players := Without(rooms[id].players, ws)) else rooms[id]
  }

  /** Cleaning one more room: it is still untouched, and is updated or deleted on its own. */
  lemma ClosingStep(rooms: map<string, Room>, ws: ConnId, done: seq<string>, id: string)
    requires id in rooms && id !in done
    ensures id in Closing(rooms, ws, done) && Closing(rooms, ws, done)[id] == rooms[id]
    ensures Closing(rooms, ws, done + [id]) == Dropped(Closing(rooms, ws, done), id, ws)
  {
    var cur, p := Closing(rooms, ws, done), Without(rooms[id].players, ws);
    var next := Closing(rooms, ws, done + [id]);
    var want := if p == [] then cur - {id} else cur[id := rooms[id].(players := p)];
    assert next.Keys == want.Keys;
  }

  /** The cleanup loop's step: after the first i keys, the (i+1)-th room is dropped from. */
  lemma ClosingNext(rooms: map<string, Room>, ws: ConnId, keys: seq<string>, i: nat)
    requires i < |keys| && Distinct(keys) && keys[i] in rooms
    ensures keys[i] in Closing(rooms, ws, keys[..i])
    ensures Closing(rooms, ws, keys[..i + 1]) == Dropped(Closing(rooms, ws, keys[..i]), keys[i], ws)
  {
    assert keys[i] !in keys[..i] by {
      forall j | 0 <= j < i ensures keys[..i][j] != keys[i] {
        assert keys[j] != keys[i];
      }
    }
    ClosingStep(rooms, ws, keys[..i], keys[i]);
    assert keys[..i + 1] == keys[..i] + [keys[i]];
  }

  lemma ClosingNone(rooms: map<string, Room>, ws: ConnId)
    ensures Closing(rooms, ws, []) == rooms
  {
    assert Closing(rooms, ws, []).Keys == rooms.Keys;
  }

  lemma ClosingAll(rooms: map<string, Room>, ws: ConnId, done: seq<string>)
    requires forall id :: id in rooms ==> id in done
    ensures Closing(rooms, ws, done) == CloseAll(rooms, ws)
  {
    assert Closing(rooms, ws, done).Keys == CloseAll(rooms, ws).Keys;
  }

  /** Every room of a valid table holds one or two players. */
  predicate Seated(rooms: map<string, Room>) {
    forall id :: id in rooms ==> 1 <= |rooms[id].players| <= 2
  }

  /**
   * After the cleanup ws is in no room, no room is empty, each surviving room
   * keeps its game and its other players, and a room disappears exactly when
   * ws was its only player.
   */
  lemma CloseAllFacts(rooms: map<string, Room>, ws: ConnId)
    requires Seated(rooms)
    ensures Seated(CloseAll(rooms, ws))
    ensures forall id :: id in CloseAll(rooms, ws) ==> ws !in CloseAll(rooms, ws)[id].players
    ensures forall id :: id in CloseAll(rooms, ws) ==>
      id in rooms && CloseAll(rooms, ws)[id].state == rooms[id].state
      && (forall c :: c in CloseAll(rooms, ws)[id].players <==> c in rooms[id].players && c != ws)
    ensures forall id :: id in rooms ==>
      (id !in CloseAll(rooms, ws) <==> forall c :: c in rooms[id].players ==> c == ws)
  {
    forall id | id in rooms
      ensures id !in CloseAll(rooms, ws) <==> forall c :: c in rooms[id].players ==> c == ws
    {
      var r := Without(rooms[id].players, ws);
      if r != [] {
        assert r[0] in r;
      }
    }
  }

  /** The server: the rooms table with its key order, the open connections and the send log. */
  class RoomServer {
    var rooms: map<string, Room>
    /** Object.keys(rooms): ids in the order they were first added. */
    var ids: seq<string>
    /** wss.clients: the open connections. */
    var clients: seq<ConnId>
    var outbox: seq<Envelope>

    ghost predicate Valid()
      reads this
    {
      && Distinct(ids)
      && (forall id :: id in ids <==> id in rooms)
      && Seated(rooms)
      && Distinct(clients)
    }

    /*
     * What each message handler leaves behind, as a relation between the state
     * before it (old) and after it. Each handler ensures its relation, and the
     * message switch ensures the relation of the handler its type selects.
     */

    /** handleGetRoomList: the asker alone gets the current ids; nothing else changes. */
    twostate predicate SentRoomList(ws: ConnId)
      reads this
    {
      && rooms == old(rooms) && ids == old(ids) && clients == old(clients)
      && outbox == old(outbox) + [Envelope([ws], RoomList(ids))]
    }

    /** handleCreateRoom: the room Decimal(now) holds ws and a fresh game; ws hears red, everyone the list. */
    twostate predicate CreatedRoom(ws: ConnId, now: nat)
      reads this
    {
      var id := Decimal(now);
      && rooms == old(rooms)[id := Room([ws], InitialState())]
      && ids == (if id in old(rooms) then old(ids) else old(ids) + [id])
      && clients == old(clients)
      && outbox == old(outbox) + [Envelope([ws], RoomJoined(id, "red", InitialState())),
                                  Envelope(clients, RoomList(ids))]
    }

    /** handleJoinRoom: an error for an unknown or full room; otherwise ws is seated as black. */
    twostate predicate JoinedRoom(ws: ConnId, roomId: string)
      reads this
    {
      && ids == old(ids) && clients == old(clients)
      && (roomId !in old(rooms) ==>
            rooms == old(rooms) && outbox == old(outbox) + [Envelope([ws], Error(RoomNotFound))])
      && (roomId in old(rooms) && |old(rooms)[roomId].players| >= 2 ==>
            rooms == old(rooms) && outbox == old(outbox) + [Envelope([ws], Error(RoomFull))])
      && (roomId in old(rooms) && |old(rooms)[roomId].players| < 2 ==>
            var room := old(rooms)[roomId];
            var joined := room.players + [ws];
            && rooms == old(rooms)[roomId := room.(players := joined)]
            && outbox == old(outbox) + [Envelope([ws], RoomJoined(roomId, "black", room.state)),
                                        Envelope(joined, PlayerJoined("black"))])
    }

    /** handleMove: the payload becomes the room's board and turn and joins its history; the room hears it. */
    twostate predicate AppliedMove(roomId: string, move: Payload)
      reads this
    {
      && ids == old(ids) && clients == old(clients)
      && (roomId !in old(rooms) ==> rooms == old(rooms) && outbox == old(outbox))
      && (roomId in old(rooms) ==>
            var room := old(rooms)[roomId];
            var state := GameState(move.pieces, move.turn, room.state.history + [move]);
            && rooms == old(rooms)[roomId := room.(state := state)]
            && outbox == old(outbox) + [Envelope(room.players, Moved(state))])
    }

    /** handleUndo: the last history entry becomes the board and turn and is dropped; the room hears it. */
    twostate predicate UndidMove(roomId: string)
      reads this
    {
      && ids == old(ids) && clients == old(clients)
      && ((roomId !in old(rooms) || old(rooms)[roomId].state.history == []) ==>
            rooms == old(rooms) && outbox == old(outbox))
      && (roomId in old(rooms) && old(rooms)[roomId].state.history != [] ==>
            var room := old(rooms)[roomId];
            var h := room.state.history;
            var last := h[|h| - 1];
            && rooms == old(rooms)[roomId := room.(state := GameState(last.pieces, last.turn, h[..|h| - 1]))]
            && outbox == old(outbox) + [Envelope(room.players, Undone(last))])
    }

    /** handleRestart: the room gets a fresh game with the same players, and they hear it. */
    twostate predicate RestartedGame(roomId: string)
      reads this
    {
      && ids == old(ids) && clients == old(clients)
      && (roomId !in old(rooms) ==> rooms == old(rooms) && outbox == old(outbox))
      && (roomId in old(rooms) ==>
            var room := old(rooms)[roomId];
            && rooms == old(rooms)[roomId := room.(state := InitialState())]
            && outbox == old(outbox) + [Envelope(room.players, Restarted(InitialState()))])
    }

    /** handleDisconnect: ws leaves the room, which is deleted if empty and otherwise told. */
    twostate predicate LeftRoom(ws: ConnId, roomId: string)
      reads this
    {
      && clients == old(clients)
      && (roomId !in old(rooms) ==>
            rooms == old(rooms) && ids == old(ids) && outbox == old(outbox))
      && (roomId in old(rooms) ==>
            var room := old(rooms)[roomId];
            var players := Without(room.players, ws);
            if players == [] then
              && rooms == old(rooms) - {roomId}
              && ids == Without(old(ids), roomId)
              && outbox == old(outbox)
            else
              && rooms == old(rooms)[roomId := room.(players := players)]
              && ids == old(ids)
              && outbox == old(outbox) + [Envelope(players, PlayerDisconnected)])
    }

    /** A message of any other type: nothing changes and nothing is sent. */
    twostate predicate Ignored()
      reads this
    {
      rooms == old(rooms) && ids == old(ids) && clients == old(clients) && outbox == old(outbox)
    }

    constructor()
      ensures Valid()
      ensures rooms == map[] && ids == [] && clients == [] && outbox == []
    {
      rooms, ids, clients, outbox := map[], [], [], [];
    }

    /** A new connection joins wss.clients. */
    method Connect(ws: ConnId)
      requires Valid() && ws !in clients
      modifies this
      ensures Valid()
      ensures clients == old(clients) + [ws]
      ensures rooms == old(rooms) && ids == old(ids) && outbox == old(outbox)
    {
      clients := clients + [ws];
    }

    /** Sends to every open connection. */
    method BroadcastToAll(notice: Notice)
      modifies this`outbox
      ensures outbox == old(outbox) + [Envelope(clients, notice)]
    {
      outbox := outbox + [Envelope(clients, notice)];
    }

    /** Sends to every player of the room, if the room exists. */
    method BroadcastToRoom(roomId: string, notice: Notice)
      modifies this`outbox
      ensures roomId in rooms ==> outbox == old(outbox) + [Envelope(rooms[roomId].players, notice)]
      ensures roomId !in rooms ==> outbox == old(outbox)
    {
      if roomId in rooms {
        outbox := outbox + [Envelope(rooms[roomId].players, notice)];
      }
    }

    /** delete rooms[roomId]: the entry and its place in the key order go. */
    method DeleteRoom(roomId: string)
      modifies this`rooms, this`ids
      ensures rooms == old(rooms) - {roomId}
      ensures ids == Without(old(ids), roomId)
    {
      rooms := rooms - {roomId};
      ids := Without(ids, roomId);
    }

    /**
     * The shared step of the disconnect and close handlers: ws is filtered out
     * of the room's players and the room is deleted if none are left.
     */
    method DropPlayer(ws: ConnId, roomId: string) returns (emptied: bool)
      requires roomId in rooms
      modifies this`rooms, this`ids
      ensures emptied == (Without(old(rooms)[roomId].players, ws) == [])
      ensures rooms == Dropped(old(rooms), roomId, ws)
      ensures ids == if emptied then Without(old(ids), roomId) else old(ids)
    {
      var room := rooms[roomId];
      var players := Without(room.players, ws);
      rooms := rooms[roomId := room.(players := players)];
      emptied := |players| == 0;
      if emptied {
        DeleteRoom(roomId);
      }
    }

    /** handleGetRoomList: the current ids, to the asking connection only. */
    method HandleGetRoomList(ws: ConnId)
      requires Valid()
      modifies this`outbox
      ensures SentRoomList(ws)
      ensures forall id :: id in ids <==> id in rooms
    {
      outbox := outbox + [Envelope([ws], RoomList(ids))];
    }

    /**
     * handleCreateRoom: the room keyed by the clock's decimal text gets the
     * creator as its only player and a fresh game (an existing room with that
     * id is replaced in place); the creator is told it plays red, and every
     * client gets the new room list.
     */
    method HandleCreateRoom(ws: ConnId, now: nat)
      requires Valid() && now >= ArrayIndexLimit
      modifies this
      ensures Valid()
      ensures CreatedRoom(ws, now)
      ensures Decimal(now) in ids
    {
      var roomId := Decimal(now);
      if roomId !in rooms {
        ids := ids + [roomId];
      }
      rooms := rooms[roomId := Room([ws], InitialState())];
      outbox := outbox + [Envelope([ws], RoomJoined(roomId, "red", rooms[roomId].state))];
      BroadcastToAll(RoomList(ids));
    }

    /**
     * handleJoinRoom: an unknown id or a full room gets an error back and
     * changes nothing; otherwise the joiner is appended, told its colour (red
     * only if it is now the sole player, which a valid table never allows, so
     * always black) and the room's players are told who joined.
     */
    method HandleJoinRoom(ws: ConnId, roomId: string)
      requires Valid()
      modifies this
      ensures Valid()
      ensures JoinedRoom(ws, roomId)
    {
      if roomId !in rooms {
        outbox := outbox + [Envelope([ws], Error(RoomNotFound))];
        return;
      }
      var room := rooms[roomId];
      if |room.players| >= 2 {
        outbox := outbox + [Envelope([ws], Error(RoomFull))];
        return;
      }
      var players := room.players + [ws];
      rooms := rooms[roomId := room.(players := players)];
      var playerColor := if |players| == 1 then "red" else "black";
      outbox := outbox + [Envelope([ws], RoomJoined(roomId, playerColor, room.state))];
      BroadcastToRoom(roomId, PlayerJoined(playerColor));
    }

    /**
     * handleMove: the payload's board and turn replace the room's, unchecked,
     * and the payload is appended to the history; the room hears the new
     * state. An unknown room changes nothing.
     */
    method HandleMove(ws: ConnId, roomId: string, move: Payload)
      requires Valid()
      modifies this
      ensures Valid()
      ensures AppliedMove(roomId, move)
      ensures roomId in old(rooms) ==>
        |rooms[roomId].state.history| == |old(rooms)[roomId].state.history| + 1
    {
      if roomId !in rooms {
        return;
      }
      var room := rooms[roomId];
      var state := room.state.(pieces := move.pieces);
      state := state.(turn := move.turn);
      state := state.(history := state.history + [move]);
      rooms := rooms[roomId := room.(state := state)];
      BroadcastToRoom(roomId, Moved(state));
    }

    /**
     * handleUndo: with a non-empty history the board and turn become those of
     * the last entry and that entry is dropped; the room hears the entry. The
     * last entry is the move just applied, so the board is not rolled back.
     * An empty history or an unknown room changes and sends nothing.
     */
    method HandleUndo(ws: ConnId, roomId: string)
      requires Valid()
      modifies this
      ensures Valid()
      ensures UndidMove(roomId)
      ensures roomId in old(rooms) && old(rooms)[roomId].state.history != [] ==>
        |rooms[roomId].state.history| == |old(rooms)[roomId].state.history| - 1
    {
      if roomId !in rooms {
        return;
      }
      var room := rooms[roomId];
      var history := room.state.history;
      if |history| > 0 {
        var lastState := history[|history| - 1];
        var state := room.state.(pieces := lastState.pieces);
        state := state.(turn := lastState.turn);
        state := state.(history := history[..|history| - 1]);
        rooms := rooms[roomId := room.(state := state)];
        BroadcastToRoom(roomId, Undone(lastState));
      }
    }

    /** handleRestart: a fresh game, the same players; the room hears it. */
    method HandleRestart(ws: ConnId, roomId: string)
      requires Valid()
      modifies this
      ensures Valid()
      ensures RestartedGame(roomId)
    {
      if roomId !in rooms {
        return;
      }
      var room := rooms[roomId];
      rooms := rooms[roomId := room.(state := InitialState())];
      BroadcastToRoom(roomId, Restarted(rooms[roomId].state));
    }

    /**
     * handleDisconnect: ws leaves the named room; a room left empty is deleted
     * silently, otherwise the remaining players hear of it. The room list is
     * not re-broadcast.
     */
    method HandleDisconnect(ws: ConnId, roomId: string)
      requires Valid()
      modifies this
      ensures Valid()
      ensures LeftRoom(ws, roomId)
    {
      if roomId !in rooms {
        return;
      }
      var emptied := DropPlayer(ws, roomId);
      if !emptied {
        BroadcastToRoom(roomId, PlayerDisconnected);
      }
    }

    /**
     * The close handler: ws leaves wss.clients and every room; rooms left empty
     * are deleted; every remaining client gets the new room list.
     */
    method HandleClose(ws: ConnId)
      requires Valid()
      modifies this
      ensures Valid()
      ensures rooms == CloseAll(old(rooms), ws)
      ensures ids == Survivors(old(ids), rooms.Keys)
      ensures clients == Without(old(clients), ws)
      ensures outbox == old(outbox) + [Envelope(clients, RoomList(ids))]
    {
      clients := Without(clients, ws);
      ghost var orig := rooms;
      ghost var origIds := ids;
      LeaveAllRooms(ws);
      CloseAllFacts(orig, ws);
      SurvivorsFacts(origIds, rooms.Keys);
      BroadcastToAll(RoomList(ids));
    }

    /** Object.keys(rooms).forEach: ws leaves each room in turn, as listed when the loop begins. */
    method LeaveAllRooms(ws: ConnId)
      requires Distinct(ids) && forall id :: id in ids <==> id in rooms
      modifies this`rooms, this`ids
      ensures rooms == CloseAll(old(rooms), ws)
      ensures ids == Survivors(old(ids), rooms.Keys)
    {
      ghost var orig := rooms;
      var keys := ids;
      assert Distinct(keys) && forall id :: id in orig <==> id in keys;
      SurvivorsAll(keys, orig.Keys);
      ClosingNone(orig, ws);
      assert keys[..0] == [];
      for i := 0 to |keys|
        invariant rooms == Closing(orig, ws, keys[..i])
        invariant ids == Survivors(keys, rooms.Keys)
      {
        assert keys[i] in orig;
        LeaveOnClose(ws, keys[i], orig, keys, i);
      }
      assert keys[..|keys|] == keys;
      ClosingAll(orig, ws, keys);
    }

    /**
     * The forEach callback for the i-th listed room. The room is always still
     * there (the listed ids are distinct and only the current one may go), so
     * the callback's presence test always passes and is not repeated here.
     */
    method LeaveOnClose(ws: ConnId, roomId: string, ghost orig: map<string, Room>, ghost keys: seq<string>, ghost i: nat)
      requires i < |keys| && roomId == keys[i] && Distinct(keys) && roomId in orig
      requires rooms == Closing(orig, ws, keys[..i]) && ids == Survivors(keys, rooms.Keys)
      modifies this`rooms, this`ids
      ensures rooms == Closing(orig, ws, keys[..i + 1]) && ids == Survivors(keys, rooms.Keys)
    {
      ClosingNext(orig, ws, keys, i);
      ghost var before := rooms;
      var emptied := DropPlayer(ws, roomId);
      if emptied {
        SurvivorsWithout(keys, before.Keys, roomId);
        assert rooms.Keys == before.Keys - {roomId};
      } else {
        assert rooms.Keys == before.Keys;
      }
    }

    /** The message switch: each known type goes to its handler, others are ignored. */
    method Dispatch(ws: ConnId, request: Request, now: nat)
      requires Valid() && now >= ArrayIndexLimit
      modifies this
      ensures Valid()
      ensures request.CreateRoom? ==> CreatedRoom(ws, now)
      ensures request.GetRoomList? ==> SentRoomList(ws)
      ensures request.JoinRoom? ==> JoinedRoom(ws, request.roomId)
      ensures request.MakeMove? ==> AppliedMove(request.roomId, request.payload)
      ensures request.Undo? ==> UndidMove(request.roomId)
      ensures request.Restart? ==> RestartedGame(request.roomId)
      ensures request.Disconnect? ==> LeftRoom(ws, request.roomId)
      ensures request.Unknown? ==> Ignored()
      ensures clients == old(clients)
      ensures old(outbox) <= outbox
    {
      match request
      case CreateRoom => HandleCreateRoom(ws, now);
      case GetRoomList => HandleGetRoomList(ws);
      case JoinRoom(roomId) => HandleJoinRoom(ws, roomId);
      case MakeMove(roomId, payload) => HandleMove(ws, roomId, payload);
      case Undo(roomId) => HandleUndo(ws, roomId);
      case Restart(roomId) => HandleRestart(ws, roomId);
      case Disconnect(roomId) => HandleDisconnect(ws, roomId);
      case Unknown(_) =>
    }
  }
}
