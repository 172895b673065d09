# ChessRoom core in Dafny

ChessRoom is a browser Chinese-chess (xiangqi) game. It has a computer
opponent and a small WebSocket server that hosts two-player rooms. This project
models the rule and server core and proves properties of it:

- **Keys** (`keys.dfy`): board cells are addressed by string keys `"row-col"`.
  `Key` builds them as the template literal `${row}-${col}` does. `ParseKey`,
  `Row` and `Col` read back keys made of two runs of decimal digits, as
  `split("-").map(Number)` does for such keys; every other string is rejected.
- **Pieces** (`pieces.dfy`): a board is a map from keys to piece symbols. A cell
  counts as occupied when its entry is present and non-empty (JavaScript
  truthiness). Each side has seven symbols.
- **Rules** (`rules.dfy`): the move validator `isValidMove` and the seven
  per-piece checks. The rook and cannon checks loop over the cells between the
  two ends, so they are methods with loop invariants. `ValidateRookMove` is
  proved equal to the specification `RookSpec` and `ValidateCannonMove` to
  `CannonSpec`; `IsValidMove`, which dispatches on the symbol, is proved equal
  to the predicate `Legal`.
- **RuleProperties** (`rule_properties.dfy`): what `Legal` means for each kind of
  piece. Examples are path clearance, screens, the river, the palace and the
  knight's leg. Each is stated on cells and proved.
- **MoveRanking** (`move_ranking.dfy`): the opponent's `sort` by value, highest
  first. It is the stable insertion sort `SortByValueDesc` on an array, proved
  to compute the function `SortDesc`. That function is proved to give a sorted
  permutation.
- **AutoPlayer** (`autoplayer.dfy`): the computer opponent.
  - end-of-game detection;
  - enumeration of every legal move of one side, with its bonus;
  - position evaluation;
  - rescoring, ranking and the random pick among the top three;
  - the board it returns.
- **GameLogic** (`game_logic.dfy`): the board component's coarse filter
  `canMovePiece`, related to the rule engine.
- **Server** (`server.dfy`): the room server as a class `RoomServer`.
  - Its fields are the rooms table, the table's key order (`Object.keys`), the
    open connections (`wss.clients`) and a log of outgoing messages.
  - It has one method per message handler and one for the close cleanup.
  - It keeps the invariant `Valid`: ids are distinct and match the table, every
    room seats one or two players, and connections are distinct.

Nondeterminism and the environment are parameters:

- the order in which `Object.entries` visits a board is `order`;
- `Math.random()` is a real `u` in [0, 1);
- `Date.now()` is `now`;
- a connection is a number;
- a send is an `Envelope(recipients, notice)` appended to `outbox`.

## Model

| member | source | states |
|---|---|---|
| Keys.Decimal | src/utils/rules.js:76 | the text `${n}` is a non-empty run of digits without a leading zero |
| Keys.DecimalRoundTrip | src/utils/rules.js:5-6 | `Number` of the decimal text of n is n |
| Keys.ParseKeyOfKey | src/utils/rules.js:5-6 | splitting the key built from (row, col) at "-" and reading both halves gives back row and col |
| Keys.Key | src/utils/rules.js:76 | the key of (row, col) is the decimal row, a dash and the decimal column; `ParseKeyOfKey` reads it back and `KeyInjective` keeps cells apart |
| Keys.ParseKey | src/utils/rules.js:5-6 | a string of two digit runs joined by one dash reads as the cell of those two numbers; any other string is rejected (`None`) |
| Keys.KeyInjective | src/utils/rules.js:76 | different cells never share a key |
| Pieces.SidesDisjoint | src/utils/rules.js:39-47 | no symbol is on both sides, and no piece symbol is the empty string |
| Pieces.Occupied | src/utils/rules.js:77 | the truthiness of `pieces[key]`, used at src/utils/rules.js:9, 77, 89, 93, 109, 112 and 156 and src/utils/autoPlayer.js:43: the entry is present and not the empty string; `OccupiedPiece` states it |
| Pieces.OccupiedPiece | src/utils/rules.js:9 | a cell holding a piece symbol is occupied; a cell with no entry or a blank entry is empty, and blanking one cell leaves the others as they were |
| Rules.IsSameTeam | src/utils/rules.js:39-47 | two symbols are on the same side exactly when both are on the red list or both on the black list; `SidesDisjoint` shows no symbol is on both |
| Rules.ValidatePawnMove | src/utils/rules.js:50-66 | one row forward (towards higher rows for 卒, lower rows for 兵) in the same column, or one column sideways once across the river; `PawnSteps` and `PawnMirror` characterise it |
| Rules.ValidateKnightMove | src/utils/rules.js:83-96 | a (2,1) or (1,2) L whose leg, the midpoint of the long side, is empty; `KnightLeg` restates the leg next to the origin |
| Rules.ValidateKingMove | src/utils/rules.js:120-128 | one orthogonal step onto columns 3-5 of rows 0-2 or 7-9, whichever side moves; `KingSteps` and the two palace lemmas state it |
| Rules.ValidateGuardMove | src/utils/rules.js:131-143 | one diagonal step onto columns 3-5 of rows 0-2 for 仕 and rows 7-9 for 士; `GuardSteps` and `GuardMirror` state it |
| Rules.ValidateBishopMove | src/utils/rules.js:146-161 | a (2,2) diagonal with an empty eye that ends on rows 0-4 for 相 and rows 5-9 for 象; `ElephantSteps` states it |
| Rules.ValidateRookMove | src/utils/rules.js:69-80 | the scan returns true exactly when the move is along a row or a column and no cell strictly between the ends is occupied |
| Rules.ValidateCannonMove | src/utils/rules.js:99-117 | the count of occupied cells strictly between the ends is 0 for a move onto an empty cell and 1 for a capture, along a row or column only |
| Rules.IsValidMove | src/utils/rules.js:4-36 | the result is `Legal`: false on a same-side target, otherwise the check for the symbol, false for any other symbol |
| RuleProperties.SameTeamTargetIllegal | src/utils/rules.js:9 | no piece may move onto a piece of its own side |
| RuleProperties.NoNullMove | src/utils/rules.js:9 | a piece can never "move" onto its own cell |
| RuleProperties.UnknownPieceIllegal | src/utils/rules.js:33-35 | a symbol that is not one of the fourteen never moves |
| RuleProperties.CountZeroIff | src/utils/rules.js:106-110 | there are no screens in an index range exactly when every cell in it is empty |
| RuleProperties.CountOneIff | src/utils/rules.js:106-110 | there is exactly one screen in an index range exactly when one cell in it is occupied and the others are empty |
| RuleProperties.LineCells | src/utils/rules.js:75-76 | the cells the loop visits are exactly the cells strictly between the two ends |
| RuleProperties.PathClearIff | src/utils/rules.js:75-79 | the rook's scan finds no blocker exactly when every cell strictly between the ends is empty |
| RuleProperties.ScreensZeroIff | src/utils/rules.js:106-113 | the cannon counts zero screens exactly when the path between the ends is clear |
| RuleProperties.ScreensOneIff | src/utils/rules.js:106-115 | the cannon counts one screen exactly when a single cell between the ends is occupied |
| RuleProperties.RookLegalIff | src/utils/rules.js:15-17 | a rook move is legal exactly when its target holds no own piece, it runs along a row or column, and nothing stands between |
| RuleProperties.CannonLegalIff | src/utils/rules.js:21-23 | onto an empty cell a cannon needs a clear line; a capture of an enemy needs exactly one screen |
| RuleProperties.CannonMovesLikeRook | src/utils/rules.js:112-113 | onto an empty cell the cannon's legal moves are the rook's |
| RuleProperties.RookRowExample | src/utils/rules.js:69-80 | the rook from (0,0) to an empty (0,8) is legal exactly when (0,1) to (0,7) are empty; a piece on (0,4) blocks it |
| RuleProperties.PawnSteps | src/utils/rules.js:50-66 | a legal pawn move is one orthogonal step, never backward, sideways only once across the river (row 5 on for 卒, row 4 down for 兵) |
| RuleProperties.PawnRiverExamples | src/utils/rules.js:50-66 | 卒 on row 3 may advance but not step sideways; on row 5 it may step sideways but never back |
| RuleProperties.PawnMirror | src/utils/rules.js:50-66 | 卒 and 兵 move alike on a board turned upside down |
| RuleProperties.KnightLeg | src/utils/rules.js:83-96 | a legal knight move is an L whose leg next to the origin, along the long side, is empty |
| RuleProperties.KnightExample | src/utils/rules.js:83-96 | the knight from (2,2) to (0,1) is legal exactly when (1,2) is empty |
| RuleProperties.KingSteps | src/utils/rules.js:120-128 | a legal king move is one orthogonal step that ends in columns 3-5 of rows 0-2 or 7-9 |
| RuleProperties.RedKingInLowerPalace | src/utils/rules.js:120-128 | the palace test ignores the side: the red king may step within rows 7-9 |
| RuleProperties.BlackKingInUpperPalace | src/utils/rules.js:120-128 | the black king may step within rows 0-2 |
| RuleProperties.GuardSteps | src/utils/rules.js:131-143 | a legal guard move is one diagonal step onto columns 3-5 of its own palace rows (0-2 for 仕, 7-9 for 士) |
| RuleProperties.GuardMirror | src/utils/rules.js:131-143 | the two guards move alike on a board turned upside down |
| RuleProperties.ElephantSteps | src/utils/rules.js:146-161 | a legal elephant move is a (2,2) diagonal with an empty eye that stays on its own side of the river (相 rows 0-4, 象 rows 5-9) |
| MoveRanking.SortDescFacts | src/utils/autoPlayer.js:132 | the ranking has the same length, is a permutation of its input, and is sorted by value, highest first |
| MoveRanking.SortByValueDesc | src/utils/autoPlayer.js:132 | the array sort leaves in the array the stable descending ranking of its old contents |
| MoveRanking.InsertLast | src/utils/autoPlayer.js:132 | one pass moves the next element back past every strictly smaller one, which is a stable insertion, and leaves the rest of the array alone |
| MoveRanking.InsertWithValue | src/utils/autoPlayer.js:132 | inserting a move places it behind the moves of its own value and leaves the order of every value's moves unchanged |
| MoveRanking.SortDescStable | src/utils/autoPlayer.js:132 | the sort is stable: for every value, the moves of that value come out in the order they went in, so of two tied candidates the earlier is ranked first |
| MoveRanking.SortDescTieExample | src/utils/autoPlayer.js:132 | of three moves worth 5, 9 and 5, the 9 comes first and the two 5s keep their input order |
| MoveRanking.RankedPick | src/utils/autoPlayer.js:132-134 | entry k of the ranking is one of the input moves, and at most k input moves are worth strictly more |
| AutoPlayer.IsGameOver | src/utils/autoPlayer.js:15-19 | the game runs exactly while both 帥 and 将 stand on some cell |
| AutoPlayer.ShouldMakeMove | src/utils/autoPlayer.js:149-155 | the opponent moves exactly when the game is not over and the turn is not the player's colour |
| AutoPlayer.PieceValue | src/utils/autoPlayer.js:4-12 | the value table: kings 10000, rooks 900, cannons 450, knights 400, guards and elephants 200, pawns 100; `PieceValueBounds` states its range |
| AutoPlayer.BaseValue | src/utils/autoPlayer.js:40-66 | a move's bonus: twice the captured piece's value, 50 for a pawn that ends across the river, 10 for columns 3-5, 30 more for a guard or elephant there; `KingCaptureOutranks` compares bonuses |
| AutoPlayer.Contribution | src/utils/autoPlayer.js:86-101 | an entry's share: red material counts up, everything else down, with 50 more for a 卒 on rows 5-9 or a 兵 on rows 0-4 |
| AutoPlayer.AfterMove | src/utils/autoPlayer.js:122-124 | the board a candidate is scored on: the origin's piece copied to the target and the origin entry deleted; `EvaluationAfterMove` gives its score |
| AutoPlayer.Outcome | src/utils/autoPlayer.js:136-145 | the returned object: the mover on the target, no origin entry, the other side to move, from and to echoed; `OutcomeFacts` states it cell by cell |
| AutoPlayer.PieceValueBounds | src/utils/autoPlayer.js:4-12 | values are 0 to 10000; only the kings reach 10000, and everything else is at most 900 |
| AutoPlayer.KingCaptureOutranks | src/utils/autoPlayer.js:40-66 | a move that captures a king always has a higher bonus than any move that captures no king |
| AutoPlayer.CellMove | src/utils/autoPlayer.js:36-73 | a candidate for a target cell always starts from the scanned origin |
| AutoPlayer.ScanFromCell | src/utils/autoPlayer.js:34-35 | every scanned candidate comes from one of the cells of rows 0..n-1 and columns 0..w-1 |
| AutoPlayer.ScanHas | src/utils/autoPlayer.js:34-35 | every candidate of a visited cell is in the scan |
| AutoPlayer.ScanFrom | src/utils/autoPlayer.js:28-35 | every candidate scanned for an origin starts from that origin |
| AutoPlayer.OriginMoves | src/utils/autoPlayer.js:28-30 | an origin yields candidates only if it holds a piece, and they all start from it |
| AutoPlayer.Candidates | src/utils/autoPlayer.js:22-81 | every candidate starts from a cell of the board |
| AutoPlayer.CellMoveSound | src/utils/autoPlayer.js:39-73 | a cell's candidate goes to a board cell along a legal move and carries the bonus of the table |
| AutoPlayer.CandidatesSound | src/utils/autoPlayer.js:22-81 | every candidate moves a piece of the side to move, legally, onto a cell of the 10 x 9 board, with the bonus of the table |
| AutoPlayer.CandidatesComplete | src/utils/autoPlayer.js:22-81 | every legal move of a piece of the side to move onto a cell of the board is a candidate, with its bonus |
| AutoPlayer.GetAllPossibleMoves | src/utils/autoPlayer.js:22-81 | the loop over the entries builds exactly `Candidates` (own pieces in entry order, targets row by row) |
| AutoPlayer.ScanTargets | src/utils/autoPlayer.js:34-76 | the two nested loops append the candidates of all 90 cells, row by row, column by column |
| AutoPlayer.ScoreTarget | src/utils/autoPlayer.js:36-73 | the body gives the single scored candidate when `isValidMove` accepts the target, and nothing otherwise |
| AutoPlayer.EvaluationRemove | src/utils/autoPlayer.js:84-104 | the score does not depend on the order in which entries are visited: any entry can be taken out first |
| AutoPlayer.EvaluationAdd | src/utils/autoPlayer.js:84-104 | adding an entry under a new key adds its share |
| AutoPlayer.EvaluationAfterMove | src/utils/autoPlayer.js:120-127 | the simulated move changes the score only by the mover's change of cell and the captured piece's share |
| AutoPlayer.EvaluatePosition | src/utils/autoPlayer.js:84-104 | the loop adds up every entry's share, the red side counting up and the other down, 50 for a pawn across the river |
| AutoPlayer.PickIndex | src/utils/autoPlayer.js:134 | `Math.floor(u * n)` for u in [0, 1) is an index below n |
| AutoPlayer.RescoreMove | src/utils/autoPlayer.js:120-129 | the callback adds to the bonus the evaluation of the board with the mover copied to the target and its origin deleted |
| AutoPlayer.RescoreAll | src/utils/autoPlayer.js:120-129 | after the pass every candidate carries its bonus plus the evaluation of its board, in the original order |
| AutoPlayer.PickMove | src/utils/autoPlayer.js:132-134 | the selected move is entry floor(u * min(3, n)) of the stable descending ranking of the rescored candidates |
| AutoPlayer.ChosenMoveFacts | src/utils/autoPlayer.js:120-134 | the chosen move, minus its evaluation, is a sound candidate, and at most two candidates score strictly higher |
| AutoPlayer.OutcomeFacts | src/utils/autoPlayer.js:136-145 | the returned board has the mover on the target and no entry at the origin, every other cell is unchanged, and the turn passes to the other side |
| AutoPlayer.SoundPlayed | src/utils/autoPlayer.js:136-145 | playing out a sound candidate moves a piece of the side to move legally and leaves its origin empty |
| AutoPlayer.ChosenOutcomePlayed | src/utils/autoPlayer.js:107-145 | what is returned is a legal move of a piece of the side to move, now on its target, its origin empty |
| AutoPlayer.NextMove | src/utils/autoPlayer.js:107-146 | null exactly when the game is over or no candidate exists; otherwise the chosen move played out, which is a legal move of the side to move |
| GameLogic.CanMovePiece | src/components/GameLogic.js:1-19 | only 卒, 車 and 馬 are ever allowed |
| GameLogic.CanMoveLegalOnEmpty | src/components/GameLogic.js:5-18 | what the filter admits the rule engine accepts on an empty board |
| GameLogic.RookFilterExact | src/components/GameLogic.js:8-9 | for 車 the filter is exactly the engine on an empty board |
| GameLogic.KnightFilterExact | src/components/GameLogic.js:10-14 | for 馬 the filter is exactly the engine on an empty board |
| GameLogic.LegalPassesFilter | src/components/GameLogic.js:8-14 | every rook or knight move the engine accepts on any board passes the filter |
| GameLogic.PawnFilterLegal | src/components/GameLogic.js:6-7 | a pawn step the filter admits is legal on a board exactly when no red piece stands on the target |
| GameLogic.PawnSidewaysNotFiltered | src/components/GameLogic.js:6-7 | the filter refuses the sideways pawn step across the river that the engine allows |
| GameLogic.RookJumpFiltered | src/components/GameLogic.js:8-9 | the filter lets a rook pass over a piece the engine stops it at |
| Server.Without | server/server.js:174 | the filtered list holds exactly the elements other than x, is no longer than the input, keeps distinct lists distinct, and is the input itself when x is absent |
| Server.WithoutConcat | server/server.js:174 | filtering a concatenation filters each part and joins the results, so the kept elements stay in order |
| Server.WithoutSingle | server/server.js:174 | a one-element list keeps its element exactly when it differs from x; with `WithoutConcat` this fixes the filter completely, repeats included |
| Server.WithoutExample | server/server.js:174 | filtering 1 out of [1, 2, 3] gives [2, 3], and out of [2, 2, 1] gives [2, 2] |
| Server.SurvivorsFacts | server/server.js:59-68 | the key order after the cleanup lists exactly the remaining rooms, without repeats |
| Server.SurvivorsWithout | server/server.js:63 | deleting a key from the table deletes it from the key order |
| Server.InitialState | server/server.js:200-215 | the opening position of the literal, with red to move and an empty history; `InitialStateFacts` states its size, kings and turn |
| Server.InitialStateFacts | server/server.js:200-215 | the opening has 32 pieces with 帥 on 0-4 and 将 on 9-4, neither elsewhere; red moves first, the history is empty, and the game is not over |
| Server.ClosingStep | server/server.js:59-66 | cleaning one more room updates or deletes that room alone |
| Server.CloseAllFacts | server/server.js:57-66 | after the cleanup the leaver is in no room, no room is empty, each remaining room keeps its game and its other players, and a room goes exactly when the leaver was its only player |
| Server.RoomServer.constructor | server/server.js:8 | the server starts with no rooms, no connections and nothing sent |
| Server.RoomServer.Connect | server/server.js:18 | a new connection joins the clients and nothing else changes |
| Server.RoomServer.BroadcastToAll | server/server.js:183-189 | one message to every open connection |
| Server.RoomServer.BroadcastToRoom | server/server.js:191-198 | one message to the room's players if the room exists, nothing otherwise |
| Server.RoomServer.DeleteRoom | server/server.js:63 | `delete rooms[id]` removes the entry and its place in the key order |
| Server.RoomServer.DropPlayer | server/server.js:174-177 | the room loses the connection and is deleted exactly when no player is left |
| Server.RoomServer.HandleGetRoomList | server/server.js:72-74 | the asker alone gets the ids now in the table |
| Server.RoomServer.HandleCreateRoom | server/server.js:76-94 | for a clock reading at or above 2^32 - 1 (every `Date.now()` since 1970), the room it names holds the creator and a fresh game (a clashing id is overwritten and keeps its place), the creator hears red, and every client hears the new list |
| Server.RoomServer.HandleJoinRoom | server/server.js:96-127 | an unknown id gets "房间未找到" and a full room "房间已满" with nothing changed; otherwise the joiner is appended, hears black with the room's state, and all players hear who joined |
| Server.RoomServer.HandleMove | server/server.js:129-143 | the payload's board and turn replace the room's unchecked, the payload is appended to the history, and the players hear the new state; an unknown room changes nothing |
| Server.RoomServer.HandleUndo | server/server.js:145-160 | with a history the board and turn become its last entry's, that entry is dropped and the players hear it; otherwise nothing happens |
| Server.RoomServer.HandleRestart | server/server.js:162-168 | the room gets a fresh game with the same players and they hear it; an unknown room changes nothing |
| Server.RoomServer.HandleDisconnect | server/server.js:170-181 | the sender leaves the room; an emptied room is deleted silently, otherwise the others hear of it |
| Server.RoomServer.HandleClose | server/server.js:57-69 | the closed connection leaves the clients and every room, emptied rooms are deleted, the key order keeps the remaining ids in order, and every client hears the new list |
| Server.RoomServer.LeaveAllRooms | server/server.js:59-66 | the forEach over the ids listed at the start computes the cleanup and the surviving key order |
| Server.RoomServer.LeaveOnClose | server/server.js:60-65 | one callback drops the leaver from the i-th listed room |
| Server.RoomServer.SentRoomList | server/server.js:72-74 | the relation `handleGetRoomList` leaves: the asker alone is sent the ids, nothing else changes; `HandleGetRoomList` ensures it |
| Server.RoomServer.CreatedRoom | server/server.js:76-94 | the relation `handleCreateRoom` leaves, as the `HandleCreateRoom` row states; that method ensures it |
| Server.RoomServer.JoinedRoom | server/server.js:96-127 | the relation `handleJoinRoom` leaves, as the `HandleJoinRoom` row states; that method ensures it |
| Server.RoomServer.AppliedMove | server/server.js:129-143 | the relation `handleMove` leaves, as the `HandleMove` row states; that method ensures it |
| Server.RoomServer.UndidMove | server/server.js:145-160 | the relation `handleUndo` leaves, as the `HandleUndo` row states; that method ensures it |
| Server.RoomServer.RestartedGame | server/server.js:162-168 | the relation `handleRestart` leaves, as the `HandleRestart` row states; that method ensures it |
| Server.RoomServer.LeftRoom | server/server.js:170-181 | the relation `handleDisconnect` leaves, as the `HandleDisconnect` row states; that method ensures it |
| Server.RoomServer.Ignored | server/server.js:27-51 | a message of no known type changes no field; `Dispatch` ensures it for `Unknown` |
| Server.RoomServer.Dispatch | server/server.js:21-55 | each message type has the effect of its own handler: `createRoom` that of `CreatedRoom`, `getRoomList` of `SentRoomList`, `joinRoom` of `JoinedRoom`, `move` of `AppliedMove`, `undo` of `UndidMove`, `restart` of `RestartedGame`, `disconnect` of `LeftRoom`; an unknown type changes nothing (`Ignored`); every message keeps the invariant |

## Left out

- Input and output are not modelled. This covers HTTP and WebSocket set-up,
  JSON parsing and serialisation, and console logging. The `readyState` test in
  `broadcastToAll` is also left out: every client in `clients` is treated as
  open.
- The `try`/`catch` around the message handler is left out. A message that
  does not parse, or has an unknown type, changes nothing (`Request.Unknown`).
- Keys other than two runs of decimal digits joined by one dash are excluded
  by `requires IsKey(...)` and `WellKeyed`. `Number` reads many such strings
  in its own way: an empty part reads as 0 ("-5" as (0,5)), a third part is
  dropped by the destructuring ("1-2-3" as (1,2)), and "3.0-4", " 3-4" and
  "0x3-4" all read as (3,4). Others give `NaN`. None of these readings is
  modelled. The keys the source itself builds are all digit keys.
- `AutoPlayer.PieceValue`: a symbol outside the value table counts 0. In
  JavaScript it gives `undefined`, and the scores become `NaN`. This matters
  only for boards holding foreign or empty symbols, and it feeds
  `AutoPlayer.BaseValue` and `AutoPlayer.EvaluatePosition`.
- `AutoPlayer.Outcome` removes the origin key. The source writes
  `[from]: undefined`, which `JSON.stringify` drops and every truthiness test
  reads as empty.
- The order of `Object.entries` is the parameter `order`, and `Math.random()`
  is the parameter `u`. `AutoPlayer.EvaluatePosition` visits entries in an
  arbitrary order, which is sound because the sum is proved independent of
  the order.
- The ranking relies on the stable sort of current JavaScript engines
  (`SortDescStable`). The
  comparator `b.value - a.value` is modelled by comparing integers.
- The moves in `getNextMove` are records that the source mutates in place
  (`move.value += ...`). The model copies them into a fresh array and rescores
  each entry. Aliasing between the candidates and the caller's objects is not
  modelled.
- The server's game states are values. Every send is serialised on the spot,
  so no sent message shares an object with the room. Inside a room,
  `handleMove` stores the payload's `pieces` object both as the board and in
  the history entry. The server never mutates a board in place, so this
  sharing is not modelled and changes nothing observable.
- Room ids that name properties inherited by a plain JavaScript object are not
  modelled; examples are "toString", "constructor" and "__proto__". The
  source's `rooms[roomId]` test lets them through. `joinRoom` then throws at
  `room.players.length`, and the `catch` swallows the error, so no reply is
  sent; the model answers "房间未找到". `restart` with "__proto__" first sets
  `Object.prototype.state` and then throws in `broadcastToRoom`. `move` and
  `undo` fail in the same way. In the model such an id is an ordinary id
  that is absent from the table.
- `Server.RoomServer.HandleUndo` follows the code. The last history entry is
  the move just applied, so undo re-applies it and does not restore the board
  that came before.
- `Server.RoomServer.HandleCreateRoom`: room ids come from the clock parameter
  `now`. Two rooms created in the same millisecond share an id, and the later
  one replaces the earlier, as in the source.
- `Server.RoomServer.HandleJoinRoom` computes the joiner's colour as the code
  does (`"red"` when it is the sole player). While `Valid` holds the room
  already has a player, so the contract states black.
- The `ids` field models `Object.keys(rooms)` as insertion order. JavaScript
  lists keys that are array indices (decimal integers below 2^32 - 1) first, in
  numeric order. `HandleCreateRoom` and `Dispatch` therefore require a clock
  reading of at least `ArrayIndexLimit` (2^32 - 1); every `Date.now()` reading
  after the first 50 days of 1970 meets it. Smaller readings are not modelled.
- `Server.RoomServer.LeaveOnClose` omits the close callback's
  `if (rooms[roomId])` test. It always passes, because the listed ids are
  distinct and only the current room can be deleted.
- The move payload keeps only `pieces` and `turn`. Any other field a client
  sends is not modelled.
- The React components other than `canMovePiece` are not part of this model,
  nor are the client's chat and networking code.
