/**
 * The computer opponent (src/utils/autoPlayer.js). It enumerates every legal
 * move of one side, scores each by a fixed bonus table plus the material
 * balance of the board it leads to, sorts the candidates best first and picks
 * uniformly among the top three.
 *
 * The enumeration order of the board's entries is a parameter `order`; the
 * random number is a parameter `u` in [0, 1).
 */
module AutoPlayer {
  import opened Keys
  import opened Pieces
  import opened Rules
  import opened MoveRanking
  import opened RuleProperties

  /** Material value of each symbol. */
  const PieceValues: map<string, int> := map[
    "帥" := 10000, "将" := 10000,
    "仕" := 200, "士" := 200,
    "相" := 200, "象" := 200,
    "車" := 900, "车" := 900,
    "馬" := 400, "马" := 400,
    "炮" := 450, "砲" := 450,
    "卒" := 100, "兵" := 100]

  /** The table entry of a symbol; a symbol outside the table counts 0. */
  function PieceValue(p: string): int {
    if p in PieceValues then PieceValues[p] else 0
  }

  /** Every key of the board is a well-formed "row-col" key. */
  predicate WellKeyed(b: Board) {
    forall k :: k in b ==> IsKey(k)
  }

  /** `order` lists each key of `b` exactly once: the order of Object.entries. */
  predicate IsEnumeration(order: seq<string>, b: Board) {
    (forall i :: 0 <= i < |order| ==> order[i] in b)
    && (forall k :: k in b ==> k in order)
    && (forall i, j :: 0 <= i < j < |order| ==> order[i] != order[j])
  }

  /** The board has 10 rows and 9 columns. */
  const Rows: nat := 10
  const Cols: nat := 9

  /** The symbol belongs to the side to move. */
  predicate OwnSide(isRed: bool, p: string) {
    if isRed then p in RedPieces else p in BlackPieces
  }

  // ---------------------------------------------------------------------------
  // End of game

  /** The game is over once the red king 帥 or the black king 将 is off the board. */
  function IsGameOver(b: Board): (over: bool)
    ensures !over <==> (exists k :: k in b && b[k] == "帥") && (exists k :: k in b && b[k] == "将")
  {
    !("帥" in b.Values) || !("将" in b.Values)
  }

  /** The opponent moves only while the game runs and it is not the player's turn. */
  function ShouldMakeMove(b: Board, turn: string, playerColor: string): (go: bool)
    ensures go ==> !IsGameOver(b) && turn != playerColor
    ensures !IsGameOver(b) && turn != playerColor ==> go
  {
    if IsGameOver(b) then false else turn != playerColor
  }

  // ---------------------------------------------------------------------------
  // Candidate moves

  /**
   * The bonus of a legal move of `piece` to cell (r, c): twice the value of a
   * captured piece, 50 for a pawn that ends across the river, 10 for a central
   * column, and 30 more for a guard or elephant on a central column.
   */
  function BaseValue(b: Board, piece: string, isRed: bool, r: nat, c: nat): int {
    var to := Key(r, c);
    (if Occupied(b, to) then PieceValue(b[to]) * 2 else 0)
    + (if IsPawn(piece) && (if isRed then r >= 5 else r <= 4) then 50 else 0)
    + (if 3 <= c <= 5 then 10 else 0)
    + (if (IsGuard(piece) || IsElephant(piece)) && 3 <= c <= 5 then 30 else 0)
  }

  /** Only a king is worth more than a rook; no symbol is worth less than nothing. */
  lemma PieceValueBounds(p: string)
    ensures 0 <= PieceValue(p) <= 10000
    ensures !IsKing(p) ==> PieceValue(p) <= 900
    ensures IsKing(p) ==> PieceValue(p) == 10000
  {
  }

  /**
   * Capturing a king earns more base value than any move that captures no
   * king, whatever the movers and the target cells.
   */
  lemma KingCaptureOutranks(b: Board, p1: string, isRed1: bool, r1: nat, c1: nat,
                            p2: string, isRed2: bool, r2: nat, c2: nat)
    requires Occupied(b, Key(r1, c1)) && IsKing(b[Key(r1, c1)])
    requires !(Occupied(b, Key(r2, c2)) && IsKing(b[Key(r2, c2)]))
    ensures BaseValue(b, p1, isRed1, r1, c1) > BaseValue(b, p2, isRed2, r2, c2)
  {
    PieceValueBounds(b[Key(r1, c1)]);
    if Occupied(b, Key(r2, c2)) {
      PieceValueBounds(b[Key(r2, c2)]);
    }
  }

  /** Legality of moving `piece` from key `from` to cell (r, c). */
  predicate LegalTo(from: string, r: nat, c: nat, piece: string, b: Board)
    requires IsKey(from)
  {
    ParseKeyOfKey(r, c);
    Legal(from, Key(r, c), piece, b)
  }

  /** The candidate for target cell (r, c), if that move is legal. */
  function CellMove(b: Board, from: string, piece: string, isRed: bool, r: nat, c: nat): (ms: seq<Move>)
    requires IsKey(from)
    ensures forall i :: 0 <= i < |ms| ==> ms[i].from == from
  {
    if LegalTo(from, r, c, piece, b) then [Move(from, Key(r, c), piece, BaseValue(b, piece, isRed, r, c))]
    else []
  }

  /** CellMove for one origin, as a function of the target cell. */
  function CellsOf(b: Board, from: string, piece: string, isRed: bool): Pos -> seq<Move>
    requires IsKey(from)
  {
    (p: Pos) => CellMove(b, from, piece, isRed, p.row, p.col)
  }

  /** cell(r, 0) + ... + cell(r, n - 1): the first n cells of row r, column by column. */
  function ScanRow(cell: Pos -> seq<Move>, r: nat, n: nat): seq<Move>
    decreases n
  {
    if n == 0 then [] else ScanRow(cell, r, n - 1) + cell(Pos(r, n - 1))
  }

  /** The first n rows of width w, row by row, each row column by column. */
  function ScanRows(cell: Pos -> seq<Move>, n: nat, w: nat): seq<Move>
    decreases n
  {
    if n == 0 then [] else ScanRows(cell, n - 1, w) + ScanRow(cell, n - 1, w)
  }

  lemma {:induction false} RowFromCell(cell: Pos -> seq<Move>, r: nat, n: nat, m: Move) returns (c: nat)
    requires m in ScanRow(cell, r, n)
    ensures c < n && m in cell(Pos(r, c))
    decreases n
  {
    if m in ScanRow(cell, r, n - 1) {
      c := RowFromCell(cell, r, n - 1, m);
    } else {
      c := n - 1;
    }
  }

  /** A scanned candidate comes from one of the scanned cells. */
  lemma {:induction false} ScanFromCell(cell: Pos -> seq<Move>, n: nat, w: nat, m: Move) returns (p: Pos)
    requires m in ScanRows(cell, n, w)
    ensures p.row < n && p.col < w && m in cell(p)
    decreases n
  {
    var before, row := ScanRows(cell, n - 1, w), ScanRow(cell, n - 1, w);
    assert ScanRows(cell, n, w) == before + row;
    if m in before {
      p := ScanFromCell(cell, n - 1, w, m);
    } else {
      assert m in row;
      var c := RowFromCell(cell, n - 1, w, m);
      p := Pos(n - 1, c);
    }
  }

  lemma {:induction false} RowHas(cell: Pos -> seq<Move>, r: nat, n: nat, c: nat, m: Move)
    requires c < n && m in cell(Pos(r, c))
    ensures m in ScanRow(cell, r, n)
    decreases n
  {
    if c < n - 1 {
      RowHas(cell, r, n - 1, c, m);
    }
  }

  /** Every candidate of a scanned cell is scanned. */
  lemma {:induction false} ScanHas(cell: Pos -> seq<Move>, n: nat, w: nat, r: nat, c: nat, m: Move)
    requires r < n && c < w && m in cell(Pos(r, c))
    ensures m in ScanRows(cell, n, w)
    decreases n
  {
    var before, row := ScanRows(cell, n - 1, w), ScanRow(cell, n - 1, w);
    assert ScanRows(cell, n, w) == before + row;
    if r < n - 1 {
      ScanHas(cell, n - 1, w, r, c, m);
      assert m in before;
    } else {
      RowHas(cell, r, w, c, m);
      assert m in row;
    }
  }

  /** Every scanned candidate starts from the scanned origin. */
  lemma ScanFrom(b: Board, from: string, piece: string, isRed: bool)
    requires IsKey(from)
    ensures forall i :: 0 <= i < |ScanRows(CellsOf(b, from, piece, isRed), Rows, Cols)| ==>
      ScanRows(CellsOf(b, from, piece, isRed), Rows, Cols)[i].from == from
  {
    var ms := ScanRows(CellsOf(b, from, piece, isRed), Rows, Cols);
    forall i | 0 <= i < |ms| ensures ms[i].from == from {
      var p := ScanFromCell(CellsOf(b, from, piece, isRed), Rows, Cols, ms[i]);
    }
  }

  /** Candidates of the piece on `from`: none unless it belongs to the side to move. */
  function OriginMoves(b: Board, from: string, isRed: bool): (ms: seq<Move>)
    requires WellKeyed(b)
    ensures forall i :: 0 <= i < |ms| ==> ms[i].from == from && from in b
  {
    if from in b && OwnSide(isRed, b[from]) then
      ScanFrom(b, from, b[from], isRed);
      ScanRows(CellsOf(b, from, b[from], isRed), Rows, Cols)
    else []
  }

  /** All candidates, origins in board order, targets row by row. */
  function Candidates(b: Board, order: seq<string>, isRed: bool): (ms: seq<Move>)
    requires WellKeyed(b)
    ensures forall i :: 0 <= i < |ms| ==> ms[i].from in b
    decreases |order|
  {
    if order == [] then []
    else Candidates(b, order[..|order| - 1], isRed) + OriginMoves(b, order[|order| - 1], isRed)
  }

  /** What a candidate promises about its target: a cell of the board, reached legally, scored by the table. */
  predicate TargetSound(b: Board, isRed: bool, m: Move)
    requires IsKey(m.from)
  {
    IsKey(m.to) && Row(m.to) < Rows && Col(m.to) < Cols && m.to == Key(Row(m.to), Col(m.to))
    && Legal(m.from, m.to, m.piece, b)
    && m.value == BaseValue(b, m.piece, isRed, Row(m.to), Col(m.to))
  }

  /** What a candidate promises: a piece of the side to move, taken legally to a board cell. */
  predicate Sound(b: Board, isRed: bool, m: Move)
    requires WellKeyed(b)
  {
    m.from in b && m.piece == b[m.from] && OwnSide(isRed, m.piece) && TargetSound(b, isRed, m)
  }

  lemma CellMoveSound(b: Board, from: string, piece: string, isRed: bool, r: nat, c: nat, m: Move)
    requires IsKey(from) && r < Rows && c < Cols && m in CellMove(b, from, piece, isRed, r, c)
    ensures m.from == from && m.piece == piece && TargetSound(b, isRed, m)
  {
    ParseKeyOfKey(r, c);
    assert LegalTo(from, r, c, piece, b);
    assert m == Move(from, Key(r, c), piece, BaseValue(b, piece, isRed, r, c));
    assert Row(m.to) == r && Col(m.to) == c;
    assert Legal(m.from, m.to, m.piece, b);
  }

  /** Every candidate moves a piece of the side to move, legally, and carries its table bonus. */
  lemma {:induction false} CandidatesSound(b: Board, order: seq<string>, isRed: bool, m: Move)
    requires WellKeyed(b) && m in Candidates(b, order, isRed)
    ensures Sound(b, isRed, m)
    decreases |order|
  {
    var init, from := order[..|order| - 1], order[|order| - 1];
    if m in Candidates(b, init, isRed) {
      CandidatesSound(b, init, isRed, m);
    } else {
      var p := ScanFromCell(CellsOf(b, from, b[from], isRed), Rows, Cols, m);
      CellMoveSound(b, from, b[from], isRed, p.row, p.col, m);
    }
  }

  /** Every legal move of a piece of the side to move to a cell of the 10 x 9 board is a candidate. */
  lemma {:induction false} CandidatesComplete(b: Board, order: seq<string>, isRed: bool, from: string, row: nat, col: nat)
    requires WellKeyed(b) && IsEnumeration(order, b)
    requires from in b && OwnSide(isRed, b[from]) && row < Rows && col < Cols
    requires LegalTo(from, row, col, b[from], b)
    ensures Move(from, Key(row, col), b[from], BaseValue(b, b[from], isRed, row, col)) in Candidates(b, order, isRed)
  {
    var i :| 0 <= i < |order| && order[i] == from;
    var m := Move(from, Key(row, col), b[from], BaseValue(b, b[from], isRed, row, col));
    assert CellsOf(b, from, b[from], isRed)(Pos(row, col)) == [m];
    ScanHas(CellsOf(b, from, b[from], isRed), Rows, Cols, row, col, m);
    CandidatesHas(b, order, isRed, i, m);
  }

  lemma {:induction false} CandidatesHas(b: Board, order: seq<string>, isRed: bool, i: nat, m: Move)
    requires WellKeyed(b) && i < |order| && m in OriginMoves(b, order[i], isRed)
    ensures m in Candidates(b, order, isRed)
    decreases |order|
  {
    if i < |order| - 1 {
      var init := order[..|order| - 1];
      assert init[i] == order[i];
      CandidatesHas(b, init, isRed, i, m);
    }
  }

  /** getAllPossibleMoves: for each own piece in board order, scan the 90 cells row by row. */
  method GetAllPossibleMoves(b: Board, order: seq<string>, isRed: bool) returns (moves: seq<Move>)
    requires WellKeyed(b) && IsEnumeration(order, b)
    ensures moves == Candidates(b, order, isRed)
  {
    moves := [];
    for i := 0 to |order|
      invariant moves == Candidates(b, order[..i], isRed)
    {
      var from := order[i];
      var piece := b[from];
      assert order[..i + 1][..i] == order[..i];
      if OwnSide(isRed, piece) {
        var found := ScanTargets(b, from, piece, isRed);
        moves := moves + found;
      }
    }
    assert order[..|order|] == order;
  }

  /** The two inner loops of getAllPossibleMoves: every target cell, row by row. */
  method ScanTargets(b: Board, from: string, piece: string, isRed: bool) returns (found: seq<Move>)
    requires IsKey(from)
    ensures found == ScanRows(CellsOf(b, from, piece, isRed), Rows, Cols)
  {
    ghost var cells := CellsOf(b, from, piece, isRed);
    found := [];
    for toRow := 0 to Rows
      invariant found == ScanRows(cells, toRow, Cols)
    {
      ghost var before := found;
      for toCol := 0 to Cols
        invariant found == before + ScanRow(cells, toRow, toCol)
      {
        var cell := ScoreTarget(b, from, piece, isRed, toRow, toCol);
        found := found + cell;
      }
    }
  }

  /** The loop body: the candidate for cell (toRow, toCol), scored as the table says, if legal. */
  method ScoreTarget(b: Board, from: string, piece: string, isRed: bool, toRow: nat, toCol: nat)
      returns (cell: seq<Move>)
    requires IsKey(from)
    ensures cell == CellMove(b, from, piece, isRed, toRow, toCol)
  {
    var to := Key(toRow, toCol);
    ParseKeyOfKey(toRow, toCol);
    var ok := IsValidMove(from, to, piece, b);
    assert ok == LegalTo(from, toRow, toCol, piece, b);
    if !ok {
      return [];
    }
    var moveValue := 0;
    if Occupied(b, to) {
      moveValue := moveValue + PieceValue(b[to]) * 2;
    }
    if piece == "卒" || piece == "兵" {
      var crossedRiver := if isRed then toRow >= 5 else toRow <= 4;
      if crossedRiver {
        moveValue := moveValue + 50;
      }
    }
    if toCol >= 3 && toCol <= 5 {
      moveValue := moveValue + 10;
    }
    if (piece == "仕" || piece == "士" || piece == "相" || piece == "象") && toCol >= 3 && toCol <= 5 {
      moveValue := moveValue + 30;
    }
    assert moveValue == BaseValue(b, piece, isRed, toRow, toCol);
    return [Move(from, to, piece, moveValue)];
  }

  // ---------------------------------------------------------------------------
  // Position evaluation

  /** One entry's share of the score: red material counts up, the rest down; 50 more for a pawn across the river. */
  function Contribution(k: string, p: string): int {
    if p in RedPieces then
      PieceValue(p) + (if p == "卒" && IsKey(k) && Row(k) >= 5 then 50 else 0)
    else
      -PieceValue(p) - (if p == "兵" && IsKey(k) && Row(k) <= 4 then 50 else 0)
  }

  /** The score of a board from red's point of view: the sum of every entry's share, in no particular order. */
  ghost function Evaluation(b: Board): int
    decreases |b|
  {
    if b == map[] then 0
    else
      var k :| k in b;
      assert |b - {k}| < |b| by { assert b.Keys - {k} < b.Keys; }
      Contribution(k, b[k]) + Evaluation(b - {k})
  }

  /** Any entry can be taken out first: the sum does not depend on the visiting order. */
  lemma {:induction false} EvaluationRemove(b: Board, k: string)
    requires k in b
    ensures Evaluation(b) == Contribution(k, b[k]) + Evaluation(b - {k})
    decreases |b|
  {
    var j :| j in b && Evaluation(b) == Contribution(j, b[j]) + Evaluation(b - {j});
    if j != k {
      assert |b - {j}| < |b| by { assert b.Keys - {j} < b.Keys; }
      EvaluationRemove(b - {j}, k);
      assert |b - {k}| < |b| by { assert b.Keys - {k} < b.Keys; }
      EvaluationRemove(b - {k}, j);
      assert b - {j} - {k} == b - {k} - {j};
    }
  }

  /** Adding an entry under a new key adds its share to the score. */
  lemma EvaluationAdd(b: Board, k: string, p: string)
    requires k !in b
    ensures Evaluation(b[k := p]) == Contribution(k, p) + Evaluation(b)
  {
    EvaluationRemove(b[k := p], k);
    assert b[k := p] - {k} == b;
  }

  /** A simulated move changes the score by the mover's change of square and the captured piece's loss. */
  lemma EvaluationAfterMove(b: Board, from: string, to: string)
    requires from in b && from != to
    ensures Evaluation(AfterMove(b, from, to))
         == Evaluation(b) - Contribution(from, b[from]) + Contribution(to, b[from])
            - (if to in b then Contribution(to, b[to]) else 0)
  {
    var rest := b - {from} - {to};
    EvaluationRemove(b, from);
    if to in b {
      EvaluationRemove(b - {from}, to);
    } else {
      assert b - {from} == rest;
    }
    assert AfterMove(b, from, to) == rest[to := b[from]];
    EvaluationAdd(rest, to, b[from]);
  }

  /** evaluatePosition: adds up every entry's share, visiting the entries in whatever order the board yields. */
  method EvaluatePosition(b: Board) returns (score: int)
    ensures score == Evaluation(b)
  {
    score := 0;
    var rest := b;
    while rest != map[]
      invariant score + Evaluation(rest) == Evaluation(b)
      decreases |rest|
    {
      var pos :| pos in rest;
      EvaluationRemove(rest, pos);
      score := score + Contribution(pos, rest[pos]);
      assert |rest - {pos}| < |rest| by { assert rest.Keys - {pos} < rest.Keys; }
      rest := rest - {pos};
    }
  }

  // ---------------------------------------------------------------------------
  // Choosing the move

  /** The board a candidate is scored on: the mover copied to the target, its origin entry deleted. */
  function AfterMove(b: Board, from: string, to: string): Board
    requires from in b
  {
    b[to := b[from]] - {from}
  }

  /** What the opponent returns: the new board and turn, and the move made. */
  datatype AiMove = AiMove(pieces: Board, turn: string, from: string, to: string)

  /**
   * The state after playing m: the target holds the mover, the origin entry is
   * gone (set to undefined, which serialisation drops), the turn passes.
   */
  function Outcome(b: Board, m: Move, isRed: bool): AiMove {
    AiMove(b[m.to := m.piece] - {m.from}, if isRed then "black" else "red", m.from, m.to)
  }

  /** A candidate rescored with the evaluation of the board it leads to. */
  ghost function Rescore(b: Board, m: Move): Move
    requires m.from in b
  {
    m.(value := m.value + Evaluation(AfterMove(b, m.from, m.to)))
  }

  ghost function Scored(b: Board, ms: seq<Move>): (r: seq<Move>)
    requires forall i :: 0 <= i < |ms| ==> ms[i].from in b
    ensures |r| == |ms|
  {
    seq(|ms|, i requires 0 <= i < |ms| => Rescore(b, ms[i]))
  }

  /** Math.floor(u * n) for u in [0, 1): an index below n. */
  function PickIndex(u: real, n: nat): (k: nat)
    requires 0.0 <= u < 1.0 && n > 0
    ensures k < n
  {
    assert u * (n as real) < n as real;
    (u * (n as real)).Floor
  }

  /** The rescored candidates, best first. */
  ghost function Ranked(b: Board, ms: seq<Move>): (r: seq<Move>)
    requires forall i :: 0 <= i < |ms| ==> ms[i].from in b
    ensures |r| == |ms|
  {
    SortDescFacts(Scored(b, ms));
    SortDesc(Scored(b, ms))
  }

  /** The move getNextMove selects: position PickIndex(u, min(3, n)) of the ranking. */
  ghost function ChosenMove(b: Board, order: seq<string>, isRed: bool, u: real): Move
    requires WellKeyed(b) && 0.0 <= u < 1.0 && Candidates(b, order, isRed) != []
  {
    var cands := Candidates(b, order, isRed);
    Ranked(b, cands)[PickIndex(u, Min(3, |cands|))]
  }

  /** A rescored move with its table bonus restored: the candidate it came from. */
  ghost function Unscored(b: Board, m: Move): Move
    requires m.from in b
  {
    m.(value := m.value - Evaluation(AfterMove(b, m.from, m.to)))
  }

  /**
   * The chosen move is a legal move of a piece of the side to move, scored by
   * its table bonus plus the evaluation of the board it leads to, and at most
   * two candidates score strictly higher.
   */
  lemma ChosenMoveFacts(b: Board, order: seq<string>, isRed: bool, u: real)
    requires WellKeyed(b) && 0.0 <= u < 1.0 && Candidates(b, order, isRed) != []
    ensures var m := ChosenMove(b, order, isRed, u);
      && m.from in b
      && Unscored(b, m) in Candidates(b, order, isRed)
      && Sound(b, isRed, Unscored(b, m))
      && CountAbove(Scored(b, Candidates(b, order, isRed)), m.value) <= 2
  {
    var cands := Candidates(b, order, isRed);
    var scored := Scored(b, cands);
    SortDescFacts(scored);
    var k := PickIndex(u, Min(3, |scored|));
    RankedPick(scored, k);
    var m := SortDesc(scored)[k];
    assert m in scored;
    var i :| 0 <= i < |scored| && scored[i] == m;
    var c := cands[i];
    assert c in cands;
    assert m == Rescore(b, c);
    UnscoreRescore(b, c);
    CandidatesSound(b, order, isRed, c);
  }

  lemma UnscoreRescore(b: Board, c: Move)
    requires c.from in b
    ensures Rescore(b, c).from in b && Unscored(b, Rescore(b, c)) == c
  {
  }

  /** The returned board: the mover on the target, the origin emptied, every other cell untouched; the turn passes. */
  lemma OutcomeFacts(b: Board, m: Move, isRed: bool)
    requires m.from != m.to
    ensures var o := Outcome(b, m, isRed);
      && o.pieces[m.to] == m.piece
      && m.from !in o.pieces
      && (forall k :: k != m.from && k != m.to ==> (k in o.pieces <==> k in b))
      && (forall k :: k in b && k != m.from && k != m.to ==> o.pieces[k] == b[k])
      && o.turn == (if isRed then "black" else "red")
      && o.from == m.from && o.to == m.to
  {
  }

  /**
   * A move the computer may return for the side isRed on board b: it moves
   * one of that side's pieces along a legal move, which now stands on the
   * target while the origin is left empty.
   */
  predicate PlayedBy(b: Board, isRed: bool, o: AiMove) {
    && o.from in b && OwnSide(isRed, b[o.from])
    && IsKey(o.from) && IsKey(o.to) && Legal(o.from, o.to, b[o.from], b)
    && o.to in o.pieces && o.pieces[o.to] == b[o.from]
    && o.from !in o.pieces
  }

  /** Playing out a sound candidate, whatever its score, is a legal move of the side to move. */
  lemma SoundPlayed(b: Board, isRed: bool, c: Move, m: Move)
    requires WellKeyed(b) && Sound(b, isRed, c)
    requires m.from == c.from && m.to == c.to && m.piece == c.piece
    ensures PlayedBy(b, isRed, Outcome(b, m, isRed))
  {
    NoNullMove(m.from, b);
    assert m.from != m.to;
  }

  /** The chosen candidate, played out, is a legal move of the side to move. */
  lemma ChosenOutcomePlayed(b: Board, order: seq<string>, isRed: bool, u: real)
    requires WellKeyed(b) && 0.0 <= u < 1.0 && Candidates(b, order, isRed) != []
    ensures PlayedBy(b, isRed, Outcome(b, ChosenMove(b, order, isRed, u), isRed))
  {
    var m := ChosenMove(b, order, isRed, u);
    ChosenMoveFacts(b, order, isRed, u);
    SoundPlayed(b, isRed, Unscored(b, m), m);
  }

  /** The forEach callback of getNextMove: simulate the move, evaluate, add the evaluation to the bonus. */
  method RescoreMove(b: Board, move: Move) returns (scored: Move)
    requires move.from in b
    ensures scored == Rescore(b, move)
  {
    var newPieces := b[move.to := b[move.from]];
    newPieces := newPieces - {move.from};
    var positionValue := EvaluatePosition(newPieces);
    scored := move.(value := move.value + positionValue);
  }

  /** The scoring pass of getNextMove over a fresh array holding the candidates. */
  method RescoreAll(b: Board, moves: seq<Move>) returns (a: array<Move>)
    requires forall i :: 0 <= i < |moves| ==> moves[i].from in b
    ensures fresh(a) && a[..] == Scored(b, moves)
  {
    a := new Move[|moves|](i requires 0 <= i < |moves| => moves[i]);
    for i := 0 to a.Length
      invariant forall k :: 0 <= k < i ==> a[k] == Rescore(b, moves[k])
      invariant forall k :: i <= k < a.Length ==> a[k] == moves[k]
    {
      var scored := RescoreMove(b, a[i]);
      a[i] := scored;
    }
  }

  /** getNextMove: null once the game is over or when no move exists; otherwise one of the three best. */
  method NextMove(b: Board, order: seq<string>, isRed: bool, u: real) returns (r: Option<AiMove>)
    requires WellKeyed(b) && IsEnumeration(order, b) && 0.0 <= u < 1.0
    ensures r.None? <==> IsGameOver(b) || Candidates(b, order, isRed) == []
    ensures r.Some? ==> (!IsGameOver(b) && Candidates(b, order, isRed) != []
                         && r.value == Outcome(b, ChosenMove(b, order, isRed, u), isRed))
    ensures r.Some? ==> PlayedBy(b, isRed, r.value)
  {
    if IsGameOver(b) {
      return None;
    }
    var possibleMoves := GetAllPossibleMoves(b, order, isRed);
    if |possibleMoves| == 0 {
      return None;
    }
    var selectedMove := PickMove(b, possibleMoves, u);
    ChosenOutcomePlayed(b, order, isRed, u);
    r := Some(Outcome(b, selectedMove, isRed));
  }

  /** Rescore the candidates, sort them best first and take entry floor(u * n) of the first n <= 3. */
  method PickMove(b: Board, moves: seq<Move>, u: real) returns (selectedMove: Move)
    requires moves != [] && 0.0 <= u < 1.0
    requires forall i :: 0 <= i < |moves| ==> moves[i].from in b
    ensures selectedMove == Ranked(b, moves)[PickIndex(u, Min(3, |moves|))]
  {
    var a := RescoreAll(b, moves);
    SortByValueDesc(a);
    var topMoves := a[..Min(3, a.Length)];
    selectedMove := topMoves[PickIndex(u, |topMoves|)];
  }
}
