/**
 * The move-legality rule engine (src/utils/rules.js). `Legal` is the
 * specification of a move: it decides a move of `piece` from key `from` to
 * key `to` on board `b`. `IsValidMove` is the engine itself; the rook and
 * cannon checks scan the line between the two cells with a loop, so they and
 * the dispatcher are methods proved against `Legal`. Nothing here changes the
 * board: it is a value.
 */
module Rules {
  import opened Keys
  import opened Pieces

  /** Both symbols are red or both are black (an unknown symbol is on no side). */
  predicate IsSameTeam(a: string, b: string) {
    (a in RedPieces && b in RedPieces) || (a in BlackPieces && b in BlackPieces)
  }

  function Dist(a: nat, b: nat): nat {
    if a >= b then a - b else b - a
  }

  function Min(a: nat, b: nat): nat {
    if a <= b then a else b
  }

  function Max(a: nat, b: nat): nat {
    if a >= b then a else b
  }

  // ---------------------------------------------------------------------------
  // Board-free and single-lookup checks

  /** Pawn: one step forward (red 卒 towards higher rows), or sideways once across the river. */
  predicate ValidatePawnMove(fr: nat, fc: nat, tr: nat, tc: nat, piece: string) {
    var isRed := piece == "卒";
    var direction := if isRed then 1 else -1;
    var crossed := if isRed then fr >= 5 else fr <= 4;
    (tr as int == fr as int + direction && tc == fc)
    || (crossed && tr == fr && Dist(tc, fc) == 1)
  }

  /** Knight: an L-shape whose leg, the midpoint of the long side, is empty. */
  predicate ValidateKnightMove(fr: nat, fc: nat, tr: nat, tc: nat, b: Board) {
    var rowDiff, colDiff := Dist(fr, tr), Dist(fc, tc);
    if rowDiff == 2 && colDiff == 1 then
      !Occupied(b, Key((fr + tr) / 2, fc))
    else if rowDiff == 1 && colDiff == 2 then
      !Occupied(b, Key(fr, (fc + tc) / 2))
    else
      false
  }

  /** Columns 3 to 5 of rows 0 to 2 or rows 7 to 9: either palace. */
  predicate InPalace(row: nat, col: nat) {
    3 <= col <= 5 && (row <= 2 || 7 <= row <= 9)
  }

  predicate ValidateKingMove(fr: nat, fc: nat, tr: nat, tc: nat) {
    InPalace(tr, tc) && Dist(fr, tr) + Dist(fc, tc) == 1
  }

  /** Guard: one diagonal step into its own palace (red 仕 rows 0-2, others rows 7-9). */
  predicate ValidateGuardMove(fr: nat, fc: nat, tr: nat, tc: nat, piece: string) {
    var isRed := piece == "仕";
    var lowRow := if isRed then 0 else 7;
    var highRow := if isRed then 2 else 9;
    3 <= tc <= 5 && lowRow <= tr <= highRow && Dist(fr, tr) == 1 && Dist(fc, tc) == 1
  }

  /** Elephant: two diagonal steps with an empty eye, never across the river. */
  predicate ValidateBishopMove(fr: nat, fc: nat, tr: nat, tc: nat, piece: string, b: Board) {
    var isRed := piece == "相";
    var riverBoundary := if isRed then 4 else 5;
    if Dist(fr, tr) == 2 && Dist(fc, tc) == 2 then
      !Occupied(b, Key((fr + tr) / 2, (fc + tc) / 2))
      && (if isRed then tr <= riverBoundary else tr >= riverBoundary)
    else
      false
  }

  // ---------------------------------------------------------------------------
  // Line scans for the rook and the cannon

  /** The i-th cell of the scanned line: along row fr when horizontal, else along column fc. */
  function LineKey(fr: nat, fc: nat, horizontal: bool, i: nat): string {
    if horizontal then Key(fr, i) else Key(i, fc)
  }

  /** Every cell strictly between the two ends of the line is empty. */
  predicate PathClear(b: Board, fr: nat, fc: nat, tr: nat, tc: nat) {
    var horizontal := fr == tr;
    var start := if horizontal then Min(fc, tc) else Min(fr, tr);
    var end := if horizontal then Max(fc, tc) else Max(fr, tr);
    forall i :: start < i < end ==> !Occupied(b, LineKey(fr, fc, horizontal, i))
  }

  /** The number of occupied cells with line index in [lo, hi). */
  function CountOccupied(b: Board, fr: nat, fc: nat, horizontal: bool, lo: nat, hi: nat): nat
    decreases hi
  {
    if hi <= lo then 0
    else CountOccupied(b, fr, fc, horizontal, lo, hi - 1)
         + (if Occupied(b, LineKey(fr, fc, horizontal, hi - 1)) then 1 else 0)
  }

  /** The number of occupied cells strictly between the two ends (the cannon's screens). */
  function Screens(b: Board, fr: nat, fc: nat, tr: nat, tc: nat): nat {
    var horizontal := fr == tr;
    var start := if horizontal then Min(fc, tc) else Min(fr, tr);
    var end := if horizontal then Max(fc, tc) else Max(fr, tr);
    CountOccupied(b, fr, fc, horizontal, start + 1, end)
  }

  predicate RookSpec(b: Board, fr: nat, fc: nat, tr: nat, tc: nat) {
    (fr == tr || fc == tc) && PathClear(b, fr, fc, tr, tc)
  }

  predicate CannonSpec(b: Board, fr: nat, fc: nat, tr: nat, tc: nat, to: string) {
    (fr == tr || fc == tc)
    && (if !Occupied(b, to) then Screens(b, fr, fc, tr, tc) == 0
        else Screens(b, fr, fc, tr, tc) == 1)
  }

  /** The rook check: along a row or a column with no piece strictly in between. */
  method ValidateRookMove(fr: nat, fc: nat, tr: nat, tc: nat, b: Board) returns (ok: bool)
    ensures ok == RookSpec(b, fr, fc, tr, tc)
  {
    if fr != tr && fc != tc {
      return false;
    }
    var horizontal := fr == tr;
    var start := if horizontal then Min(fc, tc) else Min(fr, tr);
    var end := if horizontal then Max(fc, tc) else Max(fr, tr);
    var i := start + 1;
    while i < end
      invariant start + 1 <= i
      invariant forall j :: start < j < i ==> !Occupied(b, LineKey(fr, fc, horizontal, j))
    {
      var key := if horizontal then Key(fr, i) else Key(i, fc);
      if Occupied(b, key) {
        assert key == LineKey(fr, fc, horizontal, i) && start < i < end;
        return false;
      }
      i := i + 1;
    }
    return true;
  }

  /** The cannon check: counts the pieces strictly in between; none to move, one to capture. */
  method ValidateCannonMove(fr: nat, fc: nat, tr: nat, tc: nat, b: Board, to: string) returns (ok: bool)
    ensures ok == CannonSpec(b, fr, fc, tr, tc, to)
  {
    if fr != tr && fc != tc {
      return false;
    }
    var horizontal := fr == tr;
    var start := if horizontal then Min(fc, tc) else Min(fr, tr);
    var end := if horizontal then Max(fc, tc) else Max(fr, tr);
    var blockCount := 0;
    var i := start + 1;
    while i < end
      invariant start + 1 <= i <= Max(start + 1, end)
      invariant blockCount == CountOccupied(b, fr, fc, horizontal, start + 1, i)
    {
      var key := if horizontal then Key(fr, i) else Key(i, fc);
      if Occupied(b, key) {
        blockCount := blockCount + 1;
      }
      i := i + 1;
    }
    assert blockCount == Screens(b, fr, fc, tr, tc);
    if !Occupied(b, to) {
      return blockCount == 0;
    } else {
      return blockCount == 1;
    }
  }

  // ---------------------------------------------------------------------------
  // The engine

  predicate IsPawn(p: string)     { p == "卒" || p == "兵" }
  predicate IsRook(p: string)     { p == "車" || p == "车" }
  predicate IsKnight(p: string)   { p == "馬" || p == "马" }
  predicate IsCannon(p: string)   { p == "炮" || p == "砲" }
  predicate IsKing(p: string)     { p == "帥" || p == "将" }
  predicate IsGuard(p: string)    { p == "仕" || p == "士" }
  predicate IsElephant(p: string) { p == "相" || p == "象" }

  /** Legality of moving `piece` from key `from` to key `to` on board `b`. */
  predicate Legal(from: string, to: string, piece: string, b: Board)
    requires IsKey(from) && IsKey(to)
  {
    var fr, fc, tr, tc := Row(from), Col(from), Row(to), Col(to);
    if Occupied(b, to) && IsSameTeam(piece, b[to]) then false
    else if IsPawn(piece) then ValidatePawnMove(fr, fc, tr, tc, piece)
    else if IsRook(piece) then RookSpec(b, fr, fc, tr, tc)
    else if IsKnight(piece) then ValidateKnightMove(fr, fc, tr, tc, b)
    else if IsCannon(piece) then CannonSpec(b, fr, fc, tr, tc, to)
    else if IsKing(piece) then ValidateKingMove(fr, fc, tr, tc)
    else if IsGuard(piece) then ValidateGuardMove(fr, fc, tr, tc, piece)
    else if IsElephant(piece) then ValidateBishopMove(fr, fc, tr, tc, piece, b)
    else false
  }

  /** isValidMove: rejects a same-side target, then dispatches on the symbol. */
  method IsValidMove(from: string, to: string, piece: string, b: Board) returns (ok: bool)
    requires IsKey(from) && IsKey(to)
    ensures ok == Legal(from, to, piece, b)
  {
    var fr, fc := Row(from), Col(from);
    var tr, tc := Row(to), Col(to);
    if Occupied(b, to) && IsSameTeam(piece, b[to]) {
      return false;
    }
    if IsPawn(piece) {
      ok := ValidatePawnMove(fr, fc, tr, tc, piece);
    } else if IsRook(piece) {
      ok := ValidateRookMove(fr, fc, tr, tc, b);
    } else if IsKnight(piece) {
      ok := ValidateKnightMove(fr, fc, tr, tc, b);
    } else if IsCannon(piece) {
      ok := ValidateCannonMove(fr, fc, tr, tc, b, to);
    } else if IsKing(piece) {
      ok := ValidateKingMove(fr, fc, tr, tc);
    } else if IsGuard(piece) {
      ok := ValidateGuardMove(fr, fc, tr, tc, piece);
    } else if IsElephant(piece) {
      ok := ValidateBishopMove(fr, fc, tr, tc, piece, b);
    } else {
      ok := false;
    }
  }
}
