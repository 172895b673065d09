/**
 * Properties of the rule engine's specification `Rules.Legal`: what each
 * piece kind may do, stated geometrically over cells rather than over the
 * engine's line indices, plus worked examples on concrete cells (a blocked
 * rook row, pawns before and after the river, a knight's leg).
 */
module RuleProperties {
  import opened Keys
  import opened Pieces
  import opened Rules

  /** Legality between two cells named by row and column, through the keys built for them. */
  predicate LegalOnCells(fr: nat, fc: nat, tr: nat, tc: nat, piece: string, b: Board) {
    ParseKeyOfKey(fr, fc);
    ParseKeyOfKey(tr, tc);
    Legal(Key(fr, fc), Key(tr, tc), piece, b)
  }

  // ---------------------------------------------------------------------------
  // Common to all pieces

  /** A move onto a piece of one's own side is never legal. */
  lemma SameTeamTargetIllegal(from: string, to: string, piece: string, b: Board)
    requires IsKey(from) && IsKey(to)
    requires Occupied(b, to) && IsSameTeam(piece, b[to])
    ensures !Legal(from, to, piece, b)
  {
  }

  /** With the piece in place, staying on its own cell is illegal for every symbol. */
  lemma NoNullMove(k: string, b: Board)
    requires IsKey(k) && k in b
    ensures !Legal(k, k, b[k], b)
  {
    SidesDisjoint(b[k]);
  }

  /** A symbol outside the fourteen is never legal. */
  lemma UnknownPieceIllegal(from: string, to: string, piece: string, b: Board)
    requires IsKey(from) && IsKey(to) && !IsPiece(piece)
    ensures !Legal(from, to, piece, b)
  {
  }

  // ---------------------------------------------------------------------------
  // Line scans

  lemma {:induction false} CountZeroIff(b: Board, fr: nat, fc: nat, h: bool, lo: nat, hi: nat)
    ensures CountOccupied(b, fr, fc, h, lo, hi) == 0
        <==> forall i :: lo <= i < hi ==> !Occupied(b, LineKey(fr, fc, h, i))
  {
    if hi > lo {
      CountZeroIff(b, fr, fc, h, lo, hi - 1);
    }
  }

  /** Exactly one occupied cell of the line in [lo, hi), namely j. */
  predicate OnlyOccupied(b: Board, fr: nat, fc: nat, h: bool, lo: nat, hi: nat, j: nat) {
    lo <= j < hi && Occupied(b, LineKey(fr, fc, h, j))
    && forall i :: lo <= i < hi && i != j ==> !Occupied(b, LineKey(fr, fc, h, i))
  }

  lemma {:induction false} CountOneIff(b: Board, fr: nat, fc: nat, h: bool, lo: nat, hi: nat)
    ensures CountOccupied(b, fr, fc, h, lo, hi) == 1
        <==> exists j: nat :: OnlyOccupied(b, fr, fc, h, lo, hi, j)
  {
    if hi > lo {
      var last := hi - 1;
      CountZeroIff(b, fr, fc, h, lo, last);
      CountOneIff(b, fr, fc, h, lo, last);
      if Occupied(b, LineKey(fr, fc, h, last)) {
        if CountOccupied(b, fr, fc, h, lo, hi) == 1 {
          assert OnlyOccupied(b, fr, fc, h, lo, hi, last);
        }
        if exists j: nat :: OnlyOccupied(b, fr, fc, h, lo, hi, j) {
          var j: nat :| OnlyOccupied(b, fr, fc, h, lo, hi, j);
          assert j == last;
        }
      } else {
        if CountOccupied(b, fr, fc, h, lo, hi) == 1 {
          var j: nat :| OnlyOccupied(b, fr, fc, h, lo, last, j);
          assert OnlyOccupied(b, fr, fc, h, lo, hi, j);
        }
        if exists j: nat :: OnlyOccupied(b, fr, fc, h, lo, hi, j) {
          var j: nat :| OnlyOccupied(b, fr, fc, h, lo, hi, j);
          assert OnlyOccupied(b, fr, fc, h, lo, last, j);
        }
      }
    }
  }

  /** Cell (r, c) lies on the row or column joining the two cells, strictly between them. */
  predicate StrictlyBetween(fr: nat, fc: nat, tr: nat, tc: nat, r: nat, c: nat) {
    (r == fr && r == tr && Min(fc, tc) < c < Max(fc, tc))
    || (c == fc && c == tc && Min(fr, tr) < r < Max(fr, tr))
  }

  /** No occupied cell strictly between. */
  ghost predicate ClearBetween(b: Board, fr: nat, fc: nat, tr: nat, tc: nat) {
    forall r: nat, c: nat :: StrictlyBetween(fr, fc, tr, tc, r, c) ==> !Occupied(b, Key(r, c))
  }

  /** Exactly one occupied cell strictly between, at (r, c). */
  ghost predicate OnlyScreen(b: Board, fr: nat, fc: nat, tr: nat, tc: nat, r: nat, c: nat) {
    StrictlyBetween(fr, fc, tr, tc, r, c) && Occupied(b, Key(r, c))
    && forall r': nat, c': nat ::
         StrictlyBetween(fr, fc, tr, tc, r', c') && Occupied(b, Key(r', c')) ==> r' == r && c' == c
  }

  /** Cell (r, c) is strictly between two aligned cells exactly when it is a scanned line cell. */
  lemma LineCells(fr: nat, fc: nat, tr: nat, tc: nat, r: nat, c: nat)
    requires fr == tr || fc == tc
    ensures var h := fr == tr;
            var start := if h then Min(fc, tc) else Min(fr, tr);
            var end := if h then Max(fc, tc) else Max(fr, tr);
            StrictlyBetween(fr, fc, tr, tc, r, c)
            <==> (if h then r == fr && start < c < end else c == fc && start < r < end)
  {
  }

  lemma PathClearIff(b: Board, fr: nat, fc: nat, tr: nat, tc: nat)
    requires fr == tr || fc == tc
    ensures PathClear(b, fr, fc, tr, tc) <==> ClearBetween(b, fr, fc, tr, tc)
  {
    var h := fr == tr;
    if PathClear(b, fr, fc, tr, tc) {
      forall r: nat, c: nat | StrictlyBetween(fr, fc, tr, tc, r, c)
        ensures !Occupied(b, Key(r, c))
      {
        LineCells(fr, fc, tr, tc, r, c);
        if h { assert Key(r, c) == LineKey(fr, fc, h, c); }
        else { assert Key(r, c) == LineKey(fr, fc, h, r); }
      }
    }
    if ClearBetween(b, fr, fc, tr, tc) {
      var start := if h then Min(fc, tc) else Min(fr, tr);
      var end := if h then Max(fc, tc) else Max(fr, tr);
      forall i | start < i < end ensures !Occupied(b, LineKey(fr, fc, h, i)) {
        if h { LineCells(fr, fc, tr, tc, fr, i); }
        else { LineCells(fr, fc, tr, tc, i, fc); }
      }
    }
  }

  lemma ScreensZeroIff(b: Board, fr: nat, fc: nat, tr: nat, tc: nat)
    requires fr == tr || fc == tc
    ensures Screens(b, fr, fc, tr, tc) == 0 <==> ClearBetween(b, fr, fc, tr, tc)
  {
    var h := fr == tr;
    var start := if h then Min(fc, tc) else Min(fr, tr);
    var end := if h then Max(fc, tc) else Max(fr, tr);
    CountZeroIff(b, fr, fc, h, start + 1, end);
    PathClearIff(b, fr, fc, tr, tc);
  }

  lemma ScreensOneIff(b: Board, fr: nat, fc: nat, tr: nat, tc: nat)
    requires fr == tr || fc == tc
    ensures Screens(b, fr, fc, tr, tc) == 1
        <==> exists r: nat, c: nat :: OnlyScreen(b, fr, fc, tr, tc, r, c)
  {
    var h := fr == tr;
    var start := if h then Min(fc, tc) else Min(fr, tr);
    var end := if h then Max(fc, tc) else Max(fr, tr);
    CountOneIff(b, fr, fc, h, start + 1, end);
    if Screens(b, fr, fc, tr, tc) == 1 {
      var j: nat :| OnlyOccupied(b, fr, fc, h, start + 1, end, j);
      var r: nat, c: nat := if h then fr else j, if h then j else fc;
      assert Key(r, c) == LineKey(fr, fc, h, j);
      LineCells(fr, fc, tr, tc, r, c);
      forall r': nat, c': nat | StrictlyBetween(fr, fc, tr, tc, r', c') && Occupied(b, Key(r', c'))
        ensures r' == r && c' == c
      {
        LineCells(fr, fc, tr, tc, r', c');
        var i := if h then c' else r';
        assert Key(r', c') == LineKey(fr, fc, h, i);
      }
      assert OnlyScreen(b, fr, fc, tr, tc, r, c);
    }
    if exists r: nat, c: nat :: OnlyScreen(b, fr, fc, tr, tc, r, c) {
      var r: nat, c: nat :| OnlyScreen(b, fr, fc, tr, tc, r, c);
      LineCells(fr, fc, tr, tc, r, c);
      var j := if h then c else r;
      assert Key(r, c) == LineKey(fr, fc, h, j);
      forall i | start + 1 <= i < end && i != j ensures !Occupied(b, LineKey(fr, fc, h, i)) {
        var r': nat, c': nat := if h then fr else i, if h then i else fc;
        LineCells(fr, fc, tr, tc, r', c');
        assert Key(r', c') == LineKey(fr, fc, h, i);
      }
      assert OnlyOccupied(b, fr, fc, h, start + 1, end, j);
    }
  }

  // ---------------------------------------------------------------------------
  // Rook and cannon

  /** A rook move is legal exactly along a row or column with nothing strictly between. */
  lemma RookLegalIff(from: string, to: string, piece: string, b: Board)
    requires IsKey(from) && IsKey(to) && IsRook(piece)
    ensures Legal(from, to, piece, b)
        <==> !(Occupied(b, to) && IsSameTeam(piece, b[to]))
             && (Row(from) == Row(to) || Col(from) == Col(to))
             && ClearBetween(b, Row(from), Col(from), Row(to), Col(to))
  {
    if Row(from) == Row(to) || Col(from) == Col(to) {
      PathClearIff(b, Row(from), Col(from), Row(to), Col(to));
    }
  }

  /**
   * A cannon move is legal exactly along a row or column with nothing between
   * when the target is empty, and with exactly one screen when it captures an
   * enemy piece.
   */
  lemma CannonLegalIff(from: string, to: string, piece: string, b: Board)
    requires IsKey(from) && IsKey(to) && IsCannon(piece)
    ensures Legal(from, to, piece, b)
        <==> (Row(from) == Row(to) || Col(from) == Col(to))
             && (if !Occupied(b, to) then ClearBetween(b, Row(from), Col(from), Row(to), Col(to))
                 else !IsSameTeam(piece, b[to])
                      && exists r: nat, c: nat :: OnlyScreen(b, Row(from), Col(from), Row(to), Col(to), r, c))
  {
    var fr, fc, tr, tc := Row(from), Col(from), Row(to), Col(to);
    if fr == tr || fc == tc {
      ScreensZeroIff(b, fr, fc, tr, tc);
      ScreensOneIff(b, fr, fc, tr, tc);
    }
  }

  /** Onto an empty cell the cannon moves exactly like the rook. */
  lemma CannonMovesLikeRook(from: string, to: string, cannon: string, rook: string, b: Board)
    requires IsKey(from) && IsKey(to) && IsCannon(cannon) && IsRook(rook)
    requires !Occupied(b, to)
    ensures Legal(from, to, cannon, b) == Legal(from, to, rook, b)
  {
    var fr, fc, tr, tc := Row(from), Col(from), Row(to), Col(to);
    if fr == tr || fc == tc {
      ScreensZeroIff(b, fr, fc, tr, tc);
      PathClearIff(b, fr, fc, tr, tc);
    }
  }

  /** The rook example: (0,0) to (0,8) needs (0,1) .. (0,7) empty; a piece on (0,4) blocks it. */
  lemma RookRowExample(b: Board)
    requires !Occupied(b, Key(0, 8))
    ensures LegalOnCells(0, 0, 0, 8, "車", b) <==> forall c :: 1 <= c <= 7 ==> !Occupied(b, Key(0, c))
    ensures Occupied(b, Key(0, 4)) ==> !LegalOnCells(0, 0, 0, 8, "車", b)
  {
    ParseKeyOfKey(0, 0);
    ParseKeyOfKey(0, 8);
    assert LegalOnCells(0, 0, 0, 8, "車", b) == PathClear(b, 0, 0, 0, 8);
    assert forall i :: LineKey(0, 0, true, i) == Key(0, i);
  }

  // ---------------------------------------------------------------------------
  // Pawn

  /** A legal pawn move is one orthogonal step, never backward, sideways only across the river. */
  lemma PawnSteps(from: string, to: string, piece: string, b: Board)
    requires IsKey(from) && IsKey(to) && IsPawn(piece) && Legal(from, to, piece, b)
    ensures Dist(Row(from), Row(to)) + Dist(Col(from), Col(to)) == 1
    ensures piece == "卒" ==> Row(to) >= Row(from) && (Row(to) == Row(from) ==> Row(from) >= 5)
    ensures piece == "兵" ==> Row(to) <= Row(from) && (Row(to) == Row(from) ==> Row(from) <= 4)
  {
  }

  /** The pawn examples for red 卒, which advances towards higher rows. */
  lemma PawnRiverExamples(c: nat, b: Board)
    requires 1 <= c <= 7
    ensures !Occupied(b, Key(4, c)) ==> LegalOnCells(3, c, 4, c, "卒", b)
    ensures !LegalOnCells(3, c, 3, c + 1, "卒", b) && !LegalOnCells(3, c, 3, c - 1, "卒", b)
    ensures !Occupied(b, Key(5, c + 1)) ==> LegalOnCells(5, c, 5, c + 1, "卒", b)
    ensures !LegalOnCells(5, c, 4, c, "卒", b)
  {
    ParseKeyOfKey(3, c);
    ParseKeyOfKey(4, c);
    ParseKeyOfKey(3, c + 1);
    ParseKeyOfKey(3, c - 1);
    ParseKeyOfKey(5, c);
    ParseKeyOfKey(5, c + 1);
  }

  /** Red and black pawns move alike on a board turned upside down. */
  lemma PawnMirror(fr: nat, fc: nat, tr: nat, tc: nat)
    requires fr <= 9 && tr <= 9
    ensures ValidatePawnMove(fr, fc, tr, tc, "卒") == ValidatePawnMove(9 - fr, fc, 9 - tr, tc, "兵")
  {
  }

  // ---------------------------------------------------------------------------
  // Knight

  /** A legal knight move is an L whose leg, next to `from` along the long side, is empty. */
  lemma KnightLeg(from: string, to: string, piece: string, b: Board)
    requires IsKey(from) && IsKey(to) && IsKnight(piece) && Legal(from, to, piece, b)
    ensures var fr, fc, tr, tc := Row(from), Col(from), Row(to), Col(to);
            (Dist(fr, tr) == 2 && Dist(fc, tc) == 1
             && !Occupied(b, Key(if tr > fr then fr + 1 else fr - 1, fc)))
            || (Dist(fr, tr) == 1 && Dist(fc, tc) == 2
                && !Occupied(b, Key(fr, if tc > fc then fc + 1 else fc - 1)))
  {
    var fr, fc, tr, tc := Row(from), Col(from), Row(to), Col(to);
    if Dist(fr, tr) == 2 && Dist(fc, tc) == 1 {
      assert (fr + tr) / 2 == if tr > fr then fr + 1 else fr - 1;
    } else {
      assert (fc + tc) / 2 == if tc > fc then fc + 1 else fc - 1;
    }
  }

  /** The knight example: from (2,2) to (0,1) is legal exactly when the leg (1,2) is empty. */
  lemma KnightExample(b: Board)
    requires !(Occupied(b, Key(0, 1)) && IsSameTeam("馬", b[Key(0, 1)]))
    ensures LegalOnCells(2, 2, 0, 1, "馬", b) <==> !Occupied(b, Key(1, 2))
  {
    ParseKeyOfKey(2, 2);
    ParseKeyOfKey(0, 1);
  }

  // ---------------------------------------------------------------------------
  // King, guard, elephant

  /** A legal king move is one orthogonal step ending in either palace. */
  lemma KingSteps(from: string, to: string, piece: string, b: Board)
    requires IsKey(from) && IsKey(to) && IsKing(piece) && Legal(from, to, piece, b)
    ensures Dist(Row(from), Row(to)) + Dist(Col(from), Col(to)) == 1
    ensures 3 <= Col(to) <= 5 && (Row(to) <= 2 || 7 <= Row(to) <= 9)
  {
  }

  /** The palace test does not depend on the side: the red king may step inside rows 7-9. */
  lemma RedKingInLowerPalace(c: nat, b: Board)
    requires 3 <= c <= 5 && !Occupied(b, Key(8, c))
    ensures LegalOnCells(7, c, 8, c, "帥", b)
  {
    ParseKeyOfKey(7, c);
    ParseKeyOfKey(8, c);
    assert ValidateKingMove(7, c, 8, c);
  }

  /** ... and the black king inside rows 0-2. */
  lemma BlackKingInUpperPalace(c: nat, b: Board)
    requires 3 <= c <= 5 && !Occupied(b, Key(1, c))
    ensures LegalOnCells(2, c, 1, c, "将", b)
  {
    ParseKeyOfKey(2, c);
    ParseKeyOfKey(1, c);
    assert ValidateKingMove(2, c, 1, c);
  }

  /** A legal guard move is one diagonal step ending in columns 3-5 of its own rows. */
  lemma GuardSteps(from: string, to: string, piece: string, b: Board)
    requires IsKey(from) && IsKey(to) && IsGuard(piece) && Legal(from, to, piece, b)
    ensures Dist(Row(from), Row(to)) == 1 && Dist(Col(from), Col(to)) == 1
    ensures 3 <= Col(to) <= 5
    ensures piece == "仕" ==> Row(to) <= 2
    ensures piece == "士" ==> 7 <= Row(to) <= 9
  {
  }

  lemma GuardMirror(fr: nat, fc: nat, tr: nat, tc: nat)
    requires fr <= 9 && tr <= 9
    ensures ValidateGuardMove(fr, fc, tr, tc, "仕") == ValidateGuardMove(9 - fr, fc, 9 - tr, tc, "士")
  {
  }

  /** A legal elephant move is a (2,2) diagonal with an empty eye that stays on its side of the river. */
  lemma ElephantSteps(from: string, to: string, piece: string, b: Board)
    requires IsKey(from) && IsKey(to) && IsElephant(piece) && Legal(from, to, piece, b)
    ensures var fr, fc, tr, tc := Row(from), Col(from), Row(to), Col(to);
            Dist(fr, tr) == 2 && Dist(fc, tc) == 2
            && !Occupied(b, Key(if tr > fr then fr + 1 else fr - 1, if tc > fc then fc + 1 else fc - 1))
    ensures piece == "相" ==> Row(to) <= 4
    ensures piece == "象" ==> Row(to) >= 5
  {
    var fr, fc, tr, tc := Row(from), Col(from), Row(to), Col(to);
    assert (fr + tr) / 2 == if tr > fr then fr + 1 else fr - 1;
    assert (fc + tc) / 2 == if tc > fc then fc + 1 else fc - 1;
  }
}
