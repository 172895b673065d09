/**
 * The board component's own coarse move filter (src/components/GameLogic.js):
 * it knows three red symbols and looks at the two cells only, never at the
 * board. The lemmas relate it to the rule engine of module Rules.
 */
module GameLogic {
  import opened Keys
  import opened Pieces
  import opened Rules

  /** canMovePiece: red pawn one row down the board, red rook on a line, red knight on an L. */
  function CanMovePiece(from: string, to: string, piece: string): (ok: bool)
    requires IsKey(from) && IsKey(to)
    ensures ok ==> piece == "卒" || piece == "車" || piece == "馬"
  {
    var fr, fc, tr, tc := Row(from), Col(from), Row(to), Col(to);
    match piece
    case "卒" => tr == fr + 1 && fc == tc
    case "車" => tr == fr || fc == tc
    case "馬" => (Dist(tr, fr) == 2 && Dist(tc, fc) == 1) || (Dist(tr, fr) == 1 && Dist(tc, fc) == 2)
    case _ => false
  }

  /** The filter never admits what the engine refuses on an empty board. */
  lemma CanMoveLegalOnEmpty(from: string, to: string, piece: string)
    requires IsKey(from) && IsKey(to)
    requires CanMovePiece(from, to, piece)
    ensures Legal(from, to, piece, map[])
  {
    if piece == "馬" {
      assert ValidateKnightMove(Row(from), Col(from), Row(to), Col(to), map[]);
    }
  }

  /** For the rook the filter is exactly the engine on an empty board. */
  lemma RookFilterExact(from: string, to: string)
    requires IsKey(from) && IsKey(to)
    ensures CanMovePiece(from, to, "車") <==> Legal(from, to, "車", map[])
  {
  }

  /** For the knight the filter is exactly the engine on an empty board. */
  lemma KnightFilterExact(from: string, to: string)
    requires IsKey(from) && IsKey(to)
    ensures CanMovePiece(from, to, "馬") <==> Legal(from, to, "馬", map[])
  {
    if CanMovePiece(from, to, "馬") {
      CanMoveLegalOnEmpty(from, to, "馬");
    }
  }

  /**
   * Every rook or knight move the engine accepts, on any board, passes the
   * filter: blocking pieces only ever make the engine stricter.
   */
  lemma LegalPassesFilter(from: string, to: string, piece: string, b: Board)
    requires IsKey(from) && IsKey(to) && (piece == "車" || piece == "馬")
    requires Legal(from, to, piece, b)
    ensures CanMovePiece(from, to, piece)
  {
    if piece == "馬" {
      assert ValidateKnightMove(Row(from), Col(from), Row(to), Col(to), b);
    }
  }

  /** A pawn step the filter admits is legal unless a red piece stands on the target. */
  lemma PawnFilterLegal(from: string, to: string, b: Board)
    requires IsKey(from) && IsKey(to) && CanMovePiece(from, to, "卒")
    ensures Legal(from, to, "卒", b) <==> !(Occupied(b, to) && b[to] in RedPieces)
  {
  }

  /**
   * The filter does not know the pawn's sideways step across the river: the
   * engine allows a red pawn on row 5 to step from column 4 to column 5.
   */
  lemma PawnSidewaysNotFiltered()
    ensures Legal(Key(5, 4), Key(5, 5), "卒", map[])
    ensures !CanMovePiece(Key(5, 4), Key(5, 5), "卒")
  {
    ParseKeyOfKey(5, 4);
    ParseKeyOfKey(5, 5);
  }

  /** The filter ignores blocking: a rook may pass over a piece in between. */
  lemma RookJumpFiltered()
    ensures CanMovePiece(Key(0, 0), Key(0, 2), "車")
    ensures !Legal(Key(0, 0), Key(0, 2), "車", map[Key(0, 1) := "卒"])
  {
    ParseKeyOfKey(0, 0);
    ParseKeyOfKey(0, 2);
    var b := map[Key(0, 1) := "卒"];
    assert Occupied(b, LineKey(0, 0, true, 1));
  }
}
