/**
 * Piece symbols and boards shared by the rule engine, the computer opponent and
 * the room server. A board maps a cell key "row-col" to a piece symbol; a cell
 * is empty when the key is absent or holds the empty string.
 */
module Pieces {

  /** Key "row-col" to piece symbol. */
  type Board = map<string, string>

  /** The seven red symbols: king, guard, elephant, rook, knight, cannon, pawn. */
  const RedPieces: seq<string> := ["帥", "仕", "相", "車", "馬", "炮", "卒"]

  /** The seven black symbols, in the same order of roles. */
  const BlackPieces: seq<string> := ["将", "士", "象", "车", "马", "砲", "兵"]

  /** A lookup `pieces[k]` is truthy: the key is present and holds a non-empty symbol. */
  predicate Occupied(b: Board, k: string) {
    k in b && b[k] != ""
  }

  predicate IsPiece(s: string) {
    s in RedPieces || s in BlackPieces
  }

  /** No symbol belongs to both sides, and none is the empty string. */
  lemma SidesDisjoint(s: string)
    ensures !(s in RedPieces && s in BlackPieces)
    ensures IsPiece(s) ==> s != ""
  {
  }

  /**
   * Occupancy is truthiness of the lookup: a cell holding a piece symbol is
   * occupied, and a cell whose entry is missing or blank is empty.
   */
  lemma OccupiedPiece(b: Board, k: string)
    ensures k in b && IsPiece(b[k]) ==> Occupied(b, k)
    ensures !Occupied(b - {k}, k) && !Occupied(b[k := ""], k)
    ensures forall j :: j != k ==> (Occupied(b[k := ""], j) <==> Occupied(b, j))
  {
    if k in b {
      SidesDisjoint(b[k]);
    }
  }
}
