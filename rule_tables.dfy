/** The notation resolver's target check (src/move-parser.js) and the legality rule table
    (dist/src/rules) are two independent tables of the same rules, on boards that spell pieces
    differently: glyphs indexed [y][x] for the resolver, type letters indexed [row][col] for
    the validator. Where they agree and where they do not. */
module RuleTables {
  import opened Board
  import Resolver
  import PieceRules
  import Validator

  /** Both tables draw the same palaces; the resolver only takes its coordinates as (x, y). */
  lemma PalaceTablesAgree(row: int, col: int, color: Color)
    ensures PieceRules.IsInPalace(row, col, color) == Resolver.IsInPalace(col, row, color)
  {
  }

  /** With the kings face to face on file 4 at rows 0 and 8, the resolver accepts red's step to
      (7, 4), which the validator refuses as flying general: only the validator checks it. */
  lemma FlyingGeneralOnlyInValidator(rb: Grid, vb: Grid)
    requires rb == Place(Place(EmptyGrid(), 8, 4, Piece('帥', Red)), 0, 4, Piece('將', Black))
    requires vb == Place(Place(EmptyGrid(), 8, 4, Piece('K', Red)), 0, 4, Piece('K', Black))
    ensures Resolver.IsValidTarget(rb, 4, 8, 4, 7, Red)
    ensures Validator.MoveVerdict(vb, 8, 4, 7, 4) == PieceRules.Invalid(PieceRules.FlyingGeneral)
  {
    assert rb[8][4] == Some(Piece('帥', Red)) && rb[7][4].None?;
    Validator.FlyingGeneralRefused(vb);
  }

  /** A red pawn across the river (row 4) stepping back to row 5: the validator accepts it, the
      resolver's check does not. */
  lemma CrossedPawnRetreatOnlyInValidator(rb: Grid, vb: Grid)
    requires rb == Place(EmptyGrid(), 4, 4, Piece('兵', Red))
    requires vb == Place(EmptyGrid(), 4, 4, Piece('P', Red))
    ensures !Resolver.IsValidTarget(rb, 4, 4, 4, 5, Red)
    ensures Validator.MoveVerdict(vb, 4, 4, 5, 4) == PieceRules.Valid
  {
    assert rb[4][4] == Some(Piece('兵', Red)) && rb[5][4].None?;
    Validator.PawnRetreatAfterRiver(vb, Place(EmptyGrid(), 6, 4, Piece('P', Red)));
  }
}
