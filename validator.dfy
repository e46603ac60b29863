/** XiangqiValidator.validateMove (dist/src/rules/validator.js): the shared prechecks in order
    (bounds, same square, empty origin, friendly capture, unknown type), then the rule for the
    moving piece's type letter. The board is a value, so the validator cannot change it. */
module Validator {
  import opened Board
  import opened PieceRules

  /** ruleValidators: the rule each type letter dispatches to. */
  function Rule(kind: Kind, b: Grid, fromRow: int, fromCol: int, toRow: int, toCol: int, piece: Piece): Verdict
    requires WellFormed(b) && InBounds(fromRow, fromCol) && InBounds(toRow, toCol)
  {
    match kind
    case Rook => RookValidate(b, fromRow, fromCol, toRow, toCol, piece)
    case Horse => KnightValidate(b, fromRow, fromCol, toRow, toCol, piece)
    case Elephant => ElephantValidate(b, fromRow, fromCol, toRow, toCol, piece)
    case Advisor => AdvisorValidate(b, fromRow, fromCol, toRow, toCol, piece)
    case King => KingRule(b, fromRow, fromCol, toRow, toCol, piece)
    case Pawn => PawnValidate(b, fromRow, fromCol, toRow, toCol, piece)
    case Cannon => CannonValidate(b, fromRow, fromCol, toRow, toCol, piece)
  }

  /** The verdict validateMove returns. */
  function MoveVerdict(b: Grid, fromRow: int, fromCol: int, toRow: int, toCol: int): Verdict
    requires WellFormed(b)
  {
    if !InBounds(fromRow, fromCol) || !InBounds(toRow, toCol) then Invalid(OutOfBounds)
    else if fromRow == toRow && fromCol == toCol then Invalid(SameSquare)
    else if b[fromRow][fromCol].None? then Invalid(EmptyOrigin)
    else
      var piece := b[fromRow][fromCol].value;
      if b[toRow][toCol].Some? && b[toRow][toCol].value.color == piece.color then Invalid(FriendlyCapture)
      else
        match TypeOf(piece.kind)
        case None => Invalid(UnknownType)
        case Some(kind) => Rule(kind, b, fromRow, fromCol, toRow, toCol, piece)
  }

  /** validateMove(board, from, to). */
  method ValidateMove(b: Grid, fromRow: int, fromCol: int, toRow: int, toCol: int) returns (v: Verdict)
    requires WellFormed(b)
    ensures v == MoveVerdict(b, fromRow, fromCol, toRow, toCol)
  {
    if !InBounds(fromRow, fromCol) || !InBounds(toRow, toCol) {
      return Invalid(OutOfBounds);
    }
    if fromRow == toRow && fromCol == toCol {
      return Invalid(SameSquare);
    }
    var piece := b[fromRow][fromCol];
    if piece.None? {
      return Invalid(EmptyOrigin);
    }
    var targetPiece := b[toRow][toCol];
    if targetPiece.Some? && targetPiece.value.color == piece.value.color {
      return Invalid(FriendlyCapture);
    }
    var ruleValidator := TypeOf(piece.value.kind);
    if ruleValidator.None? {
      return Invalid(UnknownType);
    }
    if ruleValidator.value == King {
      v := KingValidate(b, fromRow, fromCol, toRow, toCol, piece.value);
    } else {
      v := Rule(ruleValidator.value, b, fromRow, fromCol, toRow, toCol, piece.value);
    }
  }

  /** The prechecks come first and in this order: bounds, same square, empty origin, friendly
      capture, unknown type. */
  lemma PrechecksInOrder(b: Grid, fromRow: int, fromCol: int, toRow: int, toCol: int)
    requires WellFormed(b)
    ensures var v := MoveVerdict(b, fromRow, fromCol, toRow, toCol);
            && (v == Invalid(OutOfBounds) <==> !InBounds(fromRow, fromCol) || !InBounds(toRow, toCol))
            && (InBounds(fromRow, fromCol) && InBounds(toRow, toCol) ==>
                  && (fromRow == toRow && fromCol == toCol ==> v == Invalid(SameSquare))
                  && ((fromRow, fromCol) != (toRow, toCol) && b[fromRow][fromCol].None? ==> v == Invalid(EmptyOrigin))
                  && ((fromRow, fromCol) != (toRow, toCol) && b[fromRow][fromCol].Some? &&
                      b[toRow][toCol].Some? && b[toRow][toCol].value.color == b[fromRow][fromCol].value.color ==>
                        v == Invalid(FriendlyCapture)))
  {
  }

  /** A move that passes the first four prechecks gets UnknownType for a letter outside the
      table and otherwise exactly the verdict of its type's rule. */
  lemma DispatchByType(b: Grid, fromRow: int, fromCol: int, toRow: int, toCol: int)
    requires WellFormed(b) && InBounds(fromRow, fromCol) && InBounds(toRow, toCol) && (fromRow, fromCol) != (toRow, toCol)
    requires b[fromRow][fromCol].Some?
    requires b[toRow][toCol].None? || b[toRow][toCol].value.color != b[fromRow][fromCol].value.color
    ensures var piece := b[fromRow][fromCol].value;
            var v := MoveVerdict(b, fromRow, fromCol, toRow, toCol);
            && (TypeOf(piece.kind).None? ==> v == Invalid(UnknownType))
            && (TypeOf(piece.kind).Some? ==> v == Rule(TypeOf(piece.kind).value, b, fromRow, fromCol, toRow, toCol, piece))
  {
  }

  /** An accepted move is on the board, really moves, starts from a piece of a known type and
      never lands on a piece of the mover's colour, whatever the type. */
  lemma NoSelfCapture(b: Grid, fromRow: int, fromCol: int, toRow: int, toCol: int)
    requires WellFormed(b) && MoveVerdict(b, fromRow, fromCol, toRow, toCol).Valid?
    ensures InBounds(fromRow, fromCol) && InBounds(toRow, toCol) && (fromRow, fromCol) != (toRow, toCol)
    ensures b[fromRow][fromCol].Some? && TypeOf(b[fromRow][fromCol].value.kind).Some?
    ensures b[toRow][toCol].None? || b[toRow][toCol].value.color != b[fromRow][fromCol].value.color
  {
  }

  /** Kings and advisors never leave their palace and a king moves one orthogonal step;
      elephants never cross the river and move exactly two squares diagonally. */
  lemma ConfinedPieces(b: Grid, fromRow: int, fromCol: int, toRow: int, toCol: int)
    requires WellFormed(b) && MoveVerdict(b, fromRow, fromCol, toRow, toCol).Valid?
    ensures var piece := b[fromRow][fromCol].value;
            && (TypeOf(piece.kind) in {Some(King), Some(Advisor)} ==> IsInPalace(toRow, toCol, piece.color))
            && (TypeOf(piece.kind) == Some(King) ==> Abs(toRow - fromRow) + Abs(toCol - fromCol) == 1)
            && (TypeOf(piece.kind) == Some(Elephant) ==>
                  Abs(toRow - fromRow) == 2 && Abs(toCol - fromCol) == 2 &&
                  (piece.color == Red ==> toRow >= 5) && (piece.color == Black ==> toRow <= 4))
  {
  }

  /** Every accepted king or advisor move ends inside the mover's 3x3 palace, on its own side
      of the river. */
  lemma PalacePiecesStayHome(b: Grid, fromRow: int, fromCol: int, toRow: int, toCol: int)
    requires WellFormed(b) && MoveVerdict(b, fromRow, fromCol, toRow, toCol).Valid?
    requires TypeOf(b[fromRow][fromCol].value.kind) in {Some(King), Some(Advisor)}
    ensures b[fromRow][fromCol].value.color == Red ==> 7 <= toRow <= 9 && 3 <= toCol <= 5
    ensures b[fromRow][fromCol].value.color == Black ==> 0 <= toRow <= 2 && 3 <= toCol <= 5
  {
    ConfinedPieces(b, fromRow, fromCol, toRow, toCol);
  }

  /** The two kings on file 4 (rows 8 and 0) with nothing between: the red king's step forward
      to (7, 4) would face the black king. */
  lemma FlyingGeneralRefused(b: Grid)
    requires b == Place(Place(EmptyGrid(), 8, 4, Piece('K', Red)), 0, 4, Piece('K', Black))
    ensures MoveVerdict(b, 8, 4, 7, 4) == Invalid(FlyingGeneral)
  {
    assert b[8][4] == Some(Piece('K', Red)) && b[7][4].None?;
    DispatchByType(b, 8, 4, 7, 4);
    assert TypeOf('K') == Some(King);
    KingRuleFlyingGeneral(b, 8, 4, 7, 4, Piece('K', Red), 0, 4);
    var vacated: Grid := Vacate(b, 8, 4);
    forall r | 1 <= r < 7
      ensures vacated[r][4].None?
    {
      assert b[r][4].None?;
    }
    assert ColumnClear(vacated, 4, 1, 7);
  }

  /** With any piece between the kings on that file the same step is accepted. */
  lemma FlyingGeneralScreened(b: Grid, row: int, p: Piece)
    requires 1 <= row <= 6 && p != Piece('K', Black)
    requires b == Place(Place(Place(EmptyGrid(), 8, 4, Piece('K', Red)), 0, 4, Piece('K', Black)), row, 4, p)
    ensures MoveVerdict(b, 8, 4, 7, 4) == Valid
  {
    assert b[8][4] == Some(Piece('K', Red)) && b[7][4].None?;
    DispatchByType(b, 8, 4, 7, 4);
    assert TypeOf('K') == Some(King);
    KingRuleFlyingGeneral(b, 8, 4, 7, 4, Piece('K', Red), 0, 4);
    ColumnCountZero(Vacate(b, 8, 4), 4, 1, 7);
    assert Vacate(b, 8, 4)[row][4].Some?;
  }

  /** A red pawn that has crossed (row 4) may step back to row 5; one that has not (row 6) may not. */
  lemma PawnRetreatAfterRiver(crossed: Grid, home: Grid)
    requires crossed == Place(EmptyGrid(), 4, 4, Piece('P', Red))
    requires home == Place(EmptyGrid(), 6, 4, Piece('P', Red))
    ensures MoveVerdict(crossed, 4, 4, 5, 4) == Valid
    ensures MoveVerdict(home, 6, 4, 7, 4) == Invalid(PawnBackwardBeforeRiver)
    ensures MoveVerdict(home, 6, 4, 6, 5) == Invalid(PawnSidewaysBeforeRiver)
  {
  }

  /** A cannon on (2, 1) takes the piece on (2, 7) over exactly one screen; without a screen,
      or over two, it may not. */
  lemma CannonNeedsOneScreen(one: Grid, none: Grid, two: Grid)
    requires none == Place(Place(EmptyGrid(), 2, 1, Piece('C', Red)), 2, 7, Piece('P', Black))
    requires one == Place(none, 2, 4, Piece('P', Black))
    requires two == Place(Place(none, 2, 3, Piece('P', Black)), 2, 5, Piece('P', Black))
    ensures MoveVerdict(one, 2, 1, 2, 7) == Valid
    ensures MoveVerdict(none, 2, 1, 2, 7) == Invalid(CannonNeedsScreen)
    ensures MoveVerdict(two, 2, 1, 2, 7) == Invalid(CannonTooManyScreens)
  {
    assert RowCount(one, 2, 2, 7) == 1;
    assert RowCount(none, 2, 2, 7) == 0;
    assert RowCount(two, 2, 2, 7) == 2;
  }
}
