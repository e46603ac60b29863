/** The legality rule table (dist/src/rules/piece-rules.js): one guard chain per piece type,
    over a board indexed [row][col] whose cells hold a type letter (R N B A K P C) and a colour.
    Every rule answers Valid or the first reason the move fails, in the source's order. */
module PieceRules {
  import opened Board

  /** Why a move is refused; one constructor per reason string of the rule table. */
  datatype Reason =
    | OutOfBounds | SameSquare | EmptyOrigin | FriendlyCapture | UnknownType
    | RookNotStraight | PathBlocked
    | HorseNotL | HorseLegBlocked
    | ElephantNotField | ElephantCrossesRiver | ElephantEyeBlocked
    | AdvisorLeavesPalace | AdvisorNotDiagonal
    | KingLeavesPalace | KingNotOneStep | FlyingGeneral
    | PawnNotOneStep | PawnBackwardBeforeRiver | PawnSidewaysBeforeRiver | PawnWrongDirection
    | PawnBlackBeforeRiver
    | CannonNotStraight | CannonNeedsScreen | CannonTooManyScreens

  /** { valid: true } or { valid: false, reason }. */
  datatype Verdict = Valid | Invalid(reason: Reason)

  /** The validator's type letters. */
  function TypeOf(t: char): (k: Option<Kind>)
    ensures k.Some? <==> t in {'R', 'N', 'B', 'A', 'K', 'P', 'C'}
  {
    match t
    case 'R' => Some(Rook)
    case 'N' => Some(Horse)
    case 'B' => Some(Elephant)
    case 'A' => Some(Advisor)
    case 'K' => Some(King)
    case 'P' => Some(Pawn)
    case 'C' => Some(Cannon)
    case _ => None
  }

  /** Rules.countPiecesBetween: a shared row is checked first, then a shared column; 0 otherwise. */
  method CountPiecesBetween(b: Grid, fromRow: int, fromCol: int, toRow: int, toCol: int) returns (count: nat)
    requires WellFormed(b) && InBounds(fromRow, fromCol) && InBounds(toRow, toCol)
    ensures count == PiecesBetween(b, fromRow, fromCol, toRow, toCol)
  {
    count := 0;
    if fromRow == toRow {
      var minCol := Min(fromCol, toCol);
      var maxCol := Max(fromCol, toCol);
      var col := minCol + 1;
      while col < maxCol
        invariant minCol + 1 <= col <= Max(maxCol, minCol + 1)
        invariant count == RowCount(b, fromRow, minCol + 1, col)
      {
        if b[fromRow][col].Some? { count := count + 1; }
        col := col + 1;
      }
    } else if fromCol == toCol {
      var minRow := Min(fromRow, toRow);
      var maxRow := Max(fromRow, toRow);
      var row := minRow + 1;
      while row < maxRow
        invariant minRow + 1 <= row <= Max(maxRow, minRow + 1)
        invariant count == ColumnCount(b, fromCol, minRow + 1, row)
      {
        if b[row][fromCol].Some? { count := count + 1; }
        row := row + 1;
      }
    }
  }

  /** Rules.isInPalace(row, col, color): columns 3..5, rows 7..9 for red and 0..2 for black. */
  predicate IsInPalace(row: int, col: int, color: Color)
    ensures IsInPalace(row, col, color) ==> InBounds(row, col) && (color == Red <==> row >= 5)
  {
    if col < 3 || col > 5 then false
    else if color == Red then 7 <= row <= 9
    else 0 <= row <= 2
  }

  /** Each palace is a 3x3 block of the board on its owner's side of the river. */
  lemma PalaceOnOwnSide(row: int, col: int, color: Color)
    requires IsInPalace(row, col, color)
    ensures InBounds(row, col)
    ensures color == Red ==> row >= 5
    ensures color == Black ==> row <= 4
    ensures !IsInPalace(row, col, Opponent(color))
  {
  }

  /** Rules.hasCrossedRiver with its default river rows (4 for red, 5 for black). */
  predicate HasCrossedRiver(row: int, color: Color) {
    if color == Red then row > 4 else row < 5
  }

  /** The crossing test PawnRules applies: red has crossed at rows below 5, black at rows 5 and up. */
  predicate PawnCrossed(row: int, color: Color) {
    if color == Red then row < 5 else row >= 5
  }

  /** Rules.hasCrossedRiver answers the opposite of the pawn rule's crossing test on every row:
      it holds exactly on the colour's own side of the river. The rule table never calls it. */
  lemma HasCrossedRiverInverted(row: int, color: Color)
    ensures HasCrossedRiver(row, color) <==> !PawnCrossed(row, color)
    ensures HasCrossedRiver(row, color) <==> (if color == Red then row >= 5 else row <= 4)
  {
  }

  /** RookRules.validate. */
  function RookValidate(b: Grid, fromRow: int, fromCol: int, toRow: int, toCol: int, piece: Piece): (v: Verdict)
    requires WellFormed(b) && InBounds(fromRow, fromCol) && InBounds(toRow, toCol)
    ensures v.Valid? <==> Aligned(fromRow, fromCol, toRow, toCol) && ClearBetween(b, fromRow, fromCol, toRow, toCol)
    ensures v == Invalid(RookNotStraight) <==> !Aligned(fromRow, fromCol, toRow, toCol)
  {
    PiecesBetweenZero(b, fromRow, fromCol, toRow, toCol);
    if fromRow != toRow && fromCol != toCol then Invalid(RookNotStraight)
    else if PiecesBetween(b, fromRow, fromCol, toRow, toCol) > 0 then Invalid(PathBlocked)
    else Valid
  }

  /** KnightRules.blockingOffsets: for each L-shaped (rowDiff, colDiff), the offset of the leg square. */
  function BlockingOffset(rowDiff: int, colDiff: int): Option<(int, int)> {
    match (rowDiff, colDiff)
    case (2, 1) => Some((1, 0))
    case (2, -1) => Some((1, 0))
    case (-2, 1) => Some((-1, 0))
    case (-2, -1) => Some((-1, 0))
    case (1, 2) => Some((0, 1))
    case (1, -2) => Some((0, -1))
    case (-1, 2) => Some((0, 1))
    case (-1, -2) => Some((0, -1))
    case _ => None
  }

  predicate IsKnightShape(rowDiff: int, colDiff: int) {
    (Abs(rowDiff) == 2 && Abs(colDiff) == 1) || (Abs(rowDiff) == 1 && Abs(colDiff) == 2)
  }

  /** The offset table has an entry for exactly the eight L-shaped steps, and each entry is one
      step from the origin along the long side of the L, that is, the midpoint of that side. */
  lemma BlockingOffsetIsLeg(rowDiff: int, colDiff: int)
    ensures BlockingOffset(rowDiff, colDiff).Some? <==> IsKnightShape(rowDiff, colDiff)
    ensures IsKnightShape(rowDiff, colDiff) ==>
              var o := BlockingOffset(rowDiff, colDiff).value;
              if Abs(rowDiff) == 2 then o == (rowDiff / 2, 0) else o == (0, colDiff / 2)
  {
  }

  /** KnightRules.validate. */
  function KnightValidate(b: Grid, fromRow: int, fromCol: int, toRow: int, toCol: int, piece: Piece): (v: Verdict)
    requires WellFormed(b) && InBounds(fromRow, fromCol) && InBounds(toRow, toCol)
    ensures v.Valid? <==>
              IsKnightShape(toRow - fromRow, toCol - fromCol) &&
              (if Abs(toRow - fromRow) == 2 then b[(fromRow + toRow) / 2][fromCol].None?
               else b[fromRow][(fromCol + toCol) / 2].None?)
    ensures v == Invalid(HorseNotL) <==> !IsKnightShape(toRow - fromRow, toCol - fromCol)
  {
    var rowDiff := toRow - fromRow;
    var colDiff := toCol - fromCol;
    BlockingOffsetIsLeg(rowDiff, colDiff);
    if !IsKnightShape(rowDiff, colDiff) then Invalid(HorseNotL)
    else
      match BlockingOffset(rowDiff, colDiff)
      case Some(offset) =>
        if b[fromRow + offset.0][fromCol + offset.1].Some? then Invalid(HorseLegBlocked) else Valid
      case None => Valid
  }

  /** ElephantRules.validate. */
  function ElephantValidate(b: Grid, fromRow: int, fromCol: int, toRow: int, toCol: int, piece: Piece): (v: Verdict)
    requires WellFormed(b) && InBounds(fromRow, fromCol) && InBounds(toRow, toCol)
    ensures v.Valid? <==>
              Abs(toRow - fromRow) == 2 && Abs(toCol - fromCol) == 2 &&
              (piece.color == Red ==> toRow >= 5) && (piece.color == Black ==> toRow <= 4) &&
              b[(fromRow + toRow) / 2][(fromCol + toCol) / 2].None?
    ensures v == Invalid(ElephantNotField) <==> !(Abs(toRow - fromRow) == 2 && Abs(toCol - fromCol) == 2)
  {
    if Abs(toRow - fromRow) != 2 || Abs(toCol - fromCol) != 2 then Invalid(ElephantNotField)
    else if piece.color == Red && toRow < 5 then Invalid(ElephantCrossesRiver)
    else if piece.color == Black && toRow >= 5 then Invalid(ElephantCrossesRiver)
    else
      var eyeRow := fromRow + (if toRow > fromRow then 1 else -1);
      var eyeCol := fromCol + (if toCol > fromCol then 1 else -1);
      assert (fromRow + toRow) / 2 == eyeRow by { assert fromRow + toRow == 2 * eyeRow; }
      assert (fromCol + toCol) / 2 == eyeCol by { assert fromCol + toCol == 2 * eyeCol; }
      if b[eyeRow][eyeCol].Some? then Invalid(ElephantEyeBlocked) else Valid
  }

  /** AdvisorRules.validate: the palace is checked before the shape. */
  function AdvisorValidate(b: Grid, fromRow: int, fromCol: int, toRow: int, toCol: int, piece: Piece): (v: Verdict)
    requires WellFormed(b) && InBounds(fromRow, fromCol) && InBounds(toRow, toCol)
    ensures v.Valid? <==> IsInPalace(toRow, toCol, piece.color) && Abs(toRow - fromRow) == 1 && Abs(toCol - fromCol) == 1
    ensures v == Invalid(AdvisorLeavesPalace) <==> !IsInPalace(toRow, toCol, piece.color)
  {
    if !IsInPalace(toRow, toCol, piece.color) then Invalid(AdvisorLeavesPalace)
    else if Abs(toRow - fromRow) != 1 || Abs(toCol - fromCol) != 1 then Invalid(AdvisorNotDiagonal)
    else Valid
  }

  /** The first square in scan order (row by row, each left to right) from square index k on
      that holds the king of `color`. */
  function FirstKingFrom(b: Grid, color: Color, k: int): (pos: Option<(int, int)>)
    requires WellFormed(b) && 0 <= k <= Rows * Cols
    ensures pos.Some? ==> InBounds(pos.value.0, pos.value.1)
    decreases Rows * Cols - k
  {
    if k == Rows * Cols then None
    else if b[k / Cols][k % Cols] == Some(Piece('K', color)) then Some((k / Cols, k % Cols))
    else FirstKingFrom(b, color, k + 1)
  }

  function FirstKing(b: Grid, color: Color): Option<(int, int)>
    requires WellFormed(b)
  {
    FirstKingFrom(b, color, 0)
  }

  /** The scan finds a king of the colour exactly when one stands at or after square k, and
      what it finds is the first one. */
  lemma {:induction false} FirstKingFromFinds(b: Grid, color: Color, k: int)
    requires WellFormed(b) && 0 <= k <= Rows * Cols
    ensures var pos := FirstKingFrom(b, color, k);
            && (pos.Some? ==> b[pos.value.0][pos.value.1] == Some(Piece('K', color)) &&
                              k <= pos.value.0 * Cols + pos.value.1 &&
                              forall r, c :: InBounds(r, c) && k <= r * Cols + c < pos.value.0 * Cols + pos.value.1 ==>
                                             b[r][c] != Some(Piece('K', color)))
            && (pos.None? ==> forall r, c :: InBounds(r, c) && k <= r * Cols + c ==> b[r][c] != Some(Piece('K', color)))
    decreases Rows * Cols - k
  {
    if k < Rows * Cols {
      FirstKingFromFinds(b, color, k + 1);
      forall r, c | InBounds(r, c) && r * Cols + c == k
        ensures r == k / Cols && c == k % Cols
      {
      }
    }
  }

  /** The king's rule: the palace first, then a single orthogonal step, then the flying-general
      test, which looks for the enemy king on the destination column and counts the pieces
      between the two kings once the mover has left its square. */
  function KingRule(b: Grid, fromRow: int, fromCol: int, toRow: int, toCol: int, piece: Piece): (v: Verdict)
    requires WellFormed(b) && InBounds(fromRow, fromCol) && InBounds(toRow, toCol)
    ensures v.Valid? ==> IsInPalace(toRow, toCol, piece.color) && Abs(toRow - fromRow) + Abs(toCol - fromCol) == 1
    ensures v.Invalid? ==> v.reason in {KingLeavesPalace, KingNotOneStep, FlyingGeneral}
  {
    if !IsInPalace(toRow, toCol, piece.color) then Invalid(KingLeavesPalace)
    else if Abs(toRow - fromRow) + Abs(toCol - fromCol) != 1 then Invalid(KingNotOneStep)
    else
      match FirstKing(b, Opponent(piece.color))
      case Some(pos) =>
        if pos.1 == toCol &&
           ColumnCount(Vacate(b, fromRow, fromCol), toCol, Min(toRow, pos.0) + 1, Max(toRow, pos.0)) == 0
        then Invalid(FlyingGeneral)
        else Valid
      case None => Valid
  }

  /** The king's first two checks: it is refused for leaving its palace exactly when the
      destination is outside it, and for its step exactly when the destination is inside but not
      one orthogonal step away; so an accepted king move is a single orthogonal step that ends in
      the palace. */
  lemma KingRuleSteps(b: Grid, fromRow: int, fromCol: int, toRow: int, toCol: int, piece: Piece)
    requires WellFormed(b) && InBounds(fromRow, fromCol) && InBounds(toRow, toCol)
    ensures var v := KingRule(b, fromRow, fromCol, toRow, toCol, piece);
            && (v == Invalid(KingLeavesPalace) <==> !IsInPalace(toRow, toCol, piece.color))
            && (v == Invalid(KingNotOneStep) <==>
                  IsInPalace(toRow, toCol, piece.color) && Abs(toRow - fromRow) + Abs(toCol - fromCol) != 1)
            && (v.Valid? ==> IsInPalace(toRow, toCol, piece.color) && Abs(toRow - fromRow) + Abs(toCol - fromCol) == 1)
  {
  }

  /** On a board with a single enemy king, the king's move passes the first two checks and is
      then refused exactly when it would stand on the enemy king's column with no piece between
      the two once it has left its square. */
  lemma KingRuleFlyingGeneral(b: Grid, fromRow: int, fromCol: int, toRow: int, toCol: int, piece: Piece,
                              enemyRow: int, enemyCol: int)
    requires WellFormed(b) && InBounds(fromRow, fromCol) && InBounds(toRow, toCol) && InBounds(enemyRow, enemyCol)
    requires IsInPalace(toRow, toCol, piece.color) && Abs(toRow - fromRow) + Abs(toCol - fromCol) == 1
    requires b[enemyRow][enemyCol] == Some(Piece('K', Opponent(piece.color)))
    requires forall r, c :: InBounds(r, c) && b[r][c] == Some(Piece('K', Opponent(piece.color))) ==>
                              r == enemyRow && c == enemyCol
    ensures var v := KingRule(b, fromRow, fromCol, toRow, toCol, piece);
            && (v == Invalid(FlyingGeneral) <==>
                  enemyCol == toCol &&
                  ColumnClear(Vacate(b, fromRow, fromCol), toCol, Min(toRow, enemyRow) + 1, Max(toRow, enemyRow)))
            && (v.Valid? <==> v != Invalid(FlyingGeneral))
  {
    var enemy := Opponent(piece.color);
    FirstKingFromFinds(b, enemy, 0);
    var pos := FirstKing(b, enemy);
    assert pos == Some((enemyRow, enemyCol));
    ColumnCountZero(Vacate(b, fromRow, fromCol), toCol, Min(toRow, enemyRow) + 1, Max(toRow, enemyRow));
  }

  /** The search loop of KingRules.validate: rows top to bottom, each left to right, stopping
      at the first king of `color`. */
  method FindKing(b: Grid, color: Color) returns (enemyKingPos: Option<(int, int)>)
    requires WellFormed(b)
    ensures enemyKingPos == FirstKing(b, color)
  {
    enemyKingPos := None;
    var r := 0;
    while r < 10
      invariant 0 <= r <= Rows
      invariant enemyKingPos.None? && FirstKing(b, color) == FirstKingFrom(b, color, r * Cols)
    {
      var c := 0;
      while c < 9
        invariant 0 <= c <= Cols
        invariant enemyKingPos.None? && FirstKing(b, color) == FirstKingFrom(b, color, r * Cols + c)
      {
        assert (r * Cols + c) / Cols == r && (r * Cols + c) % Cols == c;
        var p := b[r][c];
        if p.Some? && p.value.kind == 'K' && p.value.color == color {
          enemyKingPos := Some((r, c));
          break;
        }
        c := c + 1;
      }
      if enemyKingPos.Some? {
        break;
      }
      r := r + 1;
    }
  }

  /** The counting loop of KingRules.validate: the pieces strictly between the destination and
      the enemy king on the destination column, skipping the square the king leaves. */
  method CountBetweenKings(b: Grid, fromRow: int, fromCol: int, toRow: int, toCol: int, enemyRow: int)
    returns (piecesBetween: nat)
    requires WellFormed(b) && InBounds(fromRow, fromCol) && InBounds(toRow, toCol) && 0 <= enemyRow < Rows
    ensures piecesBetween == ColumnCount(Vacate(b, fromRow, fromCol), toCol, Min(toRow, enemyRow) + 1, Max(toRow, enemyRow))
  {
    var minRow := Min(toRow, enemyRow);
    var maxRow := Max(toRow, enemyRow);
    piecesBetween := 0;
    var row := minRow + 1;
    while row < maxRow
      invariant minRow + 1 <= row <= Max(maxRow, minRow + 1)
      invariant piecesBetween == ColumnCount(Vacate(b, fromRow, fromCol), toCol, minRow + 1, row)
    {
      if row == fromRow && toCol == fromCol {
        row := row + 1;
        continue;
      }
      if b[row][toCol].Some? {
        piecesBetween := piecesBetween + 1;
      }
      row := row + 1;
    }
  }

  /** KingRules.validate: the enemy king is found by a nested search that stops at the first
      match, and the pieces between are counted skipping the square the king leaves. */
  method KingValidate(b: Grid, fromRow: int, fromCol: int, toRow: int, toCol: int, piece: Piece) returns (v: Verdict)
    requires WellFormed(b) && InBounds(fromRow, fromCol) && InBounds(toRow, toCol)
    ensures v == KingRule(b, fromRow, fromCol, toRow, toCol, piece)
  {
    if !IsInPalace(toRow, toCol, piece.color) {
      return Invalid(KingLeavesPalace);
    }
    var rowDiff := Abs(toRow - fromRow);
    var colDiff := Abs(toCol - fromCol);
    if rowDiff + colDiff != 1 {
      return Invalid(KingNotOneStep);
    }

    var enemyColor := if piece.color == Red then Black else Red;
    var enemyKingPos := FindKing(b, enemyColor);

    if enemyKingPos.Some? && enemyKingPos.value.1 == toCol {
      var enemyRow := enemyKingPos.value.0;
      var piecesBetween := CountBetweenKings(b, fromRow, fromCol, toRow, toCol, enemyRow);
      if piecesBetween == 0 {
        return Invalid(FlyingGeneral);
      }
    }
    return Valid;
  }

  /** PawnRules.validate. Before the river a red pawn's failure is reported as a backward step,
      else a sideways one, else a wrong direction; a black pawn's under one reason. */
  function PawnValidate(b: Grid, fromRow: int, fromCol: int, toRow: int, toCol: int, piece: Piece): (v: Verdict)
    requires WellFormed(b) && InBounds(fromRow, fromCol) && InBounds(toRow, toCol)
    ensures v.Valid? <==>
              Abs(toRow - fromRow) + Abs(toCol - fromCol) == 1 &&
              (PawnCrossed(fromRow, piece.color) || toRow - fromRow == (if piece.color == Red then -1 else 1))
    ensures v != Invalid(PawnWrongDirection)
  {
    var rowDiff := toRow - fromRow;
    var colDiff := Abs(toCol - fromCol);
    if Abs(rowDiff) + colDiff != 1 then Invalid(PawnNotOneStep)
    else if piece.color == Red then
      var hasCrossedRiver := fromRow < 5;
      if !hasCrossedRiver && rowDiff != -1 then
        if rowDiff == 1 then Invalid(PawnBackwardBeforeRiver)
        else if colDiff == 1 then Invalid(PawnSidewaysBeforeRiver)
        else Invalid(PawnWrongDirection)
      else Valid
    else
      var hasCrossedRiver := fromRow >= 5;
      if !hasCrossedRiver && rowDiff != 1 then Invalid(PawnBlackBeforeRiver)
      else Valid
  }

  /** Once across the river a pawn may take any single orthogonal step, backward included. */
  lemma CrossedPawnMovesFreely(b: Grid, fromRow: int, fromCol: int, toRow: int, toCol: int, piece: Piece)
    requires WellFormed(b) && InBounds(fromRow, fromCol) && InBounds(toRow, toCol)
    requires PawnCrossed(fromRow, piece.color) && Abs(toRow - fromRow) + Abs(toCol - fromCol) == 1
    ensures PawnValidate(b, fromRow, fromCol, toRow, toCol, piece) == Valid
  {
  }

  /** CannonRules.validate. */
  function CannonValidate(b: Grid, fromRow: int, fromCol: int, toRow: int, toCol: int, piece: Piece): (v: Verdict)
    requires WellFormed(b) && InBounds(fromRow, fromCol) && InBounds(toRow, toCol)
    ensures v.Valid? <==>
              Aligned(fromRow, fromCol, toRow, toCol) &&
              (if b[toRow][toCol].Some? then PiecesBetween(b, fromRow, fromCol, toRow, toCol) == 1
               else ClearBetween(b, fromRow, fromCol, toRow, toCol))
    ensures v == Invalid(CannonNeedsScreen) <==>
              Aligned(fromRow, fromCol, toRow, toCol) && b[toRow][toCol].Some? &&
              ClearBetween(b, fromRow, fromCol, toRow, toCol)
  {
    PiecesBetweenZero(b, fromRow, fromCol, toRow, toCol);
    if fromRow != toRow && fromCol != toCol then Invalid(CannonNotStraight)
    else
      var targetPiece := b[toRow][toCol];
      var piecesBetween := PiecesBetween(b, fromRow, fromCol, toRow, toCol);
      if targetPiece.Some? then
        if piecesBetween != 1 then
          if piecesBetween == 0 then Invalid(CannonNeedsScreen) else Invalid(CannonTooManyScreens)
        else Valid
      else if piecesBetween > 0 then Invalid(PathBlocked)
      else Valid
  }
}
