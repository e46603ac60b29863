/** Resolving a parsed move against a board (findCoordinates in src/move-parser.js): collect the
    pieces the notation can mean, narrow them with 前/后, work out each one's destination from the
    action and target, and keep the first whose destination passes the resolver's own target check. */
module Resolver {
  import opened Board
  import opened Notation

  function ColorOf(isRed: bool): (c: Color)
    ensures (c == Red) == isRed
  {
    if isRed then Red else Black
  }

  /** getUnifiedPieceType: traditional glyphs only; the simplified 将, 帅, 车 and 马 have no entry. */
  function UnifiedType(g: char): Option<Kind> {
    match g
    case '將' => Some(King) case '帥' => Some(King)
    case '士' => Some(Advisor) case '仕' => Some(Advisor)
    case '象' => Some(Elephant) case '相' => Some(Elephant)
    case '車' => Some(Rook) case '俥' => Some(Rook)
    case '馬' => Some(Horse) case '傌' => Some(Horse)
    case '砲' => Some(Cannon) case '炮' => Some(Cannon)
    case '卒' => Some(Pawn) case '兵' => Some(Pawn)
    case _ => None
  }

  /** Where getUnifiedPieceType knows a glyph it agrees with pieceMap; the glyphs pieceMap knows
      and it does not are exactly the simplified 将, 帅, 车 and 马. */
  lemma UnifiedTypeAgreesWithPieceMap(g: char)
    ensures UnifiedType(g).Some? ==> UnifiedType(g) == PieceOf(g)
    ensures (PieceOf(g).Some? && UnifiedType(g).None?) <==> g in {'将', '帅', '车', '马'}
  {
  }

  /** isInPalace(x, y, color): files 3..5, ranks 7..9 for red and 0..2 for black. */
  predicate IsInPalace(x: int, y: int, color: Color)
    ensures IsInPalace(x, y, color) ==> InBounds(y, x) && (color == Red <==> y >= 5)
  {
    if x < 3 || x > 5 then false
    else if color == Red then 7 <= y <= 9
    else 0 <= y <= 2
  }

  /** The two palaces are mirror images across the river. */
  lemma PalacesMirror(x: int, y: int)
    ensures IsInPalace(x, y, Red) <==> IsInPalace(x, 9 - y, Black)
  {
  }

  /** dx > 0 ? 1 : -1 */
  function Sign(d: int): int {
    if d > 0 then 1 else -1
  }

  predicate Friendly(board: Grid, y: int, x: int, color: Color)
    requires WellFormed(board) && InBounds(y, x)
  {
    board[y][x].Some? && board[y][x].value.color == color
  }

  /** isValidTarget: the resolver's own plausibility check of a destination. It has no
      flying-general check, forbids a crossed pawn's backward step, and accepts any
      destination for a glyph getUnifiedPieceType does not know. */
  function IsValidTarget(board: Grid, fromX: int, fromY: int, toX: int, toY: int, color: Color): (ok: bool)
    requires WellFormed(board) && InBounds(fromY, fromX)
    ensures ok ==> InBounds(toY, toX) && board[fromY][fromX].Some? && !Friendly(board, toY, toX, color)
  {
    if !InBounds(toY, toX) then false
    else if Friendly(board, toY, toX, color) then false
    else if board[fromY][fromX].None? then false
    else
      var dx := toX - fromX;
      var dy := toY - fromY;
      match UnifiedType(board[fromY][fromX].value.kind)
      case Some(Rook) =>
        if fromX != toX && fromY != toY then false
        else PiecesBetween(board, fromY, fromX, toY, toX) == 0
      case Some(Horse) =>
        if !((Abs(dx) == 2 && Abs(dy) == 1) || (Abs(dx) == 1 && Abs(dy) == 2)) then false
        else if Abs(dx) == 2 then board[fromY][fromX + Sign(dx)].None?
        else board[fromY + Sign(dy)][fromX].None?
      case Some(Cannon) =>
        if fromX != toX && fromY != toY then false
        else if board[toY][toX].Some? then PiecesBetween(board, fromY, fromX, toY, toX) == 1
        else PiecesBetween(board, fromY, fromX, toY, toX) == 0
      case Some(King) =>
        if Abs(dx) + Abs(dy) != 1 then false
        else IsInPalace(toX, toY, color)
      case Some(Advisor) =>
        if Abs(dx) != 1 || Abs(dy) != 1 then false
        else IsInPalace(toX, toY, color)
      case Some(Elephant) =>
        if Abs(dx) != 2 || Abs(dy) != 2 then false
        else if color == Red && toY < 5 then false
        else if color == Black && toY >= 5 then false
        else board[(fromY + toY) / 2][(fromX + toX) / 2].None?
      case Some(Pawn) =>
        if Abs(dx) + Abs(dy) != 1 then false
        else
          var crossed := if color == Red then fromY < 5 else fromY >= 5;
          var forward := if color == Red then -1 else 1;
          if !crossed then dy == forward && dx == 0
          else dy != -forward
      case None => true
  }

  /** A rook's target is plausible exactly when it is on the board, not friendly, on the rook's
      row or file, and every square between is empty. */
  lemma RookTarget(board: Grid, fromX: int, fromY: int, toX: int, toY: int, color: Color)
    requires WellFormed(board) && InBounds(fromY, fromX) && board[fromY][fromX].Some?
    requires UnifiedType(board[fromY][fromX].value.kind) == Some(Rook)
    ensures IsValidTarget(board, fromX, fromY, toX, toY, color) <==>
              InBounds(toY, toX) && !Friendly(board, toY, toX, color) &&
              Aligned(fromY, fromX, toY, toX) && ClearBetween(board, fromY, fromX, toY, toX)
  {
    if InBounds(toY, toX) {
      PiecesBetweenZero(board, fromY, fromX, toY, toX);
    }
  }

  /** A cannon's target is plausible exactly when it is on the board, not friendly, on the
      cannon's row or file, and the squares between hold exactly one piece when the target is
      occupied and none when it is empty. */
  lemma CannonTarget(board: Grid, fromX: int, fromY: int, toX: int, toY: int, color: Color)
    requires WellFormed(board) && InBounds(fromY, fromX) && board[fromY][fromX].Some?
    requires UnifiedType(board[fromY][fromX].value.kind) == Some(Cannon)
    ensures IsValidTarget(board, fromX, fromY, toX, toY, color) <==>
              InBounds(toY, toX) && !Friendly(board, toY, toX, color) && Aligned(fromY, fromX, toY, toX) &&
              (board[toY][toX].Some? ==> PiecesBetween(board, fromY, fromX, toY, toX) == 1) &&
              (board[toY][toX].None? ==> ClearBetween(board, fromY, fromX, toY, toX))
  {
    if InBounds(toY, toX) {
      PiecesBetweenZero(board, fromY, fromX, toY, toX);
    }
  }

  /** A king's target is plausible exactly when it is one orthogonal step away, not friendly,
      and inside the mover's palace. */
  lemma KingTarget(board: Grid, fromX: int, fromY: int, toX: int, toY: int, color: Color)
    requires WellFormed(board) && InBounds(fromY, fromX) && board[fromY][fromX].Some?
    requires UnifiedType(board[fromY][fromX].value.kind) == Some(King)
    ensures IsValidTarget(board, fromX, fromY, toX, toY, color) <==>
              InBounds(toY, toX) && !Friendly(board, toY, toX, color) &&
              Abs(toX - fromX) + Abs(toY - fromY) == 1 && IsInPalace(toX, toY, color)
  {
  }

  /** An advisor's target is plausible exactly when it is one diagonal step away, not friendly,
      and inside the mover's palace. */
  lemma AdvisorTarget(board: Grid, fromX: int, fromY: int, toX: int, toY: int, color: Color)
    requires WellFormed(board) && InBounds(fromY, fromX) && board[fromY][fromX].Some?
    requires UnifiedType(board[fromY][fromX].value.kind) == Some(Advisor)
    ensures IsValidTarget(board, fromX, fromY, toX, toY, color) <==>
              InBounds(toY, toX) && !Friendly(board, toY, toX, color) &&
              Abs(toX - fromX) == 1 && Abs(toY - fromY) == 1 && IsInPalace(toX, toY, color)
  {
  }

  /** An elephant's target is plausible exactly when it is two diagonal steps away, not friendly,
      on the mover's side of the river (ranks 5..9 for red, 0..4 for black), and the eye square
      halfway between is empty. */
  lemma ElephantTarget(board: Grid, fromX: int, fromY: int, toX: int, toY: int, color: Color)
    requires WellFormed(board) && InBounds(fromY, fromX) && board[fromY][fromX].Some?
    requires UnifiedType(board[fromY][fromX].value.kind) == Some(Elephant)
    ensures IsValidTarget(board, fromX, fromY, toX, toY, color) <==>
              InBounds(toY, toX) && !Friendly(board, toY, toX, color) &&
              Abs(toX - fromX) == 2 && Abs(toY - fromY) == 2 &&
              (if color == Red then 5 <= toY else toY <= 4) &&
              board[fromY + (toY - fromY) / 2][fromX + (toX - fromX) / 2].None?
  {
    if InBounds(toY, toX) && Abs(toX - fromX) == 2 && Abs(toY - fromY) == 2 {
      assert (fromY + toY) / 2 == fromY + (toY - fromY) / 2;
      assert (fromX + toX) / 2 == fromX + (toX - fromX) / 2;
    }
  }

  /** A horse's target is plausible exactly when it is on the board, not friendly, an L-shaped
      step away, and the leg square, one step from the origin along the long side, is empty. */
  lemma HorseTarget(board: Grid, fromX: int, fromY: int, toX: int, toY: int, color: Color)
    requires WellFormed(board) && InBounds(fromY, fromX) && board[fromY][fromX].Some?
    requires UnifiedType(board[fromY][fromX].value.kind) == Some(Horse)
    ensures IsValidTarget(board, fromX, fromY, toX, toY, color) <==>
              InBounds(toY, toX) && !Friendly(board, toY, toX, color) &&
              ((Abs(toX - fromX) == 2 && Abs(toY - fromY) == 1) || (Abs(toX - fromX) == 1 && Abs(toY - fromY) == 2)) &&
              (Abs(toX - fromX) == 2 ==> board[fromY][(fromX + toX) / 2].None?) &&
              (Abs(toY - fromY) == 2 ==> board[(fromY + toY) / 2][fromX].None?)
  {
    if Abs(toX - fromX) == 2 {
      assert fromX + Sign(toX - fromX) == (fromX + toX) / 2;
    }
    if Abs(toY - fromY) == 2 {
      assert fromY + Sign(toY - fromY) == (fromY + toY) / 2;
    }
  }

  /** A pawn's target is plausible exactly when it is on the board, not friendly, one orthogonal
      step away, and then: before the river (red on ranks 5..9, black on 0..4) only the step
      forward on its file; after crossing, any step but the one back. Unlike the validator, the
      resolver therefore never lets a pawn step back toward its own side. */
  lemma PawnTarget(board: Grid, fromX: int, fromY: int, toX: int, toY: int, color: Color)
    requires WellFormed(board) && InBounds(fromY, fromX) && board[fromY][fromX].Some?
    requires UnifiedType(board[fromY][fromX].value.kind) == Some(Pawn)
    ensures IsValidTarget(board, fromX, fromY, toX, toY, color) <==>
              InBounds(toY, toX) && !Friendly(board, toY, toX, color) &&
              Abs(toX - fromX) + Abs(toY - fromY) == 1 &&
              (if (if color == Red then fromY < 5 else fromY >= 5)
               then toY - fromY != (if color == Red then 1 else -1)
               else toX == fromX && toY - fromY == (if color == Red then -1 else 1))
    ensures IsValidTarget(board, fromX, fromY, toX, toY, color) ==>
              if color == Red then toY <= fromY else toY >= fromY
  {
  }

  /** A simplified glyph (车 here) gets no shape check at all: any on-board, non-friendly
      destination passes. */
  lemma SimplifiedGlyphUnchecked(board: Grid, fromX: int, fromY: int, toX: int, toY: int, color: Color)
    requires WellFormed(board) && InBounds(fromY, fromX)
    requires board[fromY][fromX] == Some(Piece('车', color))
    ensures IsValidTarget(board, fromX, fromY, toX, toY, color) <==> InBounds(toY, toX) && !Friendly(board, toY, toX, color)
  {
  }

  /** countPiecesBetween(board, fromX, fromY, toX, toY): a file is checked before a rank. */
  method CountPiecesBetween(board: Grid, fromX: int, fromY: int, toX: int, toY: int) returns (count: nat)
    requires WellFormed(board) && InBounds(fromY, fromX) && InBounds(toY, toX)
    ensures count == PiecesBetween(board, fromY, fromX, toY, toX)
  {
    count := 0;
    if fromX == toX {
      var minY := Min(fromY, toY);
      var maxY := Max(fromY, toY);
      var y := minY + 1;
      while y < maxY
        invariant minY + 1 <= y <= Max(maxY, minY + 1)
        invariant count == ColumnCount(board, fromX, minY + 1, y)
      {
        if board[y][fromX].Some? { count := count + 1; }
        y := y + 1;
      }
      if fromY == toY {
        assert count == 0 == RowCount(board, fromY, Min(fromX, toX) + 1, Max(fromX, toX));
      }
    } else if fromY == toY {
      var minX := Min(fromX, toX);
      var maxX := Max(fromX, toX);
      var x := minX + 1;
      while x < maxX
        invariant minX + 1 <= x <= Max(maxX, minX + 1)
        invariant count == RowCount(board, fromY, minX + 1, x)
      {
        if board[fromY][x].Some? { count := count + 1; }
        x := x + 1;
      }
    }
  }

  /** One piece findCoordinates may mean: its square and the piece on it. */
  datatype Candidate = Candidate(x: int, y: int, piece: Piece)

  predicate Matches(board: Grid, kind: Kind, color: Color, fromCol: Option<int>, y: int, x: int)
    requires WellFormed(board) && InBounds(y, x)
  {
    board[y][x].Some? && PieceOf(board[y][x].value.kind) == Some(kind) && board[y][x].value.color == color &&
    (fromCol.None? || x == fromCol.value)
  }

  /** The square scanned k-th: ranks top to bottom, each left to right. */
  function SquareRank(k: int): int { k / Cols }
  function SquareFile(k: int): int { k % Cols }

  lemma SquareOf(y: int, x: int)
    requires InBounds(y, x)
    ensures SquareRank(y * Cols + x) == y && SquareFile(y * Cols + x) == x
  {
  }

  /** The matching squares among the first k scanned, in scan order. */
  function CandidatesBefore(board: Grid, kind: Kind, color: Color, fromCol: Option<int>, k: int): seq<Candidate>
    requires WellFormed(board) && 0 <= k <= Rows * Cols
    decreases k
  {
    if k == 0 then []
    else
      var y, x := SquareRank(k - 1), SquareFile(k - 1);
      CandidatesBefore(board, kind, color, fromCol, k - 1) +
      (if Matches(board, kind, color, fromCol, y, x) then [Candidate(x, y, board[y][x].value)] else [])
  }

  /** The pieces the notation may mean: every square holding a piece of the archetype and the
      colour (on the explicit file when there is one), in scan order. */
  function Candidates(board: Grid, kind: Kind, color: Color, fromCol: Option<int>): seq<Candidate>
    requires WellFormed(board)
  {
    CandidatesBefore(board, kind, color, fromCol, Rows * Cols)
  }

  ghost predicate AllMatch(board: Grid, kind: Kind, color: Color, fromCol: Option<int>, cs: seq<Candidate>)
    requires WellFormed(board)
  {
    forall i :: 0 <= i < |cs| ==>
      InBounds(cs[i].y, cs[i].x) && Matches(board, kind, color, fromCol, cs[i].y, cs[i].x) &&
      board[cs[i].y][cs[i].x] == Some(cs[i].piece)
  }

  /** Strictly increasing in scan order, so in particular sorted by rank. */
  ghost predicate InScanOrder(cs: seq<Candidate>) {
    forall i, j :: 0 <= i < j < |cs| ==> cs[i].y < cs[j].y || (cs[i].y == cs[j].y && cs[i].x < cs[j].x)
  }

  /** Every candidate holds a piece of the archetype and colour, on the explicit file when
      there is one. */
  lemma {:induction false} CandidatesBeforeMatch(board: Grid, kind: Kind, color: Color, fromCol: Option<int>, k: int)
    requires WellFormed(board) && 0 <= k <= Rows * Cols
    ensures AllMatch(board, kind, color, fromCol, CandidatesBefore(board, kind, color, fromCol, k))
    decreases k
  {
    if k > 0 { CandidatesBeforeMatch(board, kind, color, fromCol, k - 1); }
  }

  /** The candidates come in scan order (hence sorted by rank), all among the first k squares. */
  lemma {:induction false} CandidatesBeforeOrdered(board: Grid, kind: Kind, color: Color, fromCol: Option<int>, k: int)
    requires WellFormed(board) && 0 <= k <= Rows * Cols
    ensures var cs := CandidatesBefore(board, kind, color, fromCol, k);
            InScanOrder(cs) && forall i :: 0 <= i < |cs| ==> 0 <= cs[i].x < Cols && cs[i].y * Cols + cs[i].x < k
    decreases k
  {
    if k > 0 { CandidatesBeforeOrdered(board, kind, color, fromCol, k - 1); }
  }

  /** No square holding a piece of the archetype and colour is missed. */
  lemma {:induction false} CandidatesBeforeComplete(board: Grid, kind: Kind, color: Color, fromCol: Option<int>, k: int)
    requires WellFormed(board) && 0 <= k <= Rows * Cols
    ensures forall r, c :: InBounds(r, c) && r * Cols + c < k && Matches(board, kind, color, fromCol, r, c) ==>
              Candidate(c, r, board[r][c].value) in CandidatesBefore(board, kind, color, fromCol, k)
    decreases k
  {
    if k > 0 {
      CandidatesBeforeComplete(board, kind, color, fromCol, k - 1);
      forall r, c | InBounds(r, c) && r * Cols + c == k - 1 && Matches(board, kind, color, fromCol, r, c)
        ensures Candidate(c, r, board[r][c].value) in CandidatesBefore(board, kind, color, fromCol, k)
      {
        SquareOf(r, c);
      }
    }
  }

  /** The 前/后 choice among candidates sorted by rank: red's front piece is the one with the
      smallest y, black's the one with the largest; the back piece is the other end. */
  function Select(cs: seq<Candidate>, prefix: Option<Prefix>, isRed: bool): (sel: seq<Candidate>)
    requires |cs| >= 1
    ensures 1 <= |sel| && forall i :: 0 <= i < |sel| ==> sel[i] in cs
    ensures prefix.Some? ==> |sel| == 1
  {
    match prefix
    case None => cs
    case Some(Front) => if isRed then [cs[0]] else [cs[|cs| - 1]]
    case Some(Back) => if isRed then [cs[|cs| - 1]] else [cs[0]]
  }

  /** The pieces findCoordinates tries, in order. */
  function Selected(board: Grid, pm: Parsed): (sel: seq<Candidate>)
    requires WellFormed(board) && pm.Move?
    ensures forall i :: 0 <= i < |sel| ==> sel[i] in Candidates(board, pm.piece, ColorOf(pm.isRed), pm.fromCol)
    ensures AllMatch(board, pm.piece, ColorOf(pm.isRed), pm.fromCol, sel)
  {
    var cs := Candidates(board, pm.piece, ColorOf(pm.isRed), pm.fromCol);
    CandidatesBeforeMatch(board, pm.piece, ColorOf(pm.isRed), pm.fromCol, Rows * Cols);
    if cs == [] then [] else Select(cs, pm.prefix, pm.isRed)
  }

  /** With 前/后 exactly one piece survives, the extreme one in rank toward or away from the opponent. */
  lemma PrefixPicksExtreme(board: Grid, pm: Parsed)
    requires WellFormed(board) && pm.Move? && pm.prefix.Some?
    requires Candidates(board, pm.piece, ColorOf(pm.isRed), pm.fromCol) != []
    ensures var cs := Candidates(board, pm.piece, ColorOf(pm.isRed), pm.fromCol);
            var sel := Selected(board, pm);
            && |sel| == 1 && sel[0] in cs
            && ((pm.prefix == Some(Front)) == pm.isRed ==> forall c :: c in cs ==> sel[0].y <= c.y)
            && ((pm.prefix == Some(Front)) != pm.isRed ==> forall c :: c in cs ==> sel[0].y >= c.y)
  {
    var cs := Candidates(board, pm.piece, ColorOf(pm.isRed), pm.fromCol);
    CandidatesBeforeOrdered(board, pm.piece, ColorOf(pm.isRed), pm.fromCol, Rows * Cols);
    forall c | c in cs
      ensures cs[0].y <= c.y && c.y <= cs[|cs| - 1].y
    {
      var k :| 0 <= k < |cs| && cs[k] == c;
      assert k == 0 || cs[0].y <= cs[k].y;
      assert k == |cs| - 1 || cs[k].y <= cs[|cs| - 1].y;
    }
  }

  /** The same choice read from the text: for a 前/后 move, 前 picks red's smallest rank and
      black's largest, and 后 the opposite end. */
  lemma PrefixCharacterPicksExtreme(board: Grid, notation: string, moveIndex: int)
    requires WellFormed(board) && notation != ""
    requires !MatchesExplicit(Trim(notation)) && MatchesPrefixed(Trim(notation))
    requires ParseMove(notation, moveIndex).Some? && ParseMove(notation, moveIndex).value.Move?
    requires var pm := ParseMove(notation, moveIndex).value;
             Candidates(board, pm.piece, ColorOf(pm.isRed), pm.fromCol) != []
    ensures var c0 := Trim(notation)[0];
            var pm := ParseMove(notation, moveIndex).value;
            var cs := Candidates(board, pm.piece, ColorOf(pm.isRed), pm.fromCol);
            var sel := Selected(board, pm);
            && |sel| == 1 && sel[0] in cs
            && c0 in {'前', '后'}
            && ((c0 == '前') == IsRedPly(moveIndex) ==> forall c :: c in cs ==> sel[0].y <= c.y)
            && ((c0 == '前') != IsRedPly(moveIndex) ==> forall c :: c in cs ==> sel[0].y >= c.y)
  {
    var pm := ParseMove(notation, moveIndex).value;
    ParseMoveReadsFields(notation, moveIndex);
    PrefixCharacters(Trim(notation)[0]);
    PrefixPicksExtreme(board, pm);
  }

  /** The rank `n` steps toward the opponent (red toward smaller y) or away from it. */
  function Toward(isRed: bool, y: int, n: int): int { if isRed then y - n else y + n }
  function Away(isRed: bool, y: int, n: int): int { if isRed then y + n else y - n }

  /** The horse's destination file is the notated column; its rank offset is 2 when the file
      changes by 1, 1 when it changes by 2, and 0 otherwise. */
  function HorseDestination(isRed: bool, advance: bool, x: int, y: int, target: int): (int, int) {
    var toX := ColumnToFile(target, isRed);
    var steps := if Abs(toX - x) == 1 then 2 else if Abs(toX - x) == 2 then 1 else 0;
    (toX, if advance then Toward(isRed, y, steps) else Away(isRed, y, steps))
  }

  /** The elephant's destination file as the source computes it: two files left when the
      target is 3, two files right otherwise. */
  function ElephantFileAsWritten(x: int, target: int): (toX: int)
    ensures Abs(toX - x) == 2 && (toX < x <==> target == 3)
  {
    x + (if target == 3 then -2 else 2)
  }

  /** The elephant's destination file read, like the advisor's and the horse's, as the notated column. */
  function ElephantFile(target: int, isRed: bool): (toX: int)
    ensures 1 <= target <= 9 ==> 0 <= toX <= 8 && FileToColumn(toX, isRed) == target
  {
    ColumnToFile(target, isRed)
  }

  /** How an elephant's 进 destination file is worked out: by the source's formula (two files
      left for target 3, two files right otherwise) or as the notated column. */
  datatype ElephantRule = SourceFormula | NotatedColumn

  /** The destination findCoordinates computes for a piece at (x, y) of the given archetype;
      SourceFormula gives the program's own result. */
  function Destination(kind: Kind, action: Action, isRed: bool, x: int, y: int, target: int, rule: ElephantRule): (int, int) {
    match action
    case Level => (ColumnToFile(target, isRed), y)
    case Advance =>
      (match kind
       case Pawn => (x, Toward(isRed, y, target))
       case King => (x, Toward(isRed, y, target))
       case Advisor => (ColumnToFile(target, isRed), Toward(isRed, y, 1))
       case Elephant =>
         (if rule == SourceFormula then ElephantFileAsWritten(x, target) else ElephantFile(target, isRed), Toward(isRed, y, 2))
       case Horse => HorseDestination(isRed, true, x, y, target)
       case Rook => (x, Toward(isRed, y, target))
       case Cannon => (x, Toward(isRed, y, target)))
    case Retreat =>
      (match kind
       case King => (x, Away(isRed, y, target))
       case Advisor => (ColumnToFile(target, isRed), Away(isRed, y, 1))
       case Horse => HorseDestination(isRed, false, x, y, target)
       case Rook => (x, Away(isRed, y, target))
       case Cannon => (x, Away(isRed, y, target))
       // the source's 退 branch has no case for these two: the piece stays where it is
       case Pawn => (x, y)
       case Elephant => (x, y))
  }

  /** 平 keeps the rank and moves to the notated column. */
  lemma LevelKeepsRank(kind: Kind, isRed: bool, x: int, y: int, target: int, rule: ElephantRule)
    ensures var d := Destination(kind, Level, isRed, x, y, target, rule);
            d.1 == y && d.0 == (if isRed then 9 - target else target - 1) && FileToColumn(d.0, isRed) == target
  {
  }

  /** Rook, cannon, king and pawn move `target` ranks along their own file: red 进 to y - target,
      black 进 to y + target, and (for all but the pawn) 退 the other way. */
  lemma FileMoverAdvanceRetreat(kind: Kind, isRed: bool, x: int, y: int, target: int, rule: ElephantRule)
    requires kind in {Rook, Cannon, King, Pawn}
    ensures Destination(kind, Advance, isRed, x, y, target, rule) == (x, if isRed then y - target else y + target)
    ensures kind != Pawn ==>
              Destination(kind, Retreat, isRed, x, y, target, rule) == (x, if isRed then y + target else y - target)
  {
  }

  /** The horse's destination is reconstructed from the target file: a one-file change means a
      two-rank move, a two-file change a one-rank move, toward the opponent for 进 and away for 退. */
  lemma HorseShape(action: Action, isRed: bool, x: int, y: int, target: int, rule: ElephantRule)
    requires action != Level
    ensures var d := Destination(Horse, action, isRed, x, y, target, rule);
            && FileToColumn(d.0, isRed) == target
            && (Abs(d.0 - x) == 1 ==> Abs(d.1 - y) == 2)
            && (Abs(d.0 - x) == 2 ==> Abs(d.1 - y) == 1)
            && (Abs(d.0 - x) in {1, 2} ==> (d.1 < y <==> (action == Advance) == isRed))
  {
  }

  /** The advisor's destination file is the notated column and it moves one rank, toward the
      opponent (red to smaller y) for 进 and away for 退. The elephant's 进 moves two ranks toward
      the opponent; under the source's formula it moves two files, and under the corrected rule
      it lands on the notated column. */
  lemma DiagonalDestinations(action: Action, isRed: bool, x: int, y: int, target: int, rule: ElephantRule)
    requires action != Level
    ensures var d := Destination(Advisor, action, isRed, x, y, target, rule);
            && FileToColumn(d.0, isRed) == target
            && d.1 == (if (action == Advance) == isRed then y - 1 else y + 1)
    ensures action == Advance ==>
              var d := Destination(Elephant, action, isRed, x, y, target, rule);
              && d.1 == (if isRed then y - 2 else y + 2)
              && (rule == SourceFormula ==> Abs(d.0 - x) == 2 && (d.0 < x <==> target == 3))
              && (rule == NotatedColumn ==> FileToColumn(d.0, isRed) == target)
  {
  }

  /** Whether the candidate's computed destination passes isValidTarget. */
  predicate Works(board: Grid, pm: Parsed, c: Candidate, rule: ElephantRule)
    requires WellFormed(board) && pm.Move? && InBounds(c.y, c.x)
  {
    var d := Destination(pm.piece, pm.action, pm.isRed, c.x, c.y, pm.target, rule);
    IsValidTarget(board, c.x, c.y, d.0, d.1, ColorOf(pm.isRed))
  }

  /** The move made by the first of the candidates whose destination works. */
  function FirstWorking(board: Grid, pm: Parsed, cs: seq<Candidate>, rule: ElephantRule): Option<Resolved>
    requires WellFormed(board) && pm.Move? && forall i :: 0 <= i < |cs| ==> InBounds(cs[i].y, cs[i].x)
    decreases |cs|
  {
    if cs == [] then None
    else if Works(board, pm, cs[0], rule) then
      var d := Destination(pm.piece, pm.action, pm.isRed, cs[0].x, cs[0].y, pm.target, rule);
      Some(Resolved(cs[0].x, cs[0].y, d.0, d.1, board[d.1][d.0], cs[0].piece))
    else FirstWorking(board, pm, cs[1..], rule)
  }

  /** What findCoordinates returns: nothing for a missing or result-only descriptor, otherwise
      the move of the first selected candidate whose destination works. */
  function Resolve(board: Grid, parsed: Option<Parsed>, rule: ElephantRule): Option<Resolved>
    requires WellFormed(board)
  {
    if parsed.None? || parsed.value.Outcome? then None
    else FirstWorking(board, parsed.value, Selected(board, parsed.value), rule)
  }

  /** The scan at the head of findCoordinates: every square, rank by rank and left to right,
      collecting the pieces of the archetype and colour (on the explicit file when given). */
  method CollectCandidates(board: Grid, kind: Kind, color: Color, fromCol: Option<int>) returns (candidates: seq<Candidate>)
    requires WellFormed(board)
    ensures candidates == Candidates(board, kind, color, fromCol)
  {
    candidates := [];
    var y := 0;
    while y < 10
      invariant 0 <= y <= Rows
      invariant candidates == CandidatesBefore(board, kind, color, fromCol, y * Cols)
    {
      candidates := CollectRank(board, kind, color, fromCol, y, candidates);
      y := y + 1;
    }
  }

  /** The inner loop of the scan: rank y, left to right. */
  method CollectRank(board: Grid, kind: Kind, color: Color, fromCol: Option<int>, y: int, before: seq<Candidate>)
    returns (candidates: seq<Candidate>)
    requires WellFormed(board) && 0 <= y < Rows
    requires before == CandidatesBefore(board, kind, color, fromCol, y * Cols)
    ensures candidates == CandidatesBefore(board, kind, color, fromCol, (y + 1) * Cols)
  {
    candidates := before;
    var x := 0;
    while x < 9
      invariant 0 <= x <= Cols
      invariant candidates == CandidatesBefore(board, kind, color, fromCol, y * Cols + x)
    {
      CandidatesStep(board, kind, color, fromCol, y, x);
      var p := board[y][x];
      if p.Some? && PieceOf(p.value.kind) == Some(kind) && p.value.color == color {
        if fromCol.None? || x == fromCol.value {
          candidates := candidates + [Candidate(x, y, p.value)];
        }
      }
      x := x + 1;
    }
    assert y * Cols + Cols == (y + 1) * Cols;
  }

  /** One step of the scan: square y*9 + x is appended when it matches. */
  lemma CandidatesStep(board: Grid, kind: Kind, color: Color, fromCol: Option<int>, y: int, x: int)
    requires WellFormed(board) && InBounds(y, x)
    ensures 0 <= y * Cols + x < Rows * Cols
    ensures CandidatesBefore(board, kind, color, fromCol, y * Cols + x + 1) ==
            CandidatesBefore(board, kind, color, fromCol, y * Cols + x) +
            (if Matches(board, kind, color, fromCol, y, x) then [Candidate(x, y, board[y][x].value)] else [])
  {
    SquareOf(y, x);
  }

  /** The first working candidate of a list: its index, every earlier one fails, and the move
      goes from it to its computed destination, recording what stood there. */
  lemma {:induction false} FirstWorkingFinds(board: Grid, pm: Parsed, cs: seq<Candidate>, rule: ElephantRule)
    requires WellFormed(board) && pm.Move? && AllMatch(board, pm.piece, ColorOf(pm.isRed), pm.fromCol, cs)
    ensures var r := FirstWorking(board, pm, cs, rule);
            && (r.None? <==> forall i :: 0 <= i < |cs| ==> !Works(board, pm, cs[i], rule))
            && (r.Some? ==> exists i :: 0 <= i < |cs|
                              && cs[i] == Candidate(r.value.fromX, r.value.fromY, r.value.piece)
                              && Works(board, pm, cs[i], rule)
                              && (forall j :: 0 <= j < i ==> !Works(board, pm, cs[j], rule))
                              && (r.value.toX, r.value.toY) ==
                                   Destination(pm.piece, pm.action, pm.isRed, cs[i].x, cs[i].y, pm.target, rule)
                              && r.value.captured == board[r.value.toY][r.value.toX])
    decreases |cs|
  {
    if cs != [] && !Works(board, pm, cs[0], rule) {
      var rest := cs[1..];
      FirstWorkingFinds(board, pm, rest, rule);
      var r := FirstWorking(board, pm, rest, rule);
      if r.Some? {
        var k :| 0 <= k < |rest| && rest[k] == Candidate(r.value.fromX, r.value.fromY, r.value.piece) &&
                 Works(board, pm, rest[k], rule) && (forall j :: 0 <= j < k ==> !Works(board, pm, rest[j], rule)) &&
                 (r.value.toX, r.value.toY) == Destination(pm.piece, pm.action, pm.isRed, rest[k].x, rest[k].y, pm.target, rule) &&
                 r.value.captured == board[r.value.toY][r.value.toX];
        assert cs[k + 1] == rest[k];
        assert forall j :: 0 <= j < k + 1 ==> !Works(board, pm, cs[j], rule) by {
          forall j | 0 <= j < k + 1 ensures !Works(board, pm, cs[j], rule) {
            if j > 0 { assert cs[j] == rest[j - 1]; }
          }
        }
      } else {
        forall i | 0 <= i < |cs| ensures !Works(board, pm, cs[i], rule) {
          if i > 0 { assert cs[i] == rest[i - 1]; }
        }
      }
    }
  }

  /** What findCoordinates promises: null for a missing or result descriptor; otherwise a move
      from a matching piece on the explicit file, to the destination the action computes, which
      passes isValidTarget and never takes a friendly piece; null exactly when no selected
      candidate works, and otherwise the first one that does. */
  lemma ResolveProperties(board: Grid, parsed: Option<Parsed>, rule: ElephantRule)
    requires WellFormed(board)
    ensures var r := Resolve(board, parsed, rule);
            && ((parsed.None? || parsed.value.Outcome?) ==> r.None?)
            && (r.Some? ==>
                  parsed.Some? && parsed.value.Move? &&
                  var pm := parsed.value;
                  var m := r.value;
                  && InBounds(m.fromY, m.fromX) && InBounds(m.toY, m.toX)
                  && board[m.fromY][m.fromX] == Some(m.piece)
                  && PieceOf(m.piece.kind) == Some(pm.piece) && m.piece.color == ColorOf(pm.isRed)
                  && (pm.fromCol.Some? ==> m.fromX == pm.fromCol.value)
                  && m.captured == board[m.toY][m.toX]
                  && (m.captured.None? || m.captured.value.color != m.piece.color)
                  && (m.toX, m.toY) == Destination(pm.piece, pm.action, pm.isRed, m.fromX, m.fromY, pm.target, rule)
                  && IsValidTarget(board, m.fromX, m.fromY, m.toX, m.toY, m.piece.color))
    ensures parsed.Some? && parsed.value.Move? ==>
              var r := Resolve(board, parsed, rule);
              var sel := Selected(board, parsed.value);
              && (r.None? <==> forall i :: 0 <= i < |sel| ==> !Works(board, parsed.value, sel[i], rule))
              && (r.Some? ==> exists i :: 0 <= i < |sel| &&
                                sel[i] == Candidate(r.value.fromX, r.value.fromY, r.value.piece) &&
                                forall j :: 0 <= j < i ==> !Works(board, parsed.value, sel[j], rule))
  {
    if parsed.Some? && parsed.value.Move? {
      FirstWorkingFinds(board, parsed.value, Selected(board, parsed.value), rule);
    }
  }

  /** findCoordinates(parsedMove, board), proved against Resolve. */
  method FindCoordinates(parsed: Option<Parsed>, board: Grid, rule: ElephantRule) returns (r: Option<Resolved>)
    requires WellFormed(board)
    ensures r == Resolve(board, parsed, rule)
  {
    if parsed.None? || !parsed.value.Move? {
      return None;
    }
    var pm := parsed.value;
    var color := ColorOf(pm.isRed);

    var candidates := CollectCandidates(board, pm.piece, color, pm.fromCol);

    if |candidates| == 0 {
      return None;
    }
    // The source sorts the candidates by y here; the scan already produced them in rank order
    // (CandidatesBefore) and the sort is stable, so the list is unchanged.
    if pm.prefix.Some? {
      candidates := Select(candidates, pm.prefix, pm.isRed);
    }
    assert candidates == Selected(board, pm);
    r := TryCandidates(board, pm, candidates, rule);
  }

  /** The loop of findCoordinates over the selected candidates: the first whose destination
      works gives the move. */
  method TryCandidates(board: Grid, pm: Parsed, candidates: seq<Candidate>, rule: ElephantRule) returns (r: Option<Resolved>)
    requires WellFormed(board) && pm.Move?
    requires forall i :: 0 <= i < |candidates| ==> InBounds(candidates[i].y, candidates[i].x)
    ensures r == FirstWorking(board, pm, candidates, rule)
  {
    var color := ColorOf(pm.isRed);
    var i := 0;
    while i < |candidates|
      invariant 0 <= i <= |candidates|
      invariant FirstWorking(board, pm, candidates, rule) == FirstWorking(board, pm, candidates[i..], rule)
    {
      var c := candidates[i];
      assert candidates[i..][0] == c && candidates[i..][1..] == candidates[i + 1..];
      var dest := Destination(pm.piece, pm.action, pm.isRed, c.x, c.y, pm.target, rule);
      var toX, toY := dest.0, dest.1;
      var valid := IsValidTarget(board, c.x, c.y, toX, toY, color);
      if valid && 0 <= toX < 9 && 0 <= toY < 10 {
        return Some(Resolved(c.x, c.y, toX, toY, board[toY][toX], c.piece));
      }
      i := i + 1;
    }
    return None;
  }

  /** 退 of a pawn or an elephant never resolves: with no destination rule the piece would land
      on its own square, which holds a piece of its own colour. */
  lemma RetreatOfPawnOrElephantFails(board: Grid, pm: Parsed, rule: ElephantRule)
    requires WellFormed(board) && pm.Move? && pm.action == Retreat && pm.piece in {Pawn, Elephant}
    ensures var sel := Selected(board, pm);
            forall i :: 0 <= i < |sel| ==> !Works(board, pm, sel[i], rule)
  {
    var sel := Selected(board, pm);
    forall i | 0 <= i < |sel|
      ensures !Works(board, pm, sel[i], rule)
    {
      var c := sel[i];
      assert Destination(pm.piece, pm.action, pm.isRed, c.x, c.y, pm.target, rule) == (c.x, c.y);
      OwnSquareNeverValid(board, c.x, c.y, ColorOf(pm.isRed));
    }
  }

  /** A piece never "moves" onto its own square: that square holds a piece of its colour. */
  lemma OwnSquareNeverValid(board: Grid, x: int, y: int, color: Color)
    requires WellFormed(board) && InBounds(y, x) && Friendly(board, y, x, color)
    ensures !IsValidTarget(board, x, y, x, y, color)
  {
  }

  /** Finding: the elephant's destination file as written. With a lone red elephant on its
      starting square (file 6, rank 9), findCoordinates resolves 相三进五 to file 8 (column 一),
      a square its own check accepts, while the notation names file 4 (column 五), where the
      corrected rule sends it. */
  lemma ElephantFileAsWrittenMisreads(b: Grid)
    requires b == Place(EmptyGrid(), 9, 6, Piece('相', Red))
    ensures Resolve(b, ParseMove("相三进五", 0), SourceFormula) == Some(Resolved(6, 9, 8, 7, None, Piece('相', Red)))
    ensures Resolve(b, ParseMove("相三进五", 0), NotatedColumn) == Some(Resolved(6, 9, 4, 7, None, Piece('相', Red)))
    ensures FileToColumn(8, true) == 1 && FileToColumn(4, true) == 5
  {
    var s := "相三进五";
    ElephantOpeningParses(s);
    var pm := ParseMove(s, 0).value;
    var c := Candidate(6, 9, Piece('相', Red));
    LoneElephantCandidate(b, Rows * Cols);
    assert Selected(b, pm) == [c];
    ElephantStepAccepted(b, 8);
    ElephantStepAccepted(b, 4);
    assert Works(b, pm, c, SourceFormula) && Works(b, pm, c, NotatedColumn);
  }

  /** On that board the elephant on file 6 is the only candidate: the scan meets it at square
      9 * 9 + 6 and nowhere else. */
  lemma {:induction false} LoneElephantCandidate(b: Grid, k: int)
    requires b == Place(EmptyGrid(), 9, 6, Piece('相', Red)) && 0 <= k <= Rows * Cols
    ensures CandidatesBefore(b, Elephant, Red, Some(6), k) ==
              if k > 9 * Cols + 6 then [Candidate(6, 9, Piece('相', Red))] else []
    decreases k
  {
    if k > 0 {
      LoneElephantCandidate(b, k - 1);
      var y, x := SquareRank(k - 1), SquareFile(k - 1);
      assert Matches(b, Elephant, Red, Some(6), y, x) <==> k - 1 == 9 * Cols + 6;
    }
  }

  lemma ElephantOpeningParses(s: string)
    requires |s| == 4 && s[0] == '相' && s[1] == '三' && s[2] == '进' && s[3] == '五'
    ensures ParseMove(s, 0) == Some(Move(Elephant, '相', Some(6), Advance, 5, '五', true, None, s))
  {
    assert TrimStart(s) == s && TrimEnd(s) == s by {
      NotationCharNotWhite(s[0]);
      NotationCharNotWhite(s[3]);
      TrimIdentity(s);
    }
    assert MatchesExplicit(s) by {
      assert IsPatternPiece(s[0]);
      assert NumeralValue(s[1]) == Some(3) && ActionOf(s[2]) == Some(Advance) && NumeralValue(s[3]) == Some(5);
    }
    assert ColumnToFile(3, true) == 6;
  }

  /** A lone red elephant on (6, 9) may step two files and two ranks toward the river. */
  lemma ElephantStepAccepted(b: Grid, toX: int)
    requires b == Place(EmptyGrid(), 9, 6, Piece('相', Red)) && toX in {4, 8}
    ensures IsValidTarget(b, 6, 9, toX, 7, Red)
  {
    assert b[9][6] == Some(Piece('相', Red));
    assert b[7][toX].None? && b[8][(6 + toX) / 2].None?;
  }
}
