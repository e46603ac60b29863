/** The board shared by the notation resolver and the legality validator: a 10x9 grid indexed
    [row][col] (row 0..9 from black's home rank to red's, col 0..8), cells that are empty or
    hold a piece of a colour, and the count of pieces strictly between two squares. */
module Board {

  datatype Option<T> = None | Some(value: T) {
    function GetOr(default: T): T {
      match this
      case Some(v) => v
      case None => default
    }
  }

  datatype Color = Red | Black

  function Opponent(c: Color): (o: Color)
    ensures o != c
  {
    if c == Red then Black else Red
  }

  /** A board cell's piece: its type as the board stores it (one character: a glyph such as
      '車' on the notation resolver's board, a letter such as 'R' on the validator's) and its colour. */
  datatype Piece = Piece(kind: char, color: Color)

  /** The seven archetypes, shared by the glyph tables and the validator's type letters. */
  datatype Kind = King | Advisor | Elephant | Horse | Rook | Cannon | Pawn

  type Cell = Option<Piece>
  type Grid = seq<seq<Cell>>

  const Rows: int := 10
  const Cols: int := 9

  ghost predicate WellFormed(b: Grid) {
    |b| == Rows && forall r :: 0 <= r < |b| ==> |b[r]| == Cols
  }

  predicate InBounds(row: int, col: int) {
    0 <= row < Rows && 0 <= col < Cols
  }

  function Min(a: int, b: int): int { if a <= b then a else b }
  function Max(a: int, b: int): int { if a <= b then b else a }
  function Abs(a: int): nat { if a < 0 then -a else a }

  /** The board with the cell at (row, col) emptied, as it is once the piece there has left. */
  function Vacate(b: Grid, row: int, col: int): (v: Grid)
    requires WellFormed(b) && InBounds(row, col)
    ensures WellFormed(v)
    ensures forall r, c :: InBounds(r, c) ==> v[r][c] == if r == row && c == col then None else b[r][c]
  {
    b[row := b[row][col := None]]
  }

  /** The board with `p` placed at (row, col). */
  function Place(b: Grid, row: int, col: int, p: Piece): (v: Grid)
    requires WellFormed(b) && InBounds(row, col)
    ensures WellFormed(v)
    ensures forall r, c :: InBounds(r, c) ==> v[r][c] == if r == row && c == col then Some(p) else b[r][c]
  {
    b[row := b[row][col := Some(p)]]
  }

  function EmptyGrid(): (b: Grid)
    ensures WellFormed(b)
    ensures forall r, c :: InBounds(r, c) ==> b[r][c].None?
  {
    seq(Rows, _ => seq(Cols, _ => None))
  }

  /** Occupied cells of column `col` at rows lo .. hi-1 (none when hi <= lo). */
  function ColumnCount(b: Grid, col: int, lo: int, hi: int): nat
    requires WellFormed(b) && 0 <= col < Cols && 0 <= lo && hi <= Rows
    decreases hi - lo
  {
    if hi <= lo then 0 else ColumnCount(b, col, lo, hi - 1) + (if b[hi - 1][col].Some? then 1 else 0)
  }

  /** Occupied cells of row `row` at columns lo .. hi-1 (none when hi <= lo). */
  function RowCount(b: Grid, row: int, lo: int, hi: int): nat
    requires WellFormed(b) && 0 <= row < Rows && 0 <= lo && hi <= Cols
    decreases hi - lo
  {
    if hi <= lo then 0 else RowCount(b, row, lo, hi - 1) + (if b[row][hi - 1].Some? then 1 else 0)
  }

  ghost predicate ColumnClear(b: Grid, col: int, lo: int, hi: int)
    requires WellFormed(b) && 0 <= col < Cols
  {
    forall r :: 0 <= lo <= r < hi <= Rows ==> b[r][col].None?
  }

  ghost predicate RowClear(b: Grid, row: int, lo: int, hi: int)
    requires WellFormed(b) && 0 <= row < Rows
  {
    forall c :: 0 <= lo <= c < hi <= Cols ==> b[row][c].None?
  }

  lemma {:induction false} ColumnCountBound(b: Grid, col: int, lo: int, hi: int)
    requires WellFormed(b) && 0 <= col < Cols && 0 <= lo <= hi <= Rows
    ensures ColumnCount(b, col, lo, hi) <= hi - lo
    decreases hi - lo
  {
    if lo < hi { ColumnCountBound(b, col, lo, hi - 1); }
  }

  lemma {:induction false} RowCountBound(b: Grid, row: int, lo: int, hi: int)
    requires WellFormed(b) && 0 <= row < Rows && 0 <= lo <= hi <= Cols
    ensures RowCount(b, row, lo, hi) <= hi - lo
    decreases hi - lo
  {
    if lo < hi { RowCountBound(b, row, lo, hi - 1); }
  }

  /** A column count is zero exactly when every cell in the range is empty. */
  lemma {:induction false} ColumnCountZero(b: Grid, col: int, lo: int, hi: int)
    requires WellFormed(b) && 0 <= col < Cols && 0 <= lo && hi <= Rows
    ensures ColumnCount(b, col, lo, hi) == 0 <==> ColumnClear(b, col, lo, hi)
    decreases hi - lo
  {
    if lo < hi {
      ColumnCountZero(b, col, lo, hi - 1);
    }
  }

  /** A row count is zero exactly when every cell in the range is empty. */
  lemma {:induction false} RowCountZero(b: Grid, row: int, lo: int, hi: int)
    requires WellFormed(b) && 0 <= row < Rows && 0 <= lo && hi <= Cols
    ensures RowCount(b, row, lo, hi) == 0 <==> RowClear(b, row, lo, hi)
    decreases hi - lo
  {
    if lo < hi {
      RowCountZero(b, row, lo, hi - 1);
    }
  }

  predicate Aligned(r1: int, c1: int, r2: int, c2: int) {
    r1 == r2 || c1 == c2
  }

  /** Pieces strictly between two squares on a shared row (checked first) or column; 0 when
      they share neither. This is the value both countPiecesBetween loops compute. */
  function PiecesBetween(b: Grid, r1: int, c1: int, r2: int, c2: int): nat
    requires WellFormed(b) && InBounds(r1, c1) && InBounds(r2, c2)
  {
    if r1 == r2 then RowCount(b, r1, Min(c1, c2) + 1, Max(c1, c2))
    else if c1 == c2 then ColumnCount(b, c1, Min(r1, r2) + 1, Max(r1, r2))
    else 0
  }

  /** Every cell strictly between two aligned squares is empty. */
  ghost predicate ClearBetween(b: Grid, r1: int, c1: int, r2: int, c2: int)
    requires WellFormed(b) && InBounds(r1, c1) && InBounds(r2, c2)
  {
    (r1 == r2 ==> RowClear(b, r1, Min(c1, c2) + 1, Max(c1, c2))) &&
    (r1 != r2 && c1 == c2 ==> ColumnClear(b, c1, Min(r1, r2) + 1, Max(r1, r2)))
  }

  /** The count is zero exactly when the path between the squares is clear. */
  lemma PiecesBetweenZero(b: Grid, r1: int, c1: int, r2: int, c2: int)
    requires WellFormed(b) && InBounds(r1, c1) && InBounds(r2, c2)
    ensures PiecesBetween(b, r1, c1, r2, c2) == 0 <==> (Aligned(r1, c1, r2, c2) ==> ClearBetween(b, r1, c1, r2, c2))
  {
    if r1 == r2 {
      RowCountZero(b, r1, Min(c1, c2) + 1, Max(c1, c2));
    } else if c1 == c2 {
      ColumnCountZero(b, c1, Min(r1, r2) + 1, Max(r1, r2));
    }
  }

  /** Never more pieces between two distinct squares than there are cells between them, and
      none at all when the squares share neither a row nor a column. */
  lemma PiecesBetweenBound(b: Grid, r1: int, c1: int, r2: int, c2: int)
    requires WellFormed(b) && InBounds(r1, c1) && InBounds(r2, c2) && (r1, c1) != (r2, c2)
    ensures !Aligned(r1, c1, r2, c2) ==> PiecesBetween(b, r1, c1, r2, c2) == 0
    ensures PiecesBetween(b, r1, c1, r2, c2) <= Abs(r1 - r2) + Abs(c1 - c2) - 1
  {
    if r1 == r2 {
      RowCountBound(b, r1, Min(c1, c2) + 1, Max(c1, c2));
    } else if c1 == c2 {
      ColumnCountBound(b, c1, Min(r1, r2) + 1, Max(r1, r2));
    }
  }
}
