/** Reading Chinese move notation (`炮二平五`, `马8进7`, `前车进一`) into a move descriptor, and
    writing a resolved move back as notation (src/move-parser.js). */
module Notation {
  import opened Board

  /** 平 (sideways), 进 (advance), 退 (retreat). */
  datatype Action = Level | Advance | Retreat

  /** 前 (front) and 后 (back): which of several same pieces is meant. */
  datatype Prefix = Front | Back

  /** What parseMove returns: a move descriptor, or a game-result token (胜/和/优). */
  datatype Parsed =
    | Move(piece: Kind, pieceChar: char, fromCol: Option<int>, action: Action, target: int,
           targetChar: char, isRed: bool, prefix: Option<Prefix>, notation: string)
    | Outcome(notation: string, isRed: bool)

  /** The result of findCoordinates: origin and destination (x = file, y = rank), the piece
      previously on the destination and the moving piece. */
  datatype Resolved = Resolved(fromX: int, fromY: int, toX: int, toY: int, captured: Option<Piece>, piece: Piece)

  /** chineseToNum: 一..九 and 1..9 to 1..9; anything else has no value. */
  function NumeralValue(c: char): (v: Option<int>)
    ensures v.Some? ==> 1 <= v.value <= 9
  {
    match c
    case '一' => Some(1) case '二' => Some(2) case '三' => Some(3)
    case '四' => Some(4) case '五' => Some(5) case '六' => Some(6)
    case '七' => Some(7) case '八' => Some(8) case '九' => Some(9)
    case '1' => Some(1) case '2' => Some(2) case '3' => Some(3)
    case '4' => Some(4) case '5' => Some(5) case '6' => Some(6)
    case '7' => Some(7) case '8' => Some(8) case '9' => Some(9)
    case _ => None
  }

  /** numToChinese: index 0 is the empty string, 1..9 the Chinese numerals. */
  function NumToChinese(n: int): (s: string)
    requires 0 <= n <= 9
    ensures n == 0 <==> s == ""
    ensures n != 0 ==> |s| == 1 && NumeralValue(s[0]) == Some(n)
  {
    ["", "一", "二", "三", "四", "五", "六", "七", "八", "九"][n]
  }

  /** The Arabic digit for 1..9. */
  function Digit(n: int): char
    requires 1 <= n <= 9
  {
    "123456789"[n - 1]
  }

  /** Both spellings of a column number read as the same value. */
  lemma NumeralsAgree(n: int)
    requires 1 <= n <= 9
    ensures NumeralValue(NumToChinese(n)[0]) == NumeralValue(Digit(n)) == Some(n)
  {
  }

  /** pieceMap: every glyph the notation or a board may use, to its archetype. */
  function PieceOf(g: char): Option<Kind> {
    match g
    case '将' => Some(King) case '將' => Some(King) case '帥' => Some(King) case '帅' => Some(King)
    case '士' => Some(Advisor) case '仕' => Some(Advisor)
    case '象' => Some(Elephant) case '相' => Some(Elephant)
    case '马' => Some(Horse) case '馬' => Some(Horse) case '傌' => Some(Horse)
    case '车' => Some(Rook) case '車' => Some(Rook) case '俥' => Some(Rook)
    case '炮' => Some(Cannon) case '砲' => Some(Cannon)
    case '兵' => Some(Pawn) case '卒' => Some(Pawn)
    case _ => None
  }

  /** The piece glyphs the two notation patterns accept (将帅車车馬马炮相象仕士兵卒): not 將, 帥, 俥, 傌 or 砲. */
  predicate IsPatternPiece(g: char)
    ensures IsPatternPiece(g) ==> PieceOf(g).Some?
  {
    g in {'将', '帅', '車', '车', '馬', '马', '炮', '相', '象', '仕', '士', '兵', '卒'}
  }

  function ActionOf(c: char): Option<Action> {
    match c
    case '平' => Some(Level)
    case '进' => Some(Advance)
    case '退' => Some(Retreat)
    case _ => None
  }

  function PrefixOf(c: char): Option<Prefix> {
    match c
    case '前' => Some(Front)
    case '后' => Some(Back)
    case _ => None
  }

  /** What String.prototype.trim removes: white space and line terminators. */
  predicate IsWhite(c: char) {
    c == ' ' || c == '\t' || c == '\n' || c == '\r' || c == '\U{000B}' || c == '\U{000C}' ||
    c == '\U{00A0}' || c == '\U{1680}' || ('\U{2000}' <= c <= '\U{200A}') ||
    c == '\U{2028}' || c == '\U{2029}' || c == '\U{202F}' || c == '\U{205F}' ||
    c == '\U{3000}' || c == '\U{FEFF}'
  }

  function TrimStart(s: string): (t: string)
    ensures |t| <= |s| && t == s[|s| - |t|..]
    ensures t == [] || !IsWhite(t[0])
    ensures forall i :: 0 <= i < |s| - |t| ==> IsWhite(s[i])
  {
    if s != [] && IsWhite(s[0]) then TrimStart(s[1..]) else s
  }

  function TrimEnd(s: string): (t: string)
    ensures |t| <= |s| && t == s[..|t|]
    ensures t == [] || !IsWhite(t[|t| - 1])
    ensures forall i :: |t| <= i < |s| ==> IsWhite(s[i])
  {
    if s != [] && IsWhite(s[|s| - 1]) then TrimEnd(s[..|s| - 1]) else s
  }

  function Trim(s: string): string {
    TrimEnd(TrimStart(s))
  }

  /** The colour a ply index gives: even plies are red's, odd plies black's. */
  predicate IsRedPly(moveIndex: int) {
    moveIndex % 2 == 0
  }

  /** Notation column n (1..9) to file x: red counts from its right (9 - n), black from its own right, which is x + 1. */
  function ColumnToFile(n: int, isRed: bool): int {
    if isRed then 9 - n else n - 1
  }

  /** File x to the notation column of that colour, as toNotation writes it. */
  function FileToColumn(x: int, isRed: bool): int {
    if isRed then 9 - x else x + 1
  }

  lemma ColumnFileRoundTrip(n: int, x: int, isRed: bool)
    ensures 1 <= n <= 9 ==> 0 <= ColumnToFile(n, isRed) <= 8 && FileToColumn(ColumnToFile(n, isRed), isRed) == n
    ensures 0 <= x <= 8 ==> 1 <= FileToColumn(x, isRed) <= 9 && ColumnToFile(FileToColumn(x, isRed), isRed) == x
  {
  }

  /** pattern1: piece, explicit column, action, target. */
  predicate MatchesExplicit(s: string) {
    |s| == 4 && IsPatternPiece(s[0]) && NumeralValue(s[1]).Some? && ActionOf(s[2]).Some? && NumeralValue(s[3]).Some?
  }

  /** pattern2: 前/后, piece, action, target. */
  predicate MatchesPrefixed(s: string) {
    |s| == 4 && PrefixOf(s[0]).Some? && IsPatternPiece(s[1]) && ActionOf(s[2]).Some? && NumeralValue(s[3]).Some?
  }

  predicate MentionsResult(s: string) {
    '胜' in s || '和' in s || '优' in s
  }

  /** parseMove(notation, moveIndex): None stands for the source's null. */
  function ParseMove(notation: string, moveIndex: int): (r: Option<Parsed>)
    ensures r.Some? ==> r.value.isRed == IsRedPly(moveIndex)
    ensures r.Some? ==> r.value.notation == Trim(notation)
    ensures r.Some? && r.value.Move? ==>
              && 1 <= r.value.target <= 9
              && NumeralValue(r.value.targetChar) == Some(r.value.target)
              && PieceOf(r.value.pieceChar) == Some(r.value.piece)
              && (r.value.fromCol.Some? ==> 0 <= r.value.fromCol.value <= 8)
              && (r.value.fromCol.None? <==> r.value.prefix.Some?)
    ensures (r.Some? && r.value.Outcome?) <==>
              (notation != "" && !MatchesExplicit(Trim(notation)) && !MatchesPrefixed(Trim(notation)) &&
               MentionsResult(Trim(notation)))
    ensures r.None? <==>
              (notation == "" || (!MatchesExplicit(Trim(notation)) && !MatchesPrefixed(Trim(notation)) &&
                                  !MentionsResult(Trim(notation))))
  {
    if notation == "" then None
    else
      var s := Trim(notation);
      var isRed := IsRedPly(moveIndex);
      if MatchesExplicit(s) then
        var colNum := NumeralValue(s[1]).value;
        Some(Move(PieceOf(s[0]).value, s[0], Some(ColumnToFile(colNum, isRed)), ActionOf(s[2]).value,
                  NumeralValue(s[3]).value, s[3], isRed, None, s))
      else if MatchesPrefixed(s) then
        Some(Move(PieceOf(s[1]).value, s[1], None, ActionOf(s[2]).value,
                  NumeralValue(s[3]).value, s[3], isRed, PrefixOf(s[0]), s))
      else if MentionsResult(s) then
        Some(Outcome(s, isRed))
      else
        None
  }

  /** The text alone decides what is read; the ply index only decides the colour, by its parity. */
  lemma ParseDependsOnParityOnly(notation: string, i: int, j: int)
    requires IsRedPly(i) == IsRedPly(j)
    ensures ParseMove(notation, i) == ParseMove(notation, j)
  {
  }

  /** An explicit column n reads as file 9 - n for red and n - 1 for black. */
  lemma ExplicitColumnFile(notation: string, moveIndex: int)
    requires notation != "" && MatchesExplicit(Trim(notation))
    ensures var r := ParseMove(notation, moveIndex);
            var n := NumeralValue(Trim(notation)[1]).value;
            r.Some? && r.value.Move? && r.value.prefix.None? &&
            r.value.fromCol == Some(if IsRedPly(moveIndex) then 9 - n else n - 1)
  {
  }

  /** Each field of a move descriptor comes from its place in the trimmed text: for the
      explicit form the glyph, column, action and target are the four characters in order; for
      the 前/后 form the prefix comes first and there is no column. */
  lemma ParseMoveReadsFields(notation: string, moveIndex: int)
    requires notation != ""
    ensures var s := Trim(notation);
            var r := ParseMove(notation, moveIndex);
            && (MatchesExplicit(s) ==>
                  && r.Some? && r.value.Move? && r.value.prefix.None?
                  && r.value.pieceChar == s[0]
                  && r.value.fromCol == Some(ColumnToFile(NumeralValue(s[1]).value, IsRedPly(moveIndex)))
                  && Some(r.value.action) == ActionOf(s[2])
                  && r.value.targetChar == s[3])
            && (!MatchesExplicit(s) && MatchesPrefixed(s) ==>
                  && r.Some? && r.value.Move? && r.value.fromCol.None?
                  && r.value.prefix == PrefixOf(s[0])
                  && r.value.pieceChar == s[1]
                  && Some(r.value.action) == ActionOf(s[2])
                  && r.value.targetChar == s[3])
  {
  }

  /** 前 is the only character read as Front and 后 the only one read as Back. */
  lemma PrefixCharacters(c: char)
    ensures PrefixOf(c) == Some(Front) <==> c == '前'
    ensures PrefixOf(c) == Some(Back) <==> c == '后'
  {
  }

  /** pieceToChinese: the red and black glyph of each archetype. */
  function RedGlyph(k: Kind): char {
    match k
    case King => '帥' case Advisor => '仕' case Elephant => '相' case Horse => '傌'
    case Rook => '俥' case Cannon => '炮' case Pawn => '兵'
  }

  function BlackGlyph(k: Kind): char {
    match k
    case King => '將' case Advisor => '士' case Elephant => '象' case Horse => '馬'
    case Rook => '車' case Cannon => '砲' case Pawn => '卒'
  }

  lemma GlyphsNameTheirKind(k: Kind)
    ensures PieceOf(RedGlyph(k)) == Some(k) && PieceOf(BlackGlyph(k)) == Some(k)
  {
  }

  /** The action and target toNotation writes for a move of `isRed`'s piece. */
  function NotationAction(dy: int, isRed: bool): char {
    if (isRed && dy < 0) || (!isRed && dy > 0) then '进' else '退'
  }

  predicate OnBoardMove(m: Resolved) {
    InBounds(m.fromY, m.fromX) && InBounds(m.toY, m.toX)
  }

  /** toNotation as written: the glyph is always the red one, whatever the colour. */
  function ToNotationAsWritten(m: Resolved): (s: string)
    requires OnBoardMove(m) && PieceOf(m.piece.kind).Some?
    ensures (m.fromX, m.fromY) != (m.toX, m.toY) ==> |s| == 4 && s[0] == RedGlyph(PieceOf(m.piece.kind).value)
  {
    var glyph := RedGlyph(PieceOf(m.piece.kind).value);
    NotationText(m, glyph)
  }

  /** toNotation with a glyph parseMove accepts, in the mover's colour where the pattern has one. */
  function ToNotation(m: Resolved): (s: string)
    requires OnBoardMove(m) && PieceOf(m.piece.kind).Some?
    ensures (m.fromX, m.fromY) != (m.toX, m.toY) ==> |s| == 4 && IsPatternPiece(s[0])
  {
    NotationText(m, NotationGlyph(PieceOf(m.piece.kind).value, m.piece.color == Red))
  }

  function NotationGlyph(k: Kind, isRed: bool): (g: char)
    ensures IsPatternPiece(g) && PieceOf(g) == Some(k)
  {
    match k
    case King => if isRed then '帅' else '将'
    case Advisor => if isRed then '仕' else '士'
    case Elephant => if isRed then '相' else '象'
    case Horse => '馬'
    case Rook => '車'
    case Cannon => '炮'
    case Pawn => if isRed then '兵' else '卒'
  }

  /** The four characters toNotation concatenates after the glyph is chosen. */
  function NotationText(m: Resolved, glyph: char): (s: string)
    requires OnBoardMove(m)
    ensures (m.fromX, m.fromY) != (m.toX, m.toY) ==> |s| == 4 && s[0] == glyph
  {
    var isRed := m.piece.color == Red;
    var fromCol := NumToChinese(FileToColumn(m.fromX, isRed));
    var dy := m.toY - m.fromY;
    if m.toX == m.fromX then
      [glyph] + fromCol + [NotationAction(dy, isRed)] + NumToChinese(Abs(dy))
    else if m.toY == m.fromY then
      [glyph] + fromCol + ['平'] + NumToChinese(FileToColumn(m.toX, isRed))
    else
      [glyph] + fromCol + [NotationAction(dy, isRed)] + NumToChinese(FileToColumn(m.toX, isRed))
  }

  /** Written notation read back at a ply of the mover's colour gives the mover's archetype,
      its file, and a target that names the destination: the step count on a file, the
      destination column otherwise. */
  lemma {:induction false} ToNotationRoundTrip(m: Resolved, moveIndex: int)
    requires OnBoardMove(m) && PieceOf(m.piece.kind).Some? && (m.fromX, m.fromY) != (m.toX, m.toY)
    requires IsRedPly(moveIndex) <==> m.piece.color == Red
    ensures var r := ParseMove(ToNotation(m), moveIndex);
            var isRed := m.piece.color == Red;
            && r.Some? && r.value.Move?
            && r.value.piece == PieceOf(m.piece.kind).value
            && r.value.fromCol == Some(m.fromX) && r.value.prefix.None?
            && (r.value.action == Level <==> m.toY == m.fromY)
            && (m.toY != m.fromY ==> (r.value.action == Advance <==> (if isRed then m.toY < m.fromY else m.toY > m.fromY)))
            && (m.toX == m.fromX ==> r.value.target == Abs(m.toY - m.fromY))
            && (m.toX != m.fromX ==> ColumnToFile(r.value.target, isRed) == m.toX)
  {
    var isRed := m.piece.color == Red;
    var s := ToNotation(m);
    NotationCharNotWhite(s[0]);
    NotationCharNotWhite(s[3]);
    TrimIdentity(s);
    ColumnFileRoundTrip(0, m.fromX, isRed);
    ColumnFileRoundTrip(0, m.toX, isRed);
    assert MatchesExplicit(s);
  }

  /** Piece glyphs and numerals are not white space, so trimming never eats them. */
  lemma NotationCharNotWhite(c: char)
    requires IsPatternPiece(c) || NumeralValue(c).Some?
    ensures !IsWhite(c)
  {
  }

  /** A non-empty string with no white space at either end is its own trim: neither end loses
      anything. */
  lemma TrimIdentity(s: string)
    requires s != [] && !IsWhite(s[0]) && !IsWhite(s[|s| - 1])
    ensures TrimStart(s) == s && TrimEnd(s) == s
  {
  }

  /** toNotation as written produces text parseMove rejects: a red rook leaving the right corner. */
  lemma ToNotationAsWrittenUnreadable()
    ensures var m := Resolved(0, 9, 0, 8, None, Piece('車', Red));
            ToNotationAsWritten(m) == "俥九进一" && ParseMove(ToNotationAsWritten(m), 0).None?
  {
    var m := Resolved(0, 9, 0, 8, None, Piece('車', Red));
    assert NumToChinese(FileToColumn(0, true)) == "九";
    assert NumToChinese(Abs(8 - 9)) == "一";
    assert ToNotationAsWritten(m) == "俥九进一";
    RedRookTextUnreadable(ToNotationAsWritten(m));
  }

  lemma RedRookTextUnreadable(s: string)
    requires |s| == 4 && s[0] == '俥' && s[1] == '九' && s[2] == '进' && s[3] == '一'
    ensures ParseMove(s, 0).None?
  {
    TrimIdentity(s);
    assert !MatchesExplicit(s) && !MatchesPrefixed(s);
    assert !MentionsResult(s);
  }
}
