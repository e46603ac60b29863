/** Replay navigation (dist/src/game-browser.js): a collection of game records with a cursor
    into the current game's move list, and the small notation reader that file carries. */
module GameBrowser {
  import opened Board
  import opened Notation

  /** A game record: its id and its move list, which a record may lack. */
  datatype Game = Game(id: string, moves: Option<seq<string>>)

  /** games.find(g => g.id === gameId): the first game with the id. */
  function FindGame(games: seq<Game>, gameId: string): (r: Option<Game>)
    ensures r.Some? ==> r.value in games && r.value.id == gameId
    decreases |games|
  {
    if games == [] then None
    else if games[0].id == gameId then Some(games[0])
    else FindGame(games[1..], gameId)
  }

  /** The search finds a game exactly when one has the id, and then the first such game. */
  lemma {:induction false} FindGameFirst(games: seq<Game>, gameId: string)
    ensures FindGame(games, gameId).None? <==> forall i :: 0 <= i < |games| ==> games[i].id != gameId
    ensures FindGame(games, gameId).Some? ==>
              exists i :: 0 <= i < |games| && games[i] == FindGame(games, gameId).value && games[i].id == gameId &&
                          forall j :: 0 <= j < i ==> games[j].id != gameId
    decreases |games|
  {
    if games != [] && games[0].id != gameId {
      FindGameFirst(games[1..], gameId);
      if FindGame(games, gameId).Some? {
        var i :| 0 <= i < |games[1..]| && games[1..][i] == FindGame(games, gameId).value && games[1..][i].id == gameId &&
                 forall j :: 0 <= j < i ==> games[1..][j].id != gameId;
        assert games[i + 1] == games[1..][i];
        forall j | 0 <= j < i + 1
          ensures games[j].id != gameId
        {
          if j > 0 { assert games[j] == games[1..][j - 1]; }
        }
      } else {
        forall i | 0 <= i < |games|
          ensures games[i].id != gameId
        {
          if i > 0 { assert games[i] == games[1..][i - 1]; }
        }
      }
    }
  }

  /** The cursor after nextMove in a list of n moves: one further, unless already on the last. */
  function NextIndex(i: int, n: int): int {
    if i < n - 1 then i + 1 else i
  }

  /** The cursor after prevMove: one back, unless already on the first. */
  function PrevIndex(i: int): int {
    if i > 0 then i - 1 else i
  }

  /** Stepping forward then back, or back then forward, returns to the same move away from
      the ends of the list. */
  lemma NextPrevInverse(i: int, n: int)
    ensures 0 <= i < n - 1 ==> PrevIndex(NextIndex(i, n)) == i
    ensures 0 < i < n ==> NextIndex(PrevIndex(i), n) == i
  {
  }

  /** The cursor after k calls of nextMove. */
  function Forward(i: int, n: int, k: nat): int
    decreases k
  {
    if k == 0 then i else Forward(NextIndex(i, n), n, k - 1)
  }

  /** From any move of a list, k calls of nextMove go k moves on but stop at the last move. */
  lemma {:induction false} ForwardStopsAtLast(i: int, n: int, k: nat)
    requires 0 <= i <= n - 1
    ensures Forward(i, n, k) == Min(i + k, n - 1)
    decreases k
  {
    if k > 0 {
      ForwardStopsAtLast(NextIndex(i, n), n, k - 1);
    }
  }

  /** GameCollection: the loaded games, the game being replayed and the cursor into its moves. */
  class GameCollection {
    var games: seq<Game>
    var currentGame: Option<Game>
    var currentMoveIndex: int
    var loaded: bool

    /** The cursor is never negative, and is 0 unless it points into the current move list. */
    ghost predicate Valid()
      reads this
    {
      0 <= currentMoveIndex &&
      (currentMoveIndex == 0 ||
       (currentGame.Some? && currentGame.value.moves.Some? && currentMoveIndex < |currentGame.value.moves.value|))
    }

    /** The current game's move list, when there is a game and it has one. */
    function Moves(): Option<seq<string>>
      reads this
    {
      if currentGame.Some? then currentGame.value.moves else None
    }

    constructor()
      ensures Valid()
      ensures games == [] && currentGame == None && currentMoveIndex == 0 && !loaded
    {
      games := [];
      currentGame := None;
      currentMoveIndex := 0;
      loaded := false;
    }

    /** The push of a collection's games that loadAllGames performs once a file has been fetched. */
    method AddGames(more: seq<Game>)
      requires Valid()
      modifies this
      ensures Valid()
      ensures games == old(games) + more
      ensures currentGame == old(currentGame) && currentMoveIndex == old(currentMoveIndex) && loaded == old(loaded)
    {
      games := games + more;
    }

    /** loadGame(gameId): with a known id the game becomes current at its first move and is
        returned; with an unknown id nothing changes and nothing is returned. */
    method LoadGame(gameId: string) returns (r: Option<Game>)
      requires Valid()
      modifies this
      ensures Valid()
      ensures r == FindGame(games, gameId)
      ensures r.Some? ==> currentGame == r && currentMoveIndex == 0
      ensures r.None? ==> currentGame == old(currentGame) && currentMoveIndex == old(currentMoveIndex)
      ensures games == old(games) && loaded == old(loaded)
    {
      var game := FindGame(games, gameId);
      if game.Some? {
        currentGame := game;
        currentMoveIndex := 0;
        return game;
      }
      return None;
    }

    /** getCurrentMove(): the move under the cursor. Under Valid() there is one exactly when
        the current game has a non-empty move list. */
    function CurrentMove(): (m: Option<string>)
      reads this
      requires Valid()
      ensures m.Some? <==> Moves().Some? && |Moves().value| > 0
      ensures m.Some? ==> m.value == Moves().value[currentMoveIndex]
    {
      if currentGame.None? || currentGame.value.moves.None? then None
      else if currentMoveIndex < |currentGame.value.moves.value| then Some(currentGame.value.moves.value[currentMoveIndex])
      else None
    }

    /** nextMove(): advances the cursor unless it is on the last move, and then returns the new
        current move; otherwise nothing changes and nothing is returned. */
    method NextMove() returns (r: Option<string>)
      requires Valid()
      modifies this
      ensures Valid()
      ensures games == old(games) && currentGame == old(currentGame) && loaded == old(loaded)
      ensures old(Moves()).None? ==> currentMoveIndex == old(currentMoveIndex) && r.None?
      ensures old(Moves()).Some? ==>
                currentMoveIndex == NextIndex(old(currentMoveIndex), |old(Moves()).value|) &&
                (r.Some? <==> currentMoveIndex != old(currentMoveIndex)) &&
                (r.Some? ==> r == CurrentMove())
    {
      if currentGame.None? || currentGame.value.moves.None? {
        return None;
      }
      if currentMoveIndex < |currentGame.value.moves.value| - 1 {
        currentMoveIndex := currentMoveIndex + 1;
        return CurrentMove();
      }
      return None;
    }

    /** prevMove(): moves the cursor back unless it is on the first move, and then returns the
        new current move; otherwise nothing changes and nothing is returned. */
    method PrevMove() returns (r: Option<string>)
      requires Valid()
      modifies this
      ensures Valid()
      ensures games == old(games) && currentGame == old(currentGame) && loaded == old(loaded)
      ensures old(Moves()).None? ==> currentMoveIndex == old(currentMoveIndex) && r.None?
      ensures old(Moves()).Some? ==>
                currentMoveIndex == PrevIndex(old(currentMoveIndex)) &&
                (r.Some? <==> currentMoveIndex != old(currentMoveIndex)) &&
                (r.Some? ==> r == CurrentMove())
    {
      if currentGame.None? || currentGame.value.moves.None? {
        return None;
      }
      if currentMoveIndex > 0 {
        currentMoveIndex := currentMoveIndex - 1;
        return CurrentMove();
      }
      return None;
    }

    /** jumpToMove(index): moves the cursor to any index of the move list and returns that
        move; an index outside the list changes nothing and returns nothing. */
    method JumpToMove(index: int) returns (r: Option<string>)
      requires Valid()
      modifies this
      ensures Valid()
      ensures games == old(games) && currentGame == old(currentGame) && loaded == old(loaded)
      ensures old(Moves()).Some? && 0 <= index < |old(Moves()).value| ==>
                currentMoveIndex == index && r == Some(old(Moves()).value[index])
      ensures !(old(Moves()).Some? && 0 <= index < |old(Moves()).value|) ==>
                currentMoveIndex == old(currentMoveIndex) && r.None?
    {
      if currentGame.None? || currentGame.value.moves.None? {
        return None;
      }
      if index >= 0 && index < |currentGame.value.moves.value| {
        currentMoveIndex := index;
        return CurrentMove();
      }
      return None;
    }
  }

  /** MoveParser.chineseToNumber: the numeral's value, or 0 for any other character. */
  function ChineseToNumber(ch: char): (n: int)
    ensures 0 <= n <= 9
  {
    match ch
    case '一' => 1 case '二' => 2 case '三' => 3 case '四' => 4 case '五' => 5
    case '六' => 6 case '七' => 7 case '八' => 8 case '九' => 9
    case '1' => 1 case '2' => 2 case '3' => 3 case '4' => 4 case '5' => 5
    case '6' => 6 case '7' => 7 case '8' => 8 case '9' => 9
    case _ => 0
  }

  /** It agrees with the notation reader's numeral table, with 0 where that table has no value. */
  lemma ChineseToNumberAgrees(ch: char)
    ensures ChineseToNumber(ch) == NumeralValue(ch).GetOr(0)
    ensures ChineseToNumber(ch) == 0 <==> NumeralValue(ch).None?
  {
  }

  /** MoveParser.parseMove's result: the piece and action characters, the two numbers, and the
      trimmed text. */
  datatype LooseMove = LooseMove(piece: char, fromCol: int, action: char, target: int, raw: string)

  /** The piece class of MoveParser.parseMove's pattern as written: simplified 车 and 马 only. */
  function PatternPiecesAsWritten(): set<char> {
    {'将', '帅', '车', '马', '炮', '兵', '卒', '仕', '士', '相', '象'}
  }

  /** The piece class with the traditional 車 and 馬 that the parser's own description lists
      among its supported forms (車二进三, 馬八进七). */
  function PatternPieces(): set<char> {
    PatternPiecesAsWritten() + {'車', '馬'}
  }

  predicate IsNumeral(c: char) {
    NumeralValue(c).Some?
  }

  /** The pattern matches the four characters at position i. */
  predicate MatchesAt(s: string, i: int, pieces: set<char>)
    requires 0 <= i && i + 4 <= |s|
  {
    s[i] in pieces && IsNumeral(s[i + 1]) && ActionOf(s[i + 2]).Some? && IsNumeral(s[i + 3])
  }

  /** The leftmost position at or after i where the unanchored pattern matches. */
  function FirstMatchFrom(s: string, i: nat, pieces: set<char>): Option<nat>
    decreases |s| - i
  {
    if i + 4 > |s| then None
    else if MatchesAt(s, i, pieces) then Some(i)
    else FirstMatchFrom(s, i + 1, pieces)
  }

  /** The search returns a position where the pattern matches and none before it matches. */
  lemma {:induction false} FirstMatchIsLeftmost(s: string, i: nat, pieces: set<char>)
    ensures var m := FirstMatchFrom(s, i, pieces);
            && (m.Some? ==> i <= m.value && m.value + 4 <= |s| && MatchesAt(s, m.value, pieces) &&
                            forall j :: i <= j < m.value ==> !MatchesAt(s, j, pieces))
            && (m.None? ==> forall j :: i <= j && j + 4 <= |s| ==> !MatchesAt(s, j, pieces))
    decreases |s| - i
  {
    if i + 4 <= |s| && !MatchesAt(s, i, pieces) {
      FirstMatchIsLeftmost(s, i + 1, pieces);
    }
  }

  /** The leftmost match of the unanchored pattern in text already trimmed: null exactly when
      the pattern matches nowhere; otherwise the four characters of the leftmost match, the two
      numerals read by their value. */
  function LeftmostMatch(s: string, pieces: set<char>): (r: Option<LooseMove>)
    ensures r.None? <==> forall i :: 0 <= i && i + 4 <= |s| ==> !MatchesAt(s, i, pieces)
    ensures r.Some? ==>
              exists i :: 0 <= i && i + 4 <= |s| && MatchesAt(s, i, pieces) &&
                (forall j :: 0 <= j < i ==> !MatchesAt(s, j, pieces)) &&
                r.value == LooseMove(s[i], NumeralValue(s[i + 1]).value, s[i + 2], NumeralValue(s[i + 3]).value, s)
  {
    var m := FirstMatchFrom(s, 0, pieces);
    FirstMatchIsLeftmost(s, 0, pieces);
    if m.None? then None
    else
      var i := m.value;
      var r := LooseMoveAt(s, i, pieces);
      assert r == LooseMove(s[i], NumeralValue(s[i + 1]).value, s[i + 2], NumeralValue(s[i + 3]).value, s);
      Some(r)
  }

  /** The reader for a given piece class: trim, then take the leftmost match anywhere in the text. */
  function LooseParse(notation: string, pieces: set<char>): (r: Option<LooseMove>)
    ensures r.None? <==> forall i :: 0 <= i && i + 4 <= |Trim(notation)| ==> !MatchesAt(Trim(notation), i, pieces)
    ensures r.Some? ==> r.value.raw == Trim(notation)
  {
    LeftmostMatch(Trim(notation), pieces)
  }

  /** The descriptor built from the four matched characters at position i. */
  function LooseMoveAt(s: string, i: nat, pieces: set<char>): (r: LooseMove)
    requires i + 4 <= |s| && MatchesAt(s, i, pieces)
    ensures r.raw == s && r.piece == s[i] && r.piece in pieces && r.action == s[i + 2] && ActionOf(r.action).Some?
    ensures Some(r.fromCol) == NumeralValue(s[i + 1]) && Some(r.target) == NumeralValue(s[i + 3])
    ensures 1 <= r.fromCol <= 9 && 1 <= r.target <= 9
  {
    ChineseToNumberAgrees(s[i + 1]);
    ChineseToNumberAgrees(s[i + 3]);
    LooseMove(s[i], ChineseToNumber(s[i + 1]), s[i + 2], ChineseToNumber(s[i + 3]), s)
  }

  /** MoveParser.parseMove as written. */
  function ParseMoveLooseAsWritten(notation: string): Option<LooseMove> {
    LooseParse(notation, PatternPiecesAsWritten())
  }

  /** MoveParser.parseMove with the traditional rook and horse glyphs it is described as reading. */
  function ParseMoveLoose(notation: string): Option<LooseMove> {
    LooseParse(notation, PatternPieces())
  }

  /** Finding: 車二进三, one of the forms the parser is described as supporting, is not read. */
  lemma TraditionalRookUnreadAsWritten(s: string)
    requires |s| == 4 && s[0] == '車' && s[1] == '二' && s[2] == '进' && s[3] == '三'
    ensures ParseMoveLooseAsWritten(s).None?
    ensures ParseMoveLoose(s) == Some(LooseMove('車', 2, '进', 3, s))
  {
    assert NumeralValue(s[1]) == Some(2) && NumeralValue(s[3]) == Some(3);
    assert MatchesAt(s, 0, PatternPieces());
    assert LooseMoveAt(s, 0, PatternPieces()) == LooseMove('車', 2, '进', 3, s);
    TrimIdentity(s);
    assert '車' !in PatternPiecesAsWritten();
    assert !MatchesAt(s, 0, PatternPiecesAsWritten());
    assert FirstMatchFrom(s, 1, PatternPiecesAsWritten()) == None;
    MatchAtStartIsRead(s, PatternPieces());
    assert ParseMoveLoose(s) == LeftmostMatch(s, PatternPieces());
  }

  /** On a move the strict reader accepts with an explicit column and a glyph in the pattern's
      class, the loose reader reads the same piece, column, action and target. */
  lemma LooseAgreesWithStrict(notation: string, moveIndex: int)
    requires notation != [] && MatchesExplicit(Trim(notation)) && Trim(notation)[0] in PatternPieces()
    ensures var s := Trim(notation);
            var strict := ParseMove(notation, moveIndex);
            var loose := ParseMoveLoose(notation);
            && strict.Some? && strict.value.Move? && loose.Some?
            && loose.value.piece == strict.value.pieceChar
            && ColumnToFile(loose.value.fromCol, strict.value.isRed) == strict.value.fromCol.value
            && ActionOf(loose.value.action) == Some(strict.value.action)
            && loose.value.target == strict.value.target
  {
    var s := Trim(notation);
    assert MatchesAt(s, 0, PatternPieces());
    MatchAtStartIsRead(s, PatternPieces());
    ChineseToNumberAgrees(s[1]);
    ChineseToNumberAgrees(s[3]);
  }

  /** When the pattern matches at the very start, the leftmost match is that one. */
  lemma MatchAtStartIsRead(s: string, pieces: set<char>)
    requires 4 <= |s| && MatchesAt(s, 0, pieces)
    ensures LeftmostMatch(s, pieces) == Some(LooseMoveAt(s, 0, pieces))
  {
    assert FirstMatchFrom(s, 0, pieces) == Some(0);
  }
}
