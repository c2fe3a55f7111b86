/**
 * The tokenizer, as a function of the input text and the scanner's state:
 * the read position, the line and column counters, and the structural brace
 * and parenthesis counters. `NextToken` is what one step of the lazy token
 * enumeration yields; `Tokenize` is the whole enumeration.
 */
module Scanning {
  import opened Text
  import opened Tokens

  /** `char.IsLetterOrDigit`, restricted to ASCII letters and digits. */
  predicate IsLetterOrDigit(c: char) {
    'a' <= c <= 'z' || 'A' <= c <= 'Z' || '0' <= c <= '9'
  }

  /** `char.IsWhiteSpace`: the Unicode white-space characters. */
  predicate IsWhiteSpace(c: char) {
    '\t' <= c <= '\r' || c == ' ' || c == '\U{85}' || c == '\U{A0}' || c == '\U{1680}'
    || '\U{2000}' <= c <= '\U{200A}' || c == '\U{2028}' || c == '\U{2029}'
    || c == '\U{202F}' || c == '\U{205F}' || c == '\U{3000}'
  }

  /** Characters that make up names, keys and numbers. */
  predicate IsStringCharacter(c: char) {
    IsLetterOrDigit(c) || c == '-' || c == '.' || c == '_' || c == '\U{2014}' || c == ':' || c == '/' || c == '\\'
  }

  /** The scanner's state. */
  datatype Lexer = Lexer(pos: nat, line: int, column: int, braces: int, parens: int)

  /** The state at the start of the input: line 1, column 0, no open braces or parentheses. */
  function Initial(): Lexer {
    Lexer(0, 1, 0, 0, 0)
  }

  /** One step of the enumeration: a token and the state after it, the end of the input, or a bad character. */
  datatype LexResult =
    | Produced(token: Token, next: Lexer)
    | Exhausted(next: Lexer)
    | Unrecognizable(line: int, column: int, c: char)

  /** The change a character makes to a brace depth. */
  function Delta(c: char): int {
    if c == '{' then 1 else if c == '}' then -1 else 0
  }

  /** Open minus closed braces in `s`. */
  function Balance(s: seq<char>): int
    decreases |s|
  {
    if s == [] then 0 else Balance(s[..|s| - 1]) + Delta(s[|s| - 1])
  }

  /** The end of the run of string characters starting at `j`. */
  function NameEnd(input: seq<char>, j: nat): (e: nat)
    requires j <= |input|
    ensures j <= e <= |input|
    decreases |input| - j
  {
    if j < |input| && IsStringCharacter(input[j]) then NameEnd(input, j + 1) else j
  }

  /**
   * Where a quoted string's content ends, scanning from `j` with `depth` the
   * brace balance of the content read so far: at a `"` whose previous
   * character is not `\` while the balance is 0, or at the end of the input.
   */
  function QuoteEnd(input: seq<char>, j: nat, depth: int): (e: nat)
    requires 1 <= j <= |input|
    ensures j <= e <= |input|
    decreases |input| - j
  {
    if j == |input| then j
    else if depth == 0 && input[j - 1] != '\\' && input[j] == '"' then j
    else QuoteEnd(input, j + 1, depth + Delta(input[j]))
  }

  /**
   * Reading a braced group from `j` with `depth` braces open: the position
   * after the brace that closes it, and whether it was closed before the end
   * of the input.
   */
  function GroupEnd(input: seq<char>, j: nat, depth: int): (r: (nat, bool))
    requires j <= |input|
    ensures j <= r.0 <= |input|
    ensures !r.1 ==> r.0 == |input|
    decreases |input| - j
  {
    if depth <= 0 then (j, true)
    else if j == |input| then (j, false)
    else GroupEnd(input, j + 1, depth + Delta(input[j]))
  }

  /** The end of the line starting at `j` (before its terminator). */
  function LineEnd(input: seq<char>, j: nat): (e: nat)
    requires j <= |input|
    ensures j <= e <= |input|
    decreases |input| - j
  {
    if j == |input| || input[j] == '\n' || input[j] == '\r' then j else LineEnd(input, j + 1)
  }

  /** The position after a line terminator at `e`: "\r\n" counts as one. */
  function AfterLine(input: seq<char>, e: nat): (r: nat)
    requires e <= |input|
    ensures e <= r <= |input|
  {
    if e == |input| then e
    else if input[e] == '\r' && e + 1 < |input| && input[e + 1] == '\n' then e + 2
    else e + 1
  }

  /** A one-character token: the character is read, the column advances. */
  function Single(s: Lexer, kind: TokenType): LexResult {
    Produced(Bare(kind), s.(pos := s.pos + 1, column := s.column + 1))
  }

  /** A run of string characters from `s.pos`: a name, or the `string` keyword in any case. */
  function NameResult(input: seq<char>, s: Lexer): LexResult
    requires s.pos < |input|
  {
    var e := NameEnd(input, s.pos);
    var v := input[s.pos..e];
    Produced(Token(if Lower(v) == "string" then StringType else Name, v), s.(pos := e, column := s.column + (e - s.pos)))
  }

  /** A quoted string from the `"` at `s.pos`; the closing quote, when there is one, is consumed. */
  function QuotedResult(input: seq<char>, s: Lexer): LexResult
    requires s.pos < |input|
  {
    var e := QuoteEnd(input, s.pos + 1, 0);
    var next := if e < |input| then e + 1 else e;
    Produced(Token(String, input[s.pos + 1..e]), s.(pos := next, column := s.column + (next - s.pos)))
  }

  /** A braced group from the `{` at `s.pos`, without its outer braces. */
  function GroupResult(input: seq<char>, s: Lexer): LexResult
    requires s.pos < |input|
  {
    var (e, closed) := GroupEnd(input, s.pos + 1, 1);
    var content := if closed then input[s.pos + 1..e - 1] else input[s.pos + 1..e];
    Produced(Token(String, content), s.(pos := e, column := s.column + (e - s.pos)))
  }

  /**
   * The next token from state `s`, skipping white space and newlines. Every
   * token consumes input, and the end is reported only at the end of the input.
   */
  function NextToken(input: seq<char>, s: Lexer): (r: LexResult)
    requires s.pos <= |input|
    ensures r.Produced? ==> s.pos < r.next.pos <= |input|
    ensures r.Exhausted? ==> r.next.pos == |input|
    decreases |input| - s.pos
  {
    if s.pos == |input| then Exhausted(s)
    else
      var c := input[s.pos];
      if c == '@' then Single(s, Start)
      else if IsStringCharacter(c) then NameResult(input, s)
      else if c == '"' then QuotedResult(input, s)
      else if c == '{' then
        if s.braces == 0 && s.parens == 0 then
          Produced(Bare(LeftBrace), s.(pos := s.pos + 1, column := s.column + 1, braces := s.braces + 1))
        else GroupResult(input, s)
      else if c == '}' then
        Produced(Bare(RightBrace), s.(pos := s.pos + 1, column := s.column + 1, braces := s.braces - 1))
      else if c == '(' then
        Produced(Bare(LeftParenthesis), s.(pos := s.pos + 1, column := s.column + 1, parens := s.parens + 1))
      else if c == ')' then
        Produced(Bare(RightParenthesis), s.(pos := s.pos + 1, column := s.column + 1, parens := s.parens - 1))
      else if c == ',' then Single(s, Comma)
      else if c == '#' then Single(s, Concatenation)
      else if c == '=' then Single(s, Equal)
      else if c == '\n' then NextToken(input, s.(pos := s.pos + 1, column := 0, line := s.line + 1))
      else if c == '%' then
        var e := LineEnd(input, s.pos);
        Produced(Token(Comment, input[s.pos..e]), s.(pos := AfterLine(input, e), column := 0, line := s.line + 1))
      else if !IsWhiteSpace(c) then Unrecognizable(s.line, s.column, c)
      else NextToken(input, s.(pos := s.pos + 1, column := s.column + 1))
  }

  /** A step of the enumeration: the token and the scanner's state once it has been read. */
  datatype Step = Step(token: Token, after: Lexer)

  /** How the enumeration ends: at the end of the input, or at a character no token starts with. */
  datatype LexEnd = AtEnd(last: Lexer) | BadCharacter(line: int, column: int, c: char)

  /**
   * The whole enumeration from state `s`: the positions after the tokens
   * strictly increase within the input, so there are at most as many tokens as
   * characters left, and an enumeration that reaches the end has read them all.
   */
  function Tokenize(input: seq<char>, s: Lexer): (r: (seq<Step>, LexEnd))
    requires s.pos <= |input|
    ensures forall k :: 0 <= k < |r.0| ==> s.pos < r.0[k].after.pos <= |input|
    ensures forall k :: 0 < k < |r.0| ==> r.0[k - 1].after.pos < r.0[k].after.pos
    ensures |r.0| <= |input| - s.pos
    ensures r.1.AtEnd? ==> r.1.last.pos == |input|
    decreases |input| - s.pos
  {
    match NextToken(input, s)
    case Exhausted(last) => ([], AtEnd(last))
    case Unrecognizable(line, column, c) => ([], BadCharacter(line, column, c))
    case Produced(t, next) =>
      var (rest, end) := Tokenize(input, next);
      ([Step(t, next)] + rest, end)
  }

  /** A name token is the longest run of string characters from where it starts. */
  lemma {:induction false} NameEndMaximal(input: seq<char>, j: nat)
    requires j <= |input|
    ensures forall k :: j <= k < NameEnd(input, j) ==> IsStringCharacter(input[k])
    ensures NameEnd(input, j) == |input| || !IsStringCharacter(input[NameEnd(input, j)])
    decreases |input| - j
  {
    if j < |input| && IsStringCharacter(input[j]) {
      NameEndMaximal(input, j + 1);
    }
  }

  /** Conversely, a run of string characters followed by another character or the end of the input is where a name ends. */
  lemma {:induction false} NameEndAt(input: seq<char>, j: nat, e: nat)
    requires j <= e <= |input|
    requires forall k :: j <= k < e ==> IsStringCharacter(input[k])
    requires e == |input| || !IsStringCharacter(input[e])
    ensures NameEnd(input, j) == e
    decreases e - j
  {
    if j < e {
      NameEndAt(input, j + 1, e);
    }
  }

  /** A run of string characters is a `StringType` token when it spells `string` in any case, a `Name` otherwise. */
  lemma NameToken(input: seq<char>, s: Lexer)
    requires s.pos < |input| && IsStringCharacter(input[s.pos])
    ensures var r := NextToken(input, s);
      var e := NameEnd(input, s.pos);
      r.Produced? && r.token.value == input[s.pos..e] && |r.token.value| > 0 &&
      (r.token.kind == StringType <==> Lower(r.token.value) == "string") &&
      (r.token.kind == Name <==> Lower(r.token.value) != "string") &&
      (forall k :: s.pos <= k < e ==> IsStringCharacter(input[k])) &&
      (e == |input| || !IsStringCharacter(input[e])) &&
      r.next == s.(pos := e, column := s.column + (e - s.pos))
  {
    NameEndMaximal(input, s.pos);
    assert input[s.pos] != '@' && input[s.pos] != '"';
  }

  /** Whether the quoted string that started at `start` stops at `k`. */
  predicate QuoteStopsAt(input: seq<char>, start: nat, k: nat)
    requires 1 <= start <= k < |input|
  {
    input[k] == '"' && input[k - 1] != '\\' && Balance(input[start..k]) == 0
  }

  lemma BalanceSnoc(s: seq<char>, i: nat, j: nat)
    requires i <= j < |s|
    ensures Balance(s[i..j + 1]) == Balance(s[i..j]) + Delta(s[j])
  {
    assert s[i..j + 1][..j - i] == s[i..j];
  }

  /** A quoted string stops at the first stopping point, or runs to the end of the input. */
  lemma {:induction false} QuoteEndFirst(input: seq<char>, start: nat, j: nat, depth: int)
    requires 1 <= start <= j <= |input| && depth == Balance(input[start..j])
    requires forall k :: start <= k < j ==> !QuoteStopsAt(input, start, k)
    ensures var e := QuoteEnd(input, j, depth);
      (e == |input| || QuoteStopsAt(input, start, e)) &&
      forall k :: start <= k < e ==> !QuoteStopsAt(input, start, k)
    decreases |input| - j
  {
    if j < |input| && !(depth == 0 && input[j - 1] != '\\' && input[j] == '"') {
      BalanceSnoc(input, start, j);
      QuoteEndFirst(input, start, j + 1, depth + Delta(input[j]));
    }
  }

  /**
   * A `"` starts a string token holding everything up to the first `"` that
   * follows a character other than `\` at brace balance 0; that quote is
   * consumed. Without one, the token holds the rest of the input.
   */
  lemma QuotedToken(input: seq<char>, s: Lexer)
    requires s.pos < |input| && input[s.pos] == '"'
    ensures var r := NextToken(input, s);
      var start := s.pos + 1;
      var e := QuoteEnd(input, start, 0);
      r.Produced? && r.token == Token(String, input[start..e]) &&
      (e == |input| || QuoteStopsAt(input, start, e)) &&
      (forall k :: start <= k < e ==> !QuoteStopsAt(input, start, k)) &&
      r.next.pos == (if e < |input| then e + 1 else e) &&
      r.next.column == s.column + (r.next.pos - s.pos) && r.next.line == s.line
  {
    assert input[s.pos + 1..s.pos + 1] == [];
    QuoteEndFirst(input, s.pos + 1, s.pos + 1, 0);
    assert !IsStringCharacter(input[s.pos]);
  }

  /** A slice grows by the element at its end. */
  lemma SliceSnoc(s: seq<char>, i: nat, j: nat)
    requires i <= j < |s|
    ensures s[i..j + 1] == s[i..j] + [s[j]]
  {
  }

  /** Where a group read stops: at its closing brace, or at the end of the input. */
  lemma GroupDone(input: seq<char>, start: nat, j: nat, depth: int)
    requires start <= j <= |input| && GroupEnd(input, j, depth) == GroupEnd(input, start, 1)
    requires depth <= 0 || j == |input|
    ensures GroupEnd(input, start, 1) == (j, depth <= 0)
  {
  }

  /** One character of a quoted string that does not stop it. */
  lemma QuoteStep(input: seq<char>, j: nat, depth: int)
    requires 1 <= j < |input| && !(depth == 0 && input[j - 1] != '\\' && input[j] == '"')
    ensures QuoteEnd(input, j, depth) == QuoteEnd(input, j + 1, depth + Delta(input[j]))
  {
  }

  /** Reading a group keeps it open until the brace that closes it. */
  lemma {:induction false} GroupEndBalance(input: seq<char>, start: nat, j: nat, depth: int)
    requires start <= j <= |input| && depth == 1 + Balance(input[start..j])
    requires forall k :: start <= k < j ==> 1 + Balance(input[start..k]) > 0
    ensures var (e, closed) := GroupEnd(input, j, depth);
      (forall k :: start <= k < e ==> 1 + Balance(input[start..k]) > 0) &&
      (closed ==> start < e && 1 + Balance(input[start..e]) == 0) &&
      (!closed ==> 1 + Balance(input[start..e]) > 0)
    decreases |input| - j
  {
    if depth > 0 && j < |input| {
      BalanceSnoc(input, start, j);
      GroupEndBalance(input, start, j + 1, depth + Delta(input[j]));
    } else if depth <= 0 {
      assert j != start;
      BalanceSnoc(input, start, j - 1);
    }
  }

  /**
   * A `{` inside an entry (a structural brace or parenthesis is already open)
   * starts a string token: the text up to its matching `}`, outer braces
   * stripped and inner ones kept, so the content is balanced. An unclosed
   * group runs to the end of the input.
   */
  lemma GroupToken(input: seq<char>, s: Lexer)
    requires s.pos < |input| && input[s.pos] == '{' && !(s.braces == 0 && s.parens == 0)
    ensures var r := NextToken(input, s);
      var (e, closed) := GroupEnd(input, s.pos + 1, 1);
      r.Produced? && r.token.kind == String && r.next.pos == e &&
      r.next.column == s.column + (e - s.pos) && r.next.line == s.line &&
      r.next.braces == s.braces && r.next.parens == s.parens &&
      (closed ==> input[e - 1] == '}' && r.token.value == input[s.pos + 1..e - 1] && Balance(r.token.value) == 0) &&
      (!closed ==> e == |input| && r.token.value == input[s.pos + 1..])
  {
    var start := s.pos + 1;
    assert input[start..start] == [];
    GroupEndBalance(input, start, start, 1);
    var (e, closed) := GroupEnd(input, start, 1);
    if closed {
      assert 1 + Balance(input[start..e - 1]) > 0;
      BalanceSnoc(input, start, e - 1);
    }
    assert !IsStringCharacter(input[s.pos]);
  }

  /** A `{` outside any entry is the structural brace, and opens one. */
  lemma StructuralBrace(input: seq<char>, s: Lexer)
    requires s.pos < |input| && input[s.pos] == '{' && s.braces == 0 && s.parens == 0
    ensures NextToken(input, s) == Produced(Bare(LeftBrace), s.(pos := s.pos + 1, column := s.column + 1, braces := 1))
  {
    assert !IsStringCharacter(input[s.pos]);
  }

  /** A newline is skipped: the column restarts at 0 on the next line. */
  lemma NewlineSkipped(input: seq<char>, s: Lexer)
    requires s.pos < |input| && input[s.pos] == '\n'
    ensures NextToken(input, s) == NextToken(input, s.(pos := s.pos + 1, column := 0, line := s.line + 1))
  {
    assert !IsStringCharacter(input[s.pos]);
  }

  /** Any other white space produces no token and moves one column on, on the same line. */
  lemma WhiteSpaceSkipped(input: seq<char>, s: Lexer)
    requires s.pos < |input| && IsWhiteSpace(input[s.pos]) && input[s.pos] != '\n'
    ensures NextToken(input, s) == NextToken(input, s.(pos := s.pos + 1, column := s.column + 1))
  {
    assert !IsStringCharacter(input[s.pos]);
  }

  lemma {:induction false} LineEndFirst(input: seq<char>, j: nat)
    requires j <= |input|
    ensures forall k :: j <= k < LineEnd(input, j) ==> input[k] != '\n' && input[k] != '\r'
    ensures LineEnd(input, j) == |input| || input[LineEnd(input, j)] == '\n' || input[LineEnd(input, j)] == '\r'
    decreases |input| - j
  {
    if !(j == |input| || input[j] == '\n' || input[j] == '\r') {
      LineEndFirst(input, j + 1);
    }
  }

  /**
   * A `%` starts a comment token holding the rest of the line, the `%`
   * included and the terminator excluded; the line counter advances and the
   * column restarts at 0.
   */
  lemma CommentToken(input: seq<char>, s: Lexer)
    requires s.pos < |input| && input[s.pos] == '%'
    ensures var r := NextToken(input, s);
      r.Produced? && r.token.kind == Comment &&
      |r.token.value| > 0 && r.token.value[0] == '%' && r.token.value == input[s.pos..LineEnd(input, s.pos)] &&
      (forall k :: 0 <= k < |r.token.value| ==> r.token.value[k] != '\n' && r.token.value[k] != '\r') &&
      r.next.line == s.line + 1 && r.next.column == 0 &&
      r.next.pos == AfterLine(input, LineEnd(input, s.pos)) &&
      r.next.braces == s.braces && r.next.parens == s.parens
  {
    LineEndFirst(input, s.pos);
    assert !IsStringCharacter(input[s.pos]);
  }

  /** A character that starts no token and is not white space is reported where it stands. */
  lemma UnrecognizedCharacter(input: seq<char>, s: Lexer)
    requires s.pos < |input|
    requires var c := input[s.pos];
      !IsStringCharacter(c) && !IsWhiteSpace(c) && c !in "@\"{}(),#=%"
    ensures NextToken(input, s) == Unrecognizable(s.line, s.column, input[s.pos])
  {
    assert input[s.pos] != '\n';
  }

  /**
   * A single-character token advances the column by one on the same line;
   * its kind is given by the character, `}` closes a brace level, `(` and
   * `)` open and close a parenthesis level, and nothing else moves a counter.
   */
  lemma SingleCharacterTokens(input: seq<char>, s: Lexer)
    requires s.pos < |input| && input[s.pos] in "@}(),#="
    ensures var r := NextToken(input, s); var c := input[s.pos];
      r.Produced? && r.token.value == "" && r.next.pos == s.pos + 1 &&
      r.next.column == s.column + 1 && r.next.line == s.line &&
      r.token.kind == (if c == '@' then Start else if c == '}' then RightBrace
        else if c == '(' then LeftParenthesis else if c == ')' then RightParenthesis
        else if c == ',' then Comma else if c == '#' then Concatenation else Equal) &&
      r.next.braces == (if c == '}' then s.braces - 1 else s.braces) &&
      r.next.parens == (if c == '(' then s.parens + 1 else if c == ')' then s.parens - 1 else s.parens)
  {
    assert !IsStringCharacter(input[s.pos]);
  }
}
