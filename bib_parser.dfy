/**
 * The parser object: it reads the text one character at a time, keeping the
 * line and column counters and the structural brace and parenthesis
 * counters, enumerates tokens on demand, and drives the state machine,
 * building parts in place and adding them to a document object.
 *
 * Each method is proved against the pure definitions: `NextToken` yields
 * exactly what `Scanning.NextToken` describes, and `Parse` returns a
 * document whose value is `Transitions.Parse` of the text, or its error.
 */
module Parsing {
  import opened Wrappers
  import opened Text
  import opened Tokens
  import opened TagValues
  import opened Entries
  import opened Initialization
  import opened Document
  import opened Errors
  import opened Scanning
  import opened Transitions

  /** The value of the part under construction; before the first `@` there is none yet. */
  ghost function EntryValue(e: BibEntry?): PartValue
    reads e
  {
    if e == null then NewPart() else e.Value()
  }

  class BibParser {
    const input: seq<char>
    const init: BibEntryInitialization
    var pos: nat
    var lineCount: int
    var columnCount: int
    var braceCount: int
    var parenthesisCount: int

    ghost predicate Valid()
      reads this
    {
      pos <= |input|
    }

    /** The scanner's state, as the pure tokenizer describes it. */
    function State(): (r: Lexer)
      reads this
      ensures r.pos == pos && r.line == lineCount && r.column == columnCount
      ensures r.braces == braceCount && r.parens == parenthesisCount
    {
      Lexer(pos, lineCount, columnCount, braceCount, parenthesisCount)
    }

    /** A parser over a text, with an initializer for the default tags of each entry type. */
    constructor(text: seq<char>, initializer: BibEntryInitialization)
      ensures Valid() && input == text && init == initializer && State() == Initial()
    {
      input := text;
      init := initializer;
      pos := 0;
      lineCount := 1;
      columnCount := 0;
      braceCount := 0;
      parenthesisCount := 0;
    }

    /** The next character without consuming it, or None at the end of the input. */
    function Peek(): (r: Option<char>)
      reads this
      requires Valid()
      ensures r.None? <==> pos == |input|
      ensures r.Some? ==> r.value == input[pos]
    {
      if pos < |input| then Some(input[pos]) else None
    }

    /** Consumes a character; the column counter advances even at the end of the input. */
    method Read() returns (c: Option<char>)
      requires Valid()
      modifies this
      ensures Valid() && columnCount == old(columnCount) + 1
      ensures c == old(Peek())
      ensures c.Some? ==> pos == old(pos) + 1
      ensures c.None? ==> pos == old(pos)
      ensures lineCount == old(lineCount) && braceCount == old(braceCount) && parenthesisCount == old(parenthesisCount)
    {
      columnCount := columnCount + 1;
      if pos < |input| {
        c := Some(input[pos]);
        pos := pos + 1;
      } else {
        c := None;
      }
    }

    /** The reader's `ReadLine`: the rest of the line, then its terminator is skipped; the counters are left alone. */
    method ReadLine() returns (line: string)
      requires Valid()
      modifies this
      ensures Valid()
      ensures line == input[old(pos)..LineEnd(input, old(pos))]
      ensures pos == AfterLine(input, LineEnd(input, old(pos)))
      ensures lineCount == old(lineCount) && columnCount == old(columnCount)
      ensures braceCount == old(braceCount) && parenthesisCount == old(parenthesisCount)
    {
      var start := pos;
      line := [];
      while pos < |input| && input[pos] != '\n' && input[pos] != '\r'
        invariant start <= pos <= |input| && LineEnd(input, pos) == LineEnd(input, start)
        invariant line == input[start..pos]
        invariant lineCount == old(lineCount) && columnCount == old(columnCount)
        invariant braceCount == old(braceCount) && parenthesisCount == old(parenthesisCount)
        decreases |input| - pos
      {
        line := line + [input[pos]];
        pos := pos + 1;
      }
      if pos < |input| {
        if input[pos] == '\r' && pos + 1 < |input| && input[pos + 1] == '\n' {
          pos := pos + 2;
        } else {
          pos := pos + 1;
        }
      }
    }

    /** A run of string characters: a name, or the `string` keyword. */
    method ScanName() returns (t: Token)
      requires Valid() && pos < |input| && IsStringCharacter(input[pos])
      modifies this
      ensures Valid() && Scanning.NameResult(input, old(State())) == Produced(t, State())
    {
      var start := pos;
      var value: string := [];
      ghost var s0 := State();
      var code := Peek();
      while code.Some? && IsStringCharacter(code.value)
        invariant Valid() && start <= pos && NameEnd(input, pos) == NameEnd(input, start)
        invariant code == Peek() && value == input[start..pos]
        invariant columnCount == s0.column + (pos - start)
        invariant lineCount == s0.line && braceCount == s0.braces && parenthesisCount == s0.parens
        decreases |input| - pos
      {
        ghost var p := pos;
        assert NameEnd(input, p) == NameEnd(input, p + 1);
        var c := Read();
        assert c == Some(input[p]) && pos == p + 1;
        value := value + [c.value];
        SliceSnoc(input, start, p);
        code := Peek();
      }
      assert NameEnd(input, pos) == pos;
      t := Token(if Lower(value) == "string" then StringType else Name, value);
    }

    /**
     * A quoted string: the characters up to the closing quote, which must be
     * at brace balance 0 and not follow a backslash; the quote is consumed.
     */
    method ScanQuoted() returns (t: Token)
      requires Valid() && pos < |input| && input[pos] == '"'
      modifies this
      ensures Valid() && Scanning.QuotedResult(input, old(State())) == Produced(t, State())
    {
      var start := pos + 1;
      var c := '"';
      var count := 0;
      var value: string := [];
      ghost var s0 := State();
      ghost var e := QuoteEnd(input, start, 0);
      ghost var depth := 0;
      var _ := Read();
      while pos < |input|
        invariant Valid() && start <= pos && input[pos - 1] == c
        invariant depth == count + Delta(c) && QuoteEnd(input, pos, depth) == e
        invariant value == input[start..pos]
        invariant columnCount == s0.column + (pos - s0.pos)
        invariant lineCount == s0.line && braceCount == s0.braces && parenthesisCount == s0.parens
        decreases |input| - pos
      {
        ghost var p := pos;
        if c == '{' {
          count := count + 1;
        } else if c == '}' {
          count := count - 1;
        }
        assert count == depth;
        if count == 0 && c != '\\' && input[pos] == '"' {
          assert e == p;
          var _ := Read();
          t := Token(String, value);
          return;
        }
        QuoteStep(input, p, count);
        var r := Read();
        assert r == Some(input[p]) && pos == p + 1;
        c := r.value;
        depth := count + Delta(c);
        value := value + [c];
        SliceSnoc(input, start, p);
      }
      t := Token(String, value);
    }

    /** One character inside a braced group: the depth it leaves and the text kept so far. */
    method GroupChar(start: nat, count: int, value: string) returns (count': int, value': string)
      requires Valid() && start <= pos < |input| && count > 0 && value == input[start..pos]
      modifies this
      ensures Valid() && pos == old(pos) + 1 && count' == count + Delta(input[old(pos)])
      ensures GroupEnd(input, old(pos), count) == GroupEnd(input, pos, count')
      ensures count' > 0 ==> value' == input[start..pos]
      ensures count' <= 0 ==> value' == input[start..pos - 1]
      ensures columnCount == old(columnCount) + 1 && lineCount == old(lineCount)
      ensures braceCount == old(braceCount) && parenthesisCount == old(parenthesisCount)
    {
      ghost var p := pos;
      var r := Read();
      assert r == Some(input[p]) && pos == p + 1;
      var c := r.value;
      count' := count;
      if c == '{' {
        count' := count + 1;
      } else if c == '}' {
        count' := count - 1;
      }
      value' := value;
      if count' > 0 {
        value' := value + [c];
        SliceSnoc(input, start, p);
      }
    }

    /**
     * A braced group inside an entry: the text up to the matching `}`, outer
     * braces dropped, inner ones kept; or the rest of the input when unclosed.
     */
    method ScanGroup() returns (t: Token)
      requires Valid() && pos < |input| && input[pos] == '{' && !(braceCount == 0 && parenthesisCount == 0)
      modifies this
      ensures Valid() && Scanning.GroupResult(input, old(State())) == Produced(t, State())
    {
      var start := pos + 1;
      var value: string := [];
      ghost var s0 := State();
      var _ := Read();
      var count := 1;
      while count > 0 && Peek().Some?
        invariant Valid() && start <= pos
        invariant GroupEnd(input, pos, count) == GroupEnd(input, start, 1)
        invariant count > 0 ==> value == input[start..pos]
        invariant count <= 0 ==> start < pos && value == input[start..pos - 1]
        invariant columnCount == s0.column + (pos - s0.pos)
        invariant lineCount == s0.line && braceCount == s0.braces && parenthesisCount == s0.parens
        decreases |input| - pos
      {
        count, value := GroupChar(start, count, value);
      }
      GroupDone(input, start, pos, count);
      t := Token(String, value);
    }

    /**
     * One pass of the enumeration's loop on the character at hand: a token, a
     * bad character, or nothing when the character is a newline or white space,
     * which is consumed.
     */
    method Step() returns (r: Option<LexResult>)
      requires Valid() && pos < |input|
      modifies this
      ensures Valid()
      ensures r.Some? ==> r.value == Scanning.NextToken(input, old(State())) && !r.value.Exhausted?
      ensures r.Some? && r.value.Produced? ==> State() == r.value.next
      ensures r.None? ==> old(pos) < pos && Scanning.NextToken(input, State()) == Scanning.NextToken(input, old(State()))
    {
      var c := Peek().value;
      if c == '@' {
        var _ := Read();
        return Some(Produced(Bare(Start), State()));
      } else if IsStringCharacter(c) {
        var t := ScanName();
        return Some(Produced(t, State()));
      } else if c == '"' {
        var t := ScanQuoted();
        return Some(Produced(t, State()));
      } else if c == '{' {
        if braceCount == 0 && parenthesisCount == 0 {
          braceCount := braceCount + 1;
          var _ := Read();
          return Some(Produced(Bare(LeftBrace), State()));
        } else {
          var t := ScanGroup();
          return Some(Produced(t, State()));
        }
      } else if c == '}' {
        var _ := Read();
        braceCount := braceCount - 1;
        return Some(Produced(Bare(RightBrace), State()));
      } else {
        r := StepRest(c);
      }
    }

    /** The rest of `Step`: parentheses and punctuation, then `StepSpace`. */
    method StepRest(c: char) returns (r: Option<LexResult>)
      requires Valid() && pos < |input| && c == input[pos]
      requires c != '@' && !IsStringCharacter(c) && c != '"' && c != '{' && c != '}'
      modifies this
      ensures Valid()
      ensures r.Some? ==> r.value == Scanning.NextToken(input, old(State())) && !r.value.Exhausted?
      ensures r.Some? && r.value.Produced? ==> State() == r.value.next
      ensures r.None? ==> old(pos) < pos && Scanning.NextToken(input, State()) == Scanning.NextToken(input, old(State()))
    {
      if c == '(' {
        var _ := Read();
        parenthesisCount := parenthesisCount + 1;
        return Some(Produced(Bare(LeftParenthesis), State()));
      } else if c == ')' {
        var _ := Read();
        parenthesisCount := parenthesisCount - 1;
        return Some(Produced(Bare(RightParenthesis), State()));
      } else if c == ',' {
        var _ := Read();
        return Some(Produced(Bare(Comma), State()));
      } else if c == '#' {
        var _ := Read();
        return Some(Produced(Bare(Concatenation), State()));
      } else if c == '=' {
        var _ := Read();
        return Some(Produced(Bare(Equal), State()));
      } else {
        r := StepSpace(c);
      }
    }

    /** The last branches of `Step`: newlines, comments, white space and bad characters. */
    method StepSpace(c: char) returns (r: Option<LexResult>)
      requires Valid() && pos < |input| && c == input[pos]
      requires c != '@' && !IsStringCharacter(c) && c != '"' && c != '{' && c != '}'
      requires c != '(' && c != ')' && c != ',' && c != '#' && c != '='
      modifies this
      ensures Valid()
      ensures r.Some? ==> r.value == Scanning.NextToken(input, old(State())) && !r.value.Exhausted?
      ensures r.Some? && r.value.Produced? ==> State() == r.value.next
      ensures r.None? ==> old(pos) < pos && Scanning.NextToken(input, State()) == Scanning.NextToken(input, old(State()))
    {
      if c == '\n' {
        var _ := Read();
        columnCount := 0;
        lineCount := lineCount + 1;
        return None;
      } else if c == '%' {
        columnCount := 0;
        lineCount := lineCount + 1;
        var line := ReadLine();
        return Some(Produced(Token(Comment, line), State()));
      } else if !IsWhiteSpace(c) {
        return Some(Unrecognizable(lineCount, columnCount, c));
      } else {
        var _ := Read();
        return None;
      }
    }

    /**
     * One step of the token enumeration, skipping white space and newlines.
     * A character that starts no token is reported with the counters where it stands.
     */
    method NextToken() returns (r: LexResult)
      requires Valid()
      modifies this
      ensures Valid()
      ensures r == Scanning.NextToken(input, old(State()))
      ensures r.Produced? || r.Exhausted? ==> State() == r.next
      ensures r.Produced? ==> old(pos) < pos
    {
      var code := Peek();
      while code.Some?
        invariant Valid() && code == Peek()
        invariant Scanning.NextToken(input, State()) == Scanning.NextToken(input, old(State()))
        invariant old(pos) <= pos
        decreases |input| - pos
      {
        var step := Step();
        if step.Some? {
          return step.value;
        }
        code := Peek();
      }
      return Exhausted(State());
    }

    /**
     * The builder action of one accepted token: it updates the document, the
     * part under construction, the pending tag name, the literal flag and the
     * value accumulator as `Apply` describes, or fails as `Apply` does.
     */
    method Perform(action: BuilderAction, token: Token, dom: BibliographyDOM, entry: BibEntry?,
                   name: string, isString: bool, value: string)
      returns (bibEntry: BibEntry?, tagName: string, tagValueIsString: bool, tagValueBuilder: string, error: Option<ParseError>)
      requires entry != null ==> entry.Valid()
      requires action == SetType || action == SetKey || action == SetTag || action == Build ==>
        entry != null && entry !in dom.entries && entry !in dom.strings
      modifies dom, entry
      ensures bibEntry != null ==> bibEntry.Valid()
      ensures action == Create ==> fresh(bibEntry) && bibEntry != null
      ensures action != Create ==> bibEntry == entry
      ensures action != Build ==> dom.entries == old(dom.entries) && dom.strings == old(dom.strings)
      ensures match Apply(Builder(old(dom.Value()), old(EntryValue(entry)), name, isString, value), action, token, init)
        case Failure(e) => error == Some(e)
        case Success(b') => error == None && b' == Builder(dom.Value(), EntryValue(bibEntry), tagName, tagValueIsString, tagValueBuilder)
    {
      ghost var b := Builder(dom.Value(), EntryValue(entry), name, isString, value);
      bibEntry, tagName, tagValueIsString, tagValueBuilder, error := entry, name, isString, value, None;
      match action {
        case SetHeader =>
          dom.AddHeaderLine(token.value);
          assert Apply(b, SetHeader, token, init)
              == Success(Builder(dom.Value(), EntryValue(bibEntry), tagName, tagValueIsString, tagValueBuilder));
        case Create =>
          bibEntry := new BibEntry();
          assert EntryValue(bibEntry) == NewPart();
          assert dom.Value() == b.doc;
          assert Apply(b, Create, token, init)
              == Success(Builder(dom.Value(), EntryValue(bibEntry), tagName, tagValueIsString, tagValueBuilder));
        case SetType =>
          bibEntry.SetType(token.value);
          var names := init.GetTagsOf(bibEntry);
          if names.Failure? {
            return bibEntry, tagName, tagValueIsString, tagValueBuilder, Some(TemplateNotFound(names.error));
          }
          bibEntry.Initialize(names.value);
          assert dom.Value() == b.doc;
          assert Apply(b, SetType, token, init)
              == Success(Builder(dom.Value(), EntryValue(bibEntry), tagName, tagValueIsString, tagValueBuilder));
        case SetKey =>
          bibEntry.SetKey(token.value);
          assert dom.Value() == b.doc;
          assert Apply(b, SetKey, token, init)
              == Success(Builder(dom.Value(), EntryValue(bibEntry), tagName, tagValueIsString, tagValueBuilder));
        case SetTagName =>
          tagName := token.value;
          assert Apply(b, SetTagName, token, init)
              == Success(Builder(dom.Value(), EntryValue(bibEntry), tagName, tagValueIsString, tagValueBuilder));
        case SetTagValue =>
          if token.kind != Concatenation {
            tagValueIsString := token.kind == String;
          }
          tagValueBuilder := tagValueBuilder + token.value;
          assert Apply(b, SetTagValue, token, init)
              == Success(Builder(dom.Value(), EntryValue(bibEntry), tagName, tagValueIsString, tagValueBuilder));
        case SetTag =>
          bibEntry.SetTagValue(tagName, TagValue(tagValueBuilder, tagValueIsString));
          tagValueBuilder := "";
          tagName := "";
          assert dom.Value() == b.doc;
          assert Apply(b, SetTag, token, init)
              == Success(Builder(dom.Value(), EntryValue(bibEntry), tagName, tagValueIsString, tagValueBuilder));
        case Build =>
          if tagName != "" {
            bibEntry.Set(tagName, tagValueBuilder);
            tagValueBuilder := "";
            tagName := "";
          }
          assert dom.Value() == b.doc;
          dom.AddBibPart(bibEntry);
          assert Apply(b, Build, token, init)
              == Success(Builder(dom.Value(), EntryValue(bibEntry), tagName, tagValueIsString, tagValueBuilder));
        case Skip =>
          assert Apply(b, Skip, token, init)
              == Success(Builder(dom.Value(), EntryValue(bibEntry), tagName, tagValueIsString, tagValueBuilder));
      }
    }

    /**
     * Parses the whole text: the document object built from it, or the first
     * error (a character no token starts with, a token the current state does
     * not accept, the end of the input inside an entry, a missing template).
     */
    method Parse() returns (r: Result<BibliographyDOM, ParseError>)
      requires Valid() && State() == Initial()
      modifies this
      ensures r.Success? <==> Transitions.Parse(input, init).Success?
      ensures r.Success? ==> fresh(r.value) && r.value.Value() == Transitions.Parse(input, init).value
      ensures r.Failure? ==> r.error == Transitions.Parse(input, init).error
    {
      var dom := new BibliographyDOM();
      var curState := Begin;
      var bibEntry: BibEntry? := null;
      var tagName := "";
      var tagValueIsString := false;
      var tagValueBuilder := "";
      ghost var spec := Transitions.Parse(input, init);
      while true
        invariant Valid() && fresh(dom)
        invariant bibEntry != null ==> fresh(bibEntry) && bibEntry.Valid()
        invariant !(curState == Begin || curState == InHeader) ==> bibEntry != null
        invariant MidEntry(curState) ==> bibEntry !in dom.entries && bibEntry !in dom.strings
        invariant RunFrom(input, State(), init, curState,
                          Builder(dom.Value(), EntryValue(bibEntry), tagName, tagValueIsString, tagValueBuilder)) == spec
        decreases |input| - pos
      {
        ghost var b := Builder(dom.Value(), EntryValue(bibEntry), tagName, tagValueIsString, tagValueBuilder);
        ghost var s := State();
        assert RunFrom(input, s, init, curState, b) == spec;
        var lex := NextToken();
        assert b == Builder(dom.Value(), EntryValue(bibEntry), tagName, tagValueIsString, tagValueBuilder);
        if lex.Exhausted? {
          RunFromEnd(input, s, init, curState, b);
          assert spec == if curState == OutEntry then Success(dom.Value())
                         else Failure(UnexpectedToken(lineCount, columnCount, EOF, Expected(curState)));
          break;
        } else if lex.Unrecognizable? {
          RunFromBad(input, s, init, curState, b);
          assert spec == Failure(UnrecognizableCharacter(lex.line, lex.column, lex.c));
          return Failure(UnrecognizableCharacter(lex.line, lex.column, lex.c));
        }
        var token := lex.token;
        var found := Lookup(curState, token.kind);
        if found.None? {
          RunFromUnexpected(input, s, init, curState, b);
          assert spec == Failure(UnexpectedToken(lineCount, columnCount, token.kind, Expected(curState)));
          return Failure(UnexpectedToken(lineCount, columnCount, token.kind, Expected(curState)));
        }
        var tr := found.value;
        TransitionShape(curState, token.kind);
        RunFromAccepted(input, s, init, curState, b, tr);
        var error;
        bibEntry, tagName, tagValueIsString, tagValueBuilder, error :=
          Perform(tr.action, token, dom, bibEntry, tagName, tagValueIsString, tagValueBuilder);
        if error.Some? {
          assert spec == Failure(error.value);
          return Failure(error.value);
        }
        ghost var b' := Builder(dom.Value(), EntryValue(bibEntry), tagName, tagValueIsString, tagValueBuilder);
        assert Apply(b, tr.action, token, init) == Success(b');
        assert RunFrom(input, State(), init, tr.next, b') == spec;
        curState := tr.next;
      }
      if curState != OutEntry {
        return Failure(UnexpectedToken(lineCount, columnCount, EOF, Expected(curState)));
      }
      return Success(dom);
    }
  }
}
