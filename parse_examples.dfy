/**
 * Concrete parses from the library's unit tests, stated against the pure
 * parse. Each example fixes the token enumeration one token at a time, then
 * runs the table over those tokens one at a time, for any text that lexes
 * the same way, so that no proof has to evaluate the tokenizer on a literal.
 */
module Examples {
  import opened Wrappers
  import opened Text
  import opened Tokens
  import opened Errors
  import opened Entries
  import Document
  import opened Scanning
  import opened Transitions
  import opened Initialization
  import Tags
  import opened TagValues

  /** One accepted token with an action that succeeds. */
  lemma Accept(input: seq<char>, s: Lexer, init: BibEntryInitialization, state: ParserState, b: Builder,
               t: Token, next: Lexer, tr: Transition, b': Builder)
    requires s.pos <= |input| && NextToken(input, s) == Produced(t, next)
    requires Lookup(state, t.kind) == Some(tr) && Apply(b, tr.action, t, init) == Success(b')
    ensures next.pos <= |input|
    ensures RunFrom(input, s, init, state, b) == RunFrom(input, next, init, tr.next, b')
  {
    RunFromAccepted(input, s, init, state, b, tr);
  }

  /** Empty input stops in `Begin`, which expects a comment or an `@`. */
  lemma EmptyInput()
    ensures Parse("", Default()) == Failure(UnexpectedToken(1, 0, EOF, [Comment, Start]))
  {
    assert NextToken("", Initial()) == Exhausted(Initial());
    assert Tokenize("", Initial()) == ([], AtEnd(Initial()));
    assert Expected(Begin) == [Comment, Start];
  }

  /** A text that starts with `@book{`. */
  predicate OpensBook(input: seq<char>) {
    |input| >= 6 && input[0] == '@' && input[1] == 'b' && input[2] == 'o' && input[3] == 'o' && input[4] == 'k' && input[5] == '{'
  }

  /** The name after the `@` is `book`; the `{` ends it. */
  lemma BookNameEnd(input: seq<char>)
    requires OpensBook(input)
    ensures NameEnd(input, 1) == 5 && input[1..5] == "book"
  {
    assert NameEnd(input, 5) == 5;
    assert NameEnd(input, 3) == NameEnd(input, 5);
    assert NameEnd(input, 1) == NameEnd(input, 3);
  }

  /** Such a text begins with an `@` token ... */
  lemma OpenBookLex0(input: seq<char>)
    requires OpensBook(input)
    ensures NextToken(input, Initial()) == Produced(Bare(Start), Lexer(1, 1, 1, 0, 0))
  {
  }

  /** ... then the name `book` ... */
  lemma OpenBookLex1(input: seq<char>)
    requires OpensBook(input)
    ensures NextToken(input, Lexer(1, 1, 1, 0, 0)) == Produced(Token(Name, "book"), Lexer(5, 1, 5, 0, 0))
  {
    BookNameEnd(input);
    assert Lower("book") == "book";
    assert NextToken(input, Lexer(1, 1, 1, 0, 0)) == NameResult(input, Lexer(1, 1, 1, 0, 0));
  }

  /** ... then the structural brace that opens the entry. */
  lemma OpenBookLex2(input: seq<char>)
    requires OpensBook(input)
    ensures NextToken(input, Lexer(5, 1, 5, 0, 0)) == Produced(Bare(LeftBrace), Lexer(6, 1, 6, 1, 0))
  {
  }

  /** The cells `@book{` passes through; the default initializer gives `book` no tags. */
  lemma OpenCells()
    ensures Lookup(Begin, Start) == Some(Transition(Start, InStart, Create))
    ensures Apply(InitialBuilder(), Create, Bare(Start), Default()) == Success(InitialBuilder())
    ensures Lookup(InStart, Name) == Some(Transition(Name, InEntry, SetType))
    ensures Apply(InitialBuilder(), SetType, Token(Name, "book"), Default()) == Success(InitialBuilder().(entry := PartValue("book", None, [])))
    ensures Lookup(InEntry, LeftBrace) == Some(Transition(LeftBrace, InKey, Skip))
    ensures Apply(InitialBuilder().(entry := PartValue("book", None, [])), Skip, Bare(LeftBrace), Default()) == Success(InitialBuilder().(entry := PartValue("book", None, [])))
  {
    assert Default().GetTags("book") == Success([]);
    assert Tags.Initialize([], []) == [];
  }

  /** Every example below opens with `@book{`: a Create, a SetType and a skipped brace. */
  lemma OpenBook(input: seq<char>)
    requires |input| >= 6
    requires NextToken(input, Initial()) == Produced(Bare(Start), Lexer(1, 1, 1, 0, 0))
    requires NextToken(input, Lexer(1, 1, 1, 0, 0)) == Produced(Token(Name, "book"), Lexer(5, 1, 5, 0, 0))
    requires NextToken(input, Lexer(5, 1, 5, 0, 0)) == Produced(Bare(LeftBrace), Lexer(6, 1, 6, 1, 0))
    ensures Parse(input, Default()) == RunFrom(input, Lexer(6, 1, 6, 1, 0), Default(), InKey, InitialBuilder().(entry := PartValue("book", None, [])))
  {
    var init := Default();
    var b0 := InitialBuilder();
    var b1 := InitialBuilder().(entry := PartValue("book", None, []));
    OpenCells();
    Accept(input, Initial(), init, Begin, b0, Bare(Start), Lexer(1, 1, 1, 0, 0), Transition(Start, InStart, Create), b0);
    Accept(input, Lexer(1, 1, 1, 0, 0), init, InStart, b0, Token(Name, "book"), Lexer(5, 1, 5, 0, 0), Transition(Name, InEntry, SetType), b1);
    Accept(input, Lexer(5, 1, 5, 0, 0), init, InEntry, b1, Bare(LeftBrace), Lexer(6, 1, 6, 1, 0), Transition(LeftBrace, InKey, Skip), b1);
  }

  /** A `}` right after `{` builds an entry of type `book`, which is a reference entry, not a string constant. */
  lemma CloseBook()
    ensures Apply(InitialBuilder().(entry := PartValue("book", None, [])), Build, Bare(RightBrace), Default()) == Success(InitialBuilder().(entry := PartValue("book", None, [])).(doc := Document.DocValue([], [PartValue("book", None, [])], [])))
  {
    var p := PartValue("book", None, []);
    assert Lower("book") == "book";
    assert !Document.IsStringConstant("book");
    assert Document.AddPart(Document.DocValue([], [], []), p) == Document.DocValue([], [] + [p], []);
    assert [] + [p] == [p];
  }

  lemma BadCharacterInNameLex3()
    ensures NextToken("@book{,ti?le = {Hadoop}}", Lexer(6, 1, 6, 1, 0)) == Produced(Bare(Comma), Lexer(7, 1, 7, 1, 0))
  {
  }

  lemma BadCharacterInNameLex4()
    ensures NextToken("@book{,ti?le = {Hadoop}}", Lexer(7, 1, 7, 1, 0)) == Produced(Token(Name, "ti"), Lexer(9, 1, 9, 1, 0))
  {
    NameEndAt("@book{,ti?le = {Hadoop}}", 7, 9);
    assert "@book{,ti?le = {Hadoop}}"[7..9] == "ti";
    assert Lower("ti") == "ti";
  }

  lemma BadCharacterInNameLex5()
    ensures NextToken("@book{,ti?le = {Hadoop}}", Lexer(9, 1, 9, 1, 0)) == Unrecognizable(1, 9, '?')
  {
  }

  lemma BadCharacterInNameCell0()
    ensures Lookup(InKey, Comma) == Some(Transition(Comma, InTagName, Skip))
    ensures Apply(InitialBuilder().(entry := PartValue("book", None, [])), Skip, Bare(Comma), Default())
         == Success(InitialBuilder().(entry := PartValue("book", None, [])))
  {
  }

  lemma BadCharacterInNameStep0(input: seq<char>)
    requires |input| >= 7
    requires NextToken(input, Lexer(6, 1, 6, 1, 0)) == Produced(Bare(Comma), Lexer(7, 1, 7, 1, 0))
    ensures RunFrom(input, Lexer(6, 1, 6, 1, 0), Default(), InKey, InitialBuilder().(entry := PartValue("book", None, [])))
         == RunFrom(input, Lexer(7, 1, 7, 1, 0), Default(), InTagName, InitialBuilder().(entry := PartValue("book", None, [])))
  {
    BadCharacterInNameCell0();
    Accept(input, Lexer(6, 1, 6, 1, 0), Default(), InKey, InitialBuilder().(entry := PartValue("book", None, [])), Bare(Comma), Lexer(7, 1, 7, 1, 0), Transition(Comma, InTagName, Skip), InitialBuilder().(entry := PartValue("book", None, [])));
  }

  lemma BadCharacterInNameCell1()
    ensures Lookup(InTagName, Name) == Some(Transition(Name, InTagEqual, SetTagName))
    ensures Apply(InitialBuilder().(entry := PartValue("book", None, [])), SetTagName, Token(Name, "ti"), Default())
         == Success(InitialBuilder().(entry := PartValue("book", None, []), tagName := "ti"))
  {
  }

  lemma BadCharacterInNameStep1(input: seq<char>)
    requires |input| >= 9
    requires NextToken(input, Lexer(7, 1, 7, 1, 0)) == Produced(Token(Name, "ti"), Lexer(9, 1, 9, 1, 0))
    ensures RunFrom(input, Lexer(7, 1, 7, 1, 0), Default(), InTagName, InitialBuilder().(entry := PartValue("book", None, [])))
         == RunFrom(input, Lexer(9, 1, 9, 1, 0), Default(), InTagEqual, InitialBuilder().(entry := PartValue("book", None, []), tagName := "ti"))
  {
    BadCharacterInNameCell1();
    Accept(input, Lexer(7, 1, 7, 1, 0), Default(), InTagName, InitialBuilder().(entry := PartValue("book", None, [])), Token(Name, "ti"), Lexer(9, 1, 9, 1, 0), Transition(Name, InTagEqual, SetTagName), InitialBuilder().(entry := PartValue("book", None, []), tagName := "ti"));
  }

  lemma BadCharacterInNameStep2(input: seq<char>)
    requires |input| >= 9
    requires NextToken(input, Lexer(9, 1, 9, 1, 0)) == Unrecognizable(1, 9, '?')
    ensures RunFrom(input, Lexer(9, 1, 9, 1, 0), Default(), InTagEqual, InitialBuilder().(entry := PartValue("book", None, []), tagName := "ti"))
         == Failure(UnrecognizableCharacter(1, 9, '?'))
  {
    RunFromBad(input, Lexer(9, 1, 9, 1, 0), Default(), InTagEqual, InitialBuilder().(entry := PartValue("book", None, []), tagName := "ti"));
  }

  /** A `?` inside a tag name is reported where it stands, at line 1, column 9; the rest of the text is never read. */
  lemma BadCharacterInName()
    ensures Parse("@book{,ti?le = {Hadoop}}", Default()) == Failure(UnrecognizableCharacter(1, 9, '?'))
  {
    OpenBookLex0("@book{,ti?le = {Hadoop}}"); OpenBookLex1("@book{,ti?le = {Hadoop}}"); OpenBookLex2("@book{,ti?le = {Hadoop}}"); BadCharacterInNameLex3(); BadCharacterInNameLex4(); BadCharacterInNameLex5();
    OpenBook("@book{,ti?le = {Hadoop}}");
    BadCharacterInNameStep0("@book{,ti?le = {Hadoop}}"); BadCharacterInNameStep1("@book{,ti?le = {Hadoop}}"); BadCharacterInNameStep2("@book{,ti?le = {Hadoop}}");
  }

  lemma IncompleteTagLex3()
    ensures NextToken("@book{,title=,}", Lexer(6, 1, 6, 1, 0)) == Produced(Bare(Comma), Lexer(7, 1, 7, 1, 0))
  {
  }

  lemma IncompleteTagLex4()
    ensures NextToken("@book{,title=,}", Lexer(7, 1, 7, 1, 0)) == Produced(Token(Name, "title"), Lexer(12, 1, 12, 1, 0))
  {
    NameEndAt("@book{,title=,}", 7, 12);
    assert "@book{,title=,}"[7..12] == "title";
    assert Lower("title") == "title";
  }

  lemma IncompleteTagLex5()
    ensures NextToken("@book{,title=,}", Lexer(12, 1, 12, 1, 0)) == Produced(Bare(Equal), Lexer(13, 1, 13, 1, 0))
  {
  }

  lemma IncompleteTagLex6()
    ensures NextToken("@book{,title=,}", Lexer(13, 1, 13, 1, 0)) == Produced(Bare(Comma), Lexer(14, 1, 14, 1, 0))
  {
  }

  lemma IncompleteTagCell0()
    ensures Lookup(InKey, Comma) == Some(Transition(Comma, InTagName, Skip))
    ensures Apply(InitialBuilder().(entry := PartValue("book", None, [])), Skip, Bare(Comma), Default())
         == Success(InitialBuilder().(entry := PartValue("book", None, [])))
  {
  }

  lemma IncompleteTagStep0(input: seq<char>)
    requires |input| >= 7
    requires NextToken(input, Lexer(6, 1, 6, 1, 0)) == Produced(Bare(Comma), Lexer(7, 1, 7, 1, 0))
    ensures RunFrom(input, Lexer(6, 1, 6, 1, 0), Default(), InKey, InitialBuilder().(entry := PartValue("book", None, [])))
         == RunFrom(input, Lexer(7, 1, 7, 1, 0), Default(), InTagName, InitialBuilder().(entry := PartValue("book", None, [])))
  {
    IncompleteTagCell0();
    Accept(input, Lexer(6, 1, 6, 1, 0), Default(), InKey, InitialBuilder().(entry := PartValue("book", None, [])), Bare(Comma), Lexer(7, 1, 7, 1, 0), Transition(Comma, InTagName, Skip), InitialBuilder().(entry := PartValue("book", None, [])));
  }

  lemma IncompleteTagCell1()
    ensures Lookup(InTagName, Name) == Some(Transition(Name, InTagEqual, SetTagName))
    ensures Apply(InitialBuilder().(entry := PartValue("book", None, [])), SetTagName, Token(Name, "title"), Default())
         == Success(InitialBuilder().(entry := PartValue("book", None, []), tagName := "title"))
  {
  }

  lemma IncompleteTagStep1(input: seq<char>)
    requires |input| >= 12
    requires NextToken(input, Lexer(7, 1, 7, 1, 0)) == Produced(Token(Name, "title"), Lexer(12, 1, 12, 1, 0))
    ensures RunFrom(input, Lexer(7, 1, 7, 1, 0), Default(), InTagName, InitialBuilder().(entry := PartValue("book", None, [])))
         == RunFrom(input, Lexer(12, 1, 12, 1, 0), Default(), InTagEqual, InitialBuilder().(entry := PartValue("book", None, []), tagName := "title"))
  {
    IncompleteTagCell1();
    Accept(input, Lexer(7, 1, 7, 1, 0), Default(), InTagName, InitialBuilder().(entry := PartValue("book", None, [])), Token(Name, "title"), Lexer(12, 1, 12, 1, 0), Transition(Name, InTagEqual, SetTagName), InitialBuilder().(entry := PartValue("book", None, []), tagName := "title"));
  }

  lemma IncompleteTagCell2()
    ensures Lookup(InTagEqual, Equal) == Some(Transition(Equal, InTagValue, Skip))
    ensures Apply(InitialBuilder().(entry := PartValue("book", None, []), tagName := "title"), Skip, Bare(Equal), Default())
         == Success(InitialBuilder().(entry := PartValue("book", None, []), tagName := "title"))
  {
  }

  lemma IncompleteTagStep2(input: seq<char>)
    requires |input| >= 13
    requires NextToken(input, Lexer(12, 1, 12, 1, 0)) == Produced(Bare(Equal), Lexer(13, 1, 13, 1, 0))
    ensures RunFrom(input, Lexer(12, 1, 12, 1, 0), Default(), InTagEqual, InitialBuilder().(entry := PartValue("book", None, []), tagName := "title"))
         == RunFrom(input, Lexer(13, 1, 13, 1, 0), Default(), InTagValue, InitialBuilder().(entry := PartValue("book", None, []), tagName := "title"))
  {
    IncompleteTagCell2();
    Accept(input, Lexer(12, 1, 12, 1, 0), Default(), InTagEqual, InitialBuilder().(entry := PartValue("book", None, []), tagName := "title"), Bare(Equal), Lexer(13, 1, 13, 1, 0), Transition(Equal, InTagValue, Skip), InitialBuilder().(entry := PartValue("book", None, []), tagName := "title"));
  }

  lemma IncompleteTagRejected()
    ensures Lookup(InTagValue, Comma) == None
    ensures Expected(InTagValue) == [String, Name]
  {
    assert Expected(InTagValue) == [String, Name];
  }

  lemma IncompleteTagStep3(input: seq<char>)
    requires |input| >= 13
    requires NextToken(input, Lexer(13, 1, 13, 1, 0)) == Produced(Bare(Comma), Lexer(14, 1, 14, 1, 0))
    ensures RunFrom(input, Lexer(13, 1, 13, 1, 0), Default(), InTagValue, InitialBuilder().(entry := PartValue("book", None, []), tagName := "title"))
         == Failure(UnexpectedToken(1, 14, Comma, [String, Name]))
  {
    IncompleteTagRejected();
    RunFromUnexpected(input, Lexer(13, 1, 13, 1, 0), Default(), InTagValue, InitialBuilder().(entry := PartValue("book", None, []), tagName := "title"));
  }

  /** A comma where a tag value belongs is rejected at that comma, column 14; a value is a String or a Name. */
  lemma IncompleteTag()
    ensures Parse("@book{,title=,}", Default()) == Failure(UnexpectedToken(1, 14, Comma, [String, Name]))
  {
    OpenBookLex0("@book{,title=,}"); OpenBookLex1("@book{,title=,}"); OpenBookLex2("@book{,title=,}"); IncompleteTagLex3(); IncompleteTagLex4(); IncompleteTagLex5(); IncompleteTagLex6();
    OpenBook("@book{,title=,}");
    IncompleteTagStep0("@book{,title=,}"); IncompleteTagStep1("@book{,title=,}"); IncompleteTagStep2("@book{,title=,}"); IncompleteTagStep3("@book{,title=,}");
  }

  lemma BrokenEntryLex3()
    ensures NextToken("@book{,", Lexer(6, 1, 6, 1, 0)) == Produced(Bare(Comma), Lexer(7, 1, 7, 1, 0))
  {
  }

  lemma BrokenEntryLex4()
    ensures NextToken("@book{,", Lexer(7, 1, 7, 1, 0)) == Exhausted(Lexer(7, 1, 7, 1, 0))
  {
  }

  lemma BrokenEntryCell0()
    ensures Lookup(InKey, Comma) == Some(Transition(Comma, InTagName, Skip))
    ensures Apply(InitialBuilder().(entry := PartValue("book", None, [])), Skip, Bare(Comma), Default())
         == Success(InitialBuilder().(entry := PartValue("book", None, [])))
  {
  }

  lemma BrokenEntryStep0(input: seq<char>)
    requires |input| >= 7
    requires NextToken(input, Lexer(6, 1, 6, 1, 0)) == Produced(Bare(Comma), Lexer(7, 1, 7, 1, 0))
    ensures RunFrom(input, Lexer(6, 1, 6, 1, 0), Default(), InKey, InitialBuilder().(entry := PartValue("book", None, [])))
         == RunFrom(input, Lexer(7, 1, 7, 1, 0), Default(), InTagName, InitialBuilder().(entry := PartValue("book", None, [])))
  {
    BrokenEntryCell0();
    Accept(input, Lexer(6, 1, 6, 1, 0), Default(), InKey, InitialBuilder().(entry := PartValue("book", None, [])), Bare(Comma), Lexer(7, 1, 7, 1, 0), Transition(Comma, InTagName, Skip), InitialBuilder().(entry := PartValue("book", None, [])));
  }

  lemma BrokenEntryEnded()
    ensures Expected(InTagName) == [Name, RightBrace]
  {
  }

  lemma BrokenEntryStep1(input: seq<char>)
    requires |input| >= 7
    requires NextToken(input, Lexer(7, 1, 7, 1, 0)) == Exhausted(Lexer(7, 1, 7, 1, 0))
    ensures RunFrom(input, Lexer(7, 1, 7, 1, 0), Default(), InTagName, InitialBuilder().(entry := PartValue("book", None, [])))
         == Failure(UnexpectedToken(1, 7, EOF, [Name, RightBrace]))
  {
    BrokenEntryEnded();
    RunFromEnd(input, Lexer(7, 1, 7, 1, 0), Default(), InTagName, InitialBuilder().(entry := PartValue("book", None, [])));
  }

  /** Text ending after the comma that follows `{` stops in `InTagName`, which expects a tag name or `}`. */
  lemma BrokenEntry()
    ensures Parse("@book{,", Default()) == Failure(UnexpectedToken(1, 7, EOF, [Name, RightBrace]))
  {
    OpenBookLex0("@book{,"); OpenBookLex1("@book{,"); OpenBookLex2("@book{,"); BrokenEntryLex3(); BrokenEntryLex4();
    OpenBook("@book{,");
    BrokenEntryStep0("@book{,"); BrokenEntryStep1("@book{,");
  }

  lemma BrokenTagLex3()
    ensures NextToken("@book{,titl", Lexer(6, 1, 6, 1, 0)) == Produced(Bare(Comma), Lexer(7, 1, 7, 1, 0))
  {
  }

  lemma BrokenTagLex4()
    ensures NextToken("@book{,titl", Lexer(7, 1, 7, 1, 0)) == Produced(Token(Name, "titl"), Lexer(11, 1, 11, 1, 0))
  {
    NameEndAt("@book{,titl", 7, 11);
    assert "@book{,titl"[7..11] == "titl";
    assert Lower("titl") == "titl";
  }

  lemma BrokenTagLex5()
    ensures NextToken("@book{,titl", Lexer(11, 1, 11, 1, 0)) == Exhausted(Lexer(11, 1, 11, 1, 0))
  {
  }

  lemma BrokenTagCell0()
    ensures Lookup(InKey, Comma) == Some(Transition(Comma, InTagName, Skip))
    ensures Apply(InitialBuilder().(entry := PartValue("book", None, [])), Skip, Bare(Comma), Default())
         == Success(InitialBuilder().(entry := PartValue("book", None, [])))
  {
  }

  lemma BrokenTagStep0(input: seq<char>)
    requires |input| >= 7
    requires NextToken(input, Lexer(6, 1, 6, 1, 0)) == Produced(Bare(Comma), Lexer(7, 1, 7, 1, 0))
    ensures RunFrom(input, Lexer(6, 1, 6, 1, 0), Default(), InKey, InitialBuilder().(entry := PartValue("book", None, [])))
         == RunFrom(input, Lexer(7, 1, 7, 1, 0), Default(), InTagName, InitialBuilder().(entry := PartValue("book", None, [])))
  {
    BrokenTagCell0();
    Accept(input, Lexer(6, 1, 6, 1, 0), Default(), InKey, InitialBuilder().(entry := PartValue("book", None, [])), Bare(Comma), Lexer(7, 1, 7, 1, 0), Transition(Comma, InTagName, Skip), InitialBuilder().(entry := PartValue("book", None, [])));
  }

  lemma BrokenTagCell1()
    ensures Lookup(InTagName, Name) == Some(Transition(Name, InTagEqual, SetTagName))
    ensures Apply(InitialBuilder().(entry := PartValue("book", None, [])), SetTagName, Token(Name, "titl"), Default())
         == Success(InitialBuilder().(entry := PartValue("book", None, []), tagName := "titl"))
  {
  }

  lemma BrokenTagStep1(input: seq<char>)
    requires |input| >= 11
    requires NextToken(input, Lexer(7, 1, 7, 1, 0)) == Produced(Token(Name, "titl"), Lexer(11, 1, 11, 1, 0))
    ensures RunFrom(input, Lexer(7, 1, 7, 1, 0), Default(), InTagName, InitialBuilder().(entry := PartValue("book", None, [])))
         == RunFrom(input, Lexer(11, 1, 11, 1, 0), Default(), InTagEqual, InitialBuilder().(entry := PartValue("book", None, []), tagName := "titl"))
  {
    BrokenTagCell1();
    Accept(input, Lexer(7, 1, 7, 1, 0), Default(), InTagName, InitialBuilder().(entry := PartValue("book", None, [])), Token(Name, "titl"), Lexer(11, 1, 11, 1, 0), Transition(Name, InTagEqual, SetTagName), InitialBuilder().(entry := PartValue("book", None, []), tagName := "titl"));
  }

  lemma BrokenTagEnded()
    ensures Expected(InTagEqual) == [Equal]
  {
  }

  lemma BrokenTagStep2(input: seq<char>)
    requires |input| >= 11
    requires NextToken(input, Lexer(11, 1, 11, 1, 0)) == Exhausted(Lexer(11, 1, 11, 1, 0))
    ensures RunFrom(input, Lexer(11, 1, 11, 1, 0), Default(), InTagEqual, InitialBuilder().(entry := PartValue("book", None, []), tagName := "titl"))
         == Failure(UnexpectedToken(1, 11, EOF, [Equal]))
  {
    BrokenTagEnded();
    RunFromEnd(input, Lexer(11, 1, 11, 1, 0), Default(), InTagEqual, InitialBuilder().(entry := PartValue("book", None, []), tagName := "titl"));
  }

  /** Text ending inside the first tag name stops in `InTagEqual`, which expects only `=`. */
  lemma BrokenTag()
    ensures Parse("@book{,titl", Default()) == Failure(UnexpectedToken(1, 11, EOF, [Equal]))
  {
    OpenBookLex0("@book{,titl"); OpenBookLex1("@book{,titl"); OpenBookLex2("@book{,titl"); BrokenTagLex3(); BrokenTagLex4(); BrokenTagLex5();
    OpenBook("@book{,titl");
    BrokenTagStep0("@book{,titl"); BrokenTagStep1("@book{,titl"); BrokenTagStep2("@book{,titl");
  }

  lemma BrokenNumberLex3()
    ensures NextToken("@book{,title = 2014", Lexer(6, 1, 6, 1, 0)) == Produced(Bare(Comma), Lexer(7, 1, 7, 1, 0))
  {
  }

  lemma BrokenNumberLex4()
    ensures NextToken("@book{,title = 2014", Lexer(7, 1, 7, 1, 0)) == Produced(Token(Name, "title"), Lexer(12, 1, 12, 1, 0))
  {
    NameEndAt("@book{,title = 2014", 7, 12);
    assert "@book{,title = 2014"[7..12] == "title";
    assert Lower("title") == "title";
  }

  lemma BrokenNumberLex5()
    ensures NextToken("@book{,title = 2014", Lexer(12, 1, 12, 1, 0)) == Produced(Bare(Equal), Lexer(14, 1, 14, 1, 0))
  {
    assert NextToken("@book{,title = 2014", Lexer(12, 1, 12, 1, 0)) == NextToken("@book{,title = 2014", Lexer(13, 1, 13, 1, 0));
  }

  lemma BrokenNumberLex6()
    ensures NextToken("@book{,title = 2014", Lexer(14, 1, 14, 1, 0)) == Produced(Token(Name, "2014"), Lexer(19, 1, 19, 1, 0))
  {
    assert NextToken("@book{,title = 2014", Lexer(14, 1, 14, 1, 0)) == NextToken("@book{,title = 2014", Lexer(15, 1, 15, 1, 0));
    NameEndAt("@book{,title = 2014", 15, 19);
    assert "@book{,title = 2014"[15..19] == "2014";
    assert Lower("2014") == "2014";
  }

  lemma BrokenNumberLex7()
    ensures NextToken("@book{,title = 2014", Lexer(19, 1, 19, 1, 0)) == Exhausted(Lexer(19, 1, 19, 1, 0))
  {
  }

  lemma BrokenNumberCell0()
    ensures Lookup(InKey, Comma) == Some(Transition(Comma, InTagName, Skip))
    ensures Apply(InitialBuilder().(entry := PartValue("book", None, [])), Skip, Bare(Comma), Default())
         == Success(InitialBuilder().(entry := PartValue("book", None, [])))
  {
  }

  lemma BrokenNumberStep0(input: seq<char>)
    requires |input| >= 7
    requires NextToken(input, Lexer(6, 1, 6, 1, 0)) == Produced(Bare(Comma), Lexer(7, 1, 7, 1, 0))
    ensures RunFrom(input, Lexer(6, 1, 6, 1, 0), Default(), InKey, InitialBuilder().(entry := PartValue("book", None, [])))
         == RunFrom(input, Lexer(7, 1, 7, 1, 0), Default(), InTagName, InitialBuilder().(entry := PartValue("book", None, [])))
  {
    BrokenNumberCell0();
    Accept(input, Lexer(6, 1, 6, 1, 0), Default(), InKey, InitialBuilder().(entry := PartValue("book", None, [])), Bare(Comma), Lexer(7, 1, 7, 1, 0), Transition(Comma, InTagName, Skip), InitialBuilder().(entry := PartValue("book", None, [])));
  }

  lemma BrokenNumberCell1()
    ensures Lookup(InTagName, Name) == Some(Transition(Name, InTagEqual, SetTagName))
    ensures Apply(InitialBuilder().(entry := PartValue("book", None, [])), SetTagName, Token(Name, "title"), Default())
         == Success(InitialBuilder().(entry := PartValue("book", None, []), tagName := "title"))
  {
  }

  lemma BrokenNumberStep1(input: seq<char>)
    requires |input| >= 12
    requires NextToken(input, Lexer(7, 1, 7, 1, 0)) == Produced(Token(Name, "title"), Lexer(12, 1, 12, 1, 0))
    ensures RunFrom(input, Lexer(7, 1, 7, 1, 0), Default(), InTagName, InitialBuilder().(entry := PartValue("book", None, [])))
         == RunFrom(input, Lexer(12, 1, 12, 1, 0), Default(), InTagEqual, InitialBuilder().(entry := PartValue("book", None, []), tagName := "title"))
  {
    BrokenNumberCell1();
    Accept(input, Lexer(7, 1, 7, 1, 0), Default(), InTagName, InitialBuilder().(entry := PartValue("book", None, [])), Token(Name, "title"), Lexer(12, 1, 12, 1, 0), Transition(Name, InTagEqual, SetTagName), InitialBuilder().(entry := PartValue("book", None, []), tagName := "title"));
  }

  lemma BrokenNumberCell2()
    ensures Lookup(InTagEqual, Equal) == Some(Transition(Equal, InTagValue, Skip))
    ensures Apply(InitialBuilder().(entry := PartValue("book", None, []), tagName := "title"), Skip, Bare(Equal), Default())
         == Success(InitialBuilder().(entry := PartValue("book", None, []), tagName := "title"))
  {
  }

  lemma BrokenNumberStep2(input: seq<char>)
    requires |input| >= 14
    requires NextToken(input, Lexer(12, 1, 12, 1, 0)) == Produced(Bare(Equal), Lexer(14, 1, 14, 1, 0))
    ensures RunFrom(input, Lexer(12, 1, 12, 1, 0), Default(), InTagEqual, InitialBuilder().(entry := PartValue("book", None, []), tagName := "title"))
         == RunFrom(input, Lexer(14, 1, 14, 1, 0), Default(), InTagValue, InitialBuilder().(entry := PartValue("book", None, []), tagName := "title"))
  {
    BrokenNumberCell2();
    Accept(input, Lexer(12, 1, 12, 1, 0), Default(), InTagEqual, InitialBuilder().(entry := PartValue("book", None, []), tagName := "title"), Bare(Equal), Lexer(14, 1, 14, 1, 0), Transition(Equal, InTagValue, Skip), InitialBuilder().(entry := PartValue("book", None, []), tagName := "title"));
  }

  lemma BrokenNumberCell3()
    ensures Lookup(InTagValue, Name) == Some(Transition(Name, OutTagValue, SetTagValue))
    ensures Apply(InitialBuilder().(entry := PartValue("book", None, []), tagName := "title"), SetTagValue, Token(Name, "2014"), Default())
         == Success(InitialBuilder().(entry := PartValue("book", None, []), tagName := "title", isString := false, value := "2014"))
  {
    assert "" + "2014" == "2014";
  }

  lemma BrokenNumberStep3(input: seq<char>)
    requires |input| >= 19
    requires NextToken(input, Lexer(14, 1, 14, 1, 0)) == Produced(Token(Name, "2014"), Lexer(19, 1, 19, 1, 0))
    ensures RunFrom(input, Lexer(14, 1, 14, 1, 0), Default(), InTagValue, InitialBuilder().(entry := PartValue("book", None, []), tagName := "title"))
         == RunFrom(input, Lexer(19, 1, 19, 1, 0), Default(), OutTagValue, InitialBuilder().(entry := PartValue("book", None, []), tagName := "title", isString := false, value := "2014"))
  {
    BrokenNumberCell3();
    Accept(input, Lexer(14, 1, 14, 1, 0), Default(), InTagValue, InitialBuilder().(entry := PartValue("book", None, []), tagName := "title"), Token(Name, "2014"), Lexer(19, 1, 19, 1, 0), Transition(Name, OutTagValue, SetTagValue), InitialBuilder().(entry := PartValue("book", None, []), tagName := "title", isString := false, value := "2014"));
  }

  lemma BrokenNumberEnded()
    ensures Expected(OutTagValue) == [Concatenation, Comma, RightBrace, RightParenthesis, Comment]
  {
  }

  lemma BrokenNumberStep4(input: seq<char>)
    requires |input| >= 19
    requires NextToken(input, Lexer(19, 1, 19, 1, 0)) == Exhausted(Lexer(19, 1, 19, 1, 0))
    ensures RunFrom(input, Lexer(19, 1, 19, 1, 0), Default(), OutTagValue, InitialBuilder().(entry := PartValue("book", None, []), tagName := "title", isString := false, value := "2014"))
         == Failure(UnexpectedToken(1, 19, EOF, [Concatenation, Comma, RightBrace, RightParenthesis, Comment]))
  {
    BrokenNumberEnded();
    RunFromEnd(input, Lexer(19, 1, 19, 1, 0), Default(), OutTagValue, InitialBuilder().(entry := PartValue("book", None, []), tagName := "title", isString := false, value := "2014"));
  }

  /** Text ending after an unbraced value `2014` stops in `OutTagValue`, which expects a `#`, a `,`, a closing brace or parenthesis, or a comment. */
  lemma BrokenNumber()
    ensures Parse("@book{,title = 2014", Default()) == Failure(UnexpectedToken(1, 19, EOF, [Concatenation, Comma, RightBrace, RightParenthesis, Comment]))
  {
    OpenBookLex0("@book{,title = 2014"); OpenBookLex1("@book{,title = 2014"); OpenBookLex2("@book{,title = 2014"); BrokenNumberLex3(); BrokenNumberLex4(); BrokenNumberLex5(); BrokenNumberLex6(); BrokenNumberLex7();
    OpenBook("@book{,title = 2014");
    BrokenNumberStep0("@book{,title = 2014"); BrokenNumberStep1("@book{,title = 2014"); BrokenNumberStep2("@book{,title = 2014"); BrokenNumberStep3("@book{,title = 2014"); BrokenNumberStep4("@book{,title = 2014");
  }

  lemma WithoutKeyAndTagsLex3()
    ensures NextToken("@book{}", Lexer(6, 1, 6, 1, 0)) == Produced(Bare(RightBrace), Lexer(7, 1, 7, 0, 0))
  {
  }

  lemma WithoutKeyAndTagsLex4()
    ensures NextToken("@book{}", Lexer(7, 1, 7, 0, 0)) == Exhausted(Lexer(7, 1, 7, 0, 0))
  {
  }

  lemma WithoutKeyAndTagsCell0()
    ensures Lookup(InKey, RightBrace) == Some(Transition(RightBrace, OutEntry, Build))
    ensures Apply(InitialBuilder().(entry := PartValue("book", None, [])), Build, Bare(RightBrace), Default())
         == Success(InitialBuilder().(entry := PartValue("book", None, [])).(doc := Document.DocValue([], [PartValue("book", None, [])], [])))
  {
    CloseBook();
  }

  lemma WithoutKeyAndTagsStep0(input: seq<char>)
    requires |input| >= 7
    requires NextToken(input, Lexer(6, 1, 6, 1, 0)) == Produced(Bare(RightBrace), Lexer(7, 1, 7, 0, 0))
    ensures RunFrom(input, Lexer(6, 1, 6, 1, 0), Default(), InKey, InitialBuilder().(entry := PartValue("book", None, [])))
         == RunFrom(input, Lexer(7, 1, 7, 0, 0), Default(), OutEntry, InitialBuilder().(entry := PartValue("book", None, [])).(doc := Document.DocValue([], [PartValue("book", None, [])], [])))
  {
    WithoutKeyAndTagsCell0();
    Accept(input, Lexer(6, 1, 6, 1, 0), Default(), InKey, InitialBuilder().(entry := PartValue("book", None, [])), Bare(RightBrace), Lexer(7, 1, 7, 0, 0), Transition(RightBrace, OutEntry, Build), InitialBuilder().(entry := PartValue("book", None, [])).(doc := Document.DocValue([], [PartValue("book", None, [])], [])));
  }

  lemma WithoutKeyAndTagsStep1(input: seq<char>)
    requires |input| >= 7
    requires NextToken(input, Lexer(7, 1, 7, 0, 0)) == Exhausted(Lexer(7, 1, 7, 0, 0))
    ensures RunFrom(input, Lexer(7, 1, 7, 0, 0), Default(), OutEntry, InitialBuilder().(entry := PartValue("book", None, [])).(doc := Document.DocValue([], [PartValue("book", None, [])], [])))
         == Success(Document.DocValue([], [PartValue("book", None, [])], []))
  {
    RunFromEnd(input, Lexer(7, 1, 7, 0, 0), Default(), OutEntry, InitialBuilder().(entry := PartValue("book", None, [])).(doc := Document.DocValue([], [PartValue("book", None, [])], [])));
  }

  /** An entry with neither key nor tags is built with its type alone and added to the reference entries. */
  lemma WithoutKeyAndTags()
    ensures Parse("@book{}", Default()) == Success(Document.DocValue([], [PartValue("book", None, [])], []))
  {
    OpenBookLex0("@book{}"); OpenBookLex1("@book{}"); OpenBookLex2("@book{}"); WithoutKeyAndTagsLex3(); WithoutKeyAndTagsLex4();
    OpenBook("@book{}");
    WithoutKeyAndTagsStep0("@book{}"); WithoutKeyAndTagsStep1("@book{}");
  }

  /** The value `"Ping" # "Le" # "Yuan"` is a concatenation of three literals, and they join to `PingLeYuan`. */
  lemma PingLeYuanJoined(value: seq<Step>, l: seq<Lexer>)
    requires |l| == 5
    requires value == [Step(Token(String, "Ping"), l[0]), Step(Bare(Concatenation), l[1]),
                       Step(Token(String, "Le"), l[2]), Step(Bare(Concatenation), l[3]),
                       Step(Token(String, "Yuan"), l[4])]
    ensures IsConcatenation(value) && Joined(value) == "PingLeYuan"
    ensures value[|value| - 1].token.kind == String
  {
    assert value[2..][2..] == [value[4]];
    assert IsConcatenation(value[2..][2..]);
    assert IsConcatenation(value[2..]);
    assert Joined(value[2..][2..]) == "Yuan";
    assert Joined(value[2..]) == "Le" + "Yuan";
    assert "Ping" + ("Le" + "Yuan") == "PingLeYuan";
  }

  /**
   * `address="Ping" # "Le" # "Yuan",` once the name is pending: the three
   * literals are joined in order, and the comma stores the joined text as a
   * literal under `address`.
   */
  lemma JoinedAddress(l: seq<Lexer>, rest: seq<Step>, end: LexEnd, b: Builder)
    requires |l| == 6
    requires b.tagName == "address" && b.value == "" && Tags.Valid(b.entry.tags)
    ensures var steps := [Step(Token(String, "Ping"), l[0]), Step(Bare(Concatenation), l[1]),
                          Step(Token(String, "Le"), l[2]), Step(Bare(Concatenation), l[3]),
                          Step(Token(String, "Yuan"), l[4]), Step(Bare(Comma), l[5])];
      var tags := Tags.SetTagValue(b.entry.tags, "address", TagValue("PingLeYuan", true));
      Run(steps + rest, end, Default(), InTagValue, b)
      == Run(rest, end, Default(), InTagName,
             b.(entry := b.entry.(tags := tags), value := "", tagName := "", isString := true))
  {
    var steps := [Step(Token(String, "Ping"), l[0]), Step(Bare(Concatenation), l[1]),
                  Step(Token(String, "Le"), l[2]), Step(Bare(Concatenation), l[3]),
                  Step(Token(String, "Yuan"), l[4]), Step(Bare(Comma), l[5])];
    var value := steps[..5];
    var comma := [steps[5]] + rest;
    var v := TagValue("PingLeYuan", true);
    var b' := b.(value := "PingLeYuan", isString := true);
    PingLeYuanJoined(value, l[..5]);
    assert b.(value := b.value + Joined(value), isString := value[|value| - 1].token.kind == String) == b';
    calc {
      Run(steps + rest, end, Default(), InTagValue, b);
      == { assert steps + rest == value + comma; }
      Run(value + comma, end, Default(), InTagValue, b);
      == { ConcatenationAccumulates(value, comma, end, Default(), b); }
      Run(comma, end, Default(), OutTagValue, b');
      == { CommaCommitsTag(steps[5], rest, end, Default(), b'); }
      Run(rest, end, Default(), InTagName,
          b'.(entry := b.entry.(tags := Tags.SetTagValue(b.entry.tags, "address", v)), value := "", tagName := ""));
    }
  }

  /** What `SetTagValue` stores under a name, the indexer reads back under that name. */
  lemma StoredReadsBack(tags: seq<Tags.Tag>, name: string, v: TagValue)
    requires Tags.Valid(tags)
    ensures Tags.Get(Tags.SetTagValue(tags, name, v), name) == v.content
  {
    Tags.SetTagValueStores(tags, name, v, name);
  }

  /** The joined value stored under `address` is what the indexer reads back there. */
  lemma AddressReadsBack(tags: seq<Tags.Tag>)
    requires Tags.Valid(tags)
    ensures Tags.Get(Tags.SetTagValue(tags, "address", TagValue("PingLeYuan", true)), "address") == "PingLeYuan"
  {
    StoredReadsBack(tags, "address", TagValue("PingLeYuan", true));
  }

  /** `@string` starts a part of type `string`; the default initializer gives it no tags. */
  lemma StringEntryOpens()
    ensures Apply(InitialBuilder(), Create, Bare(Start), Default()) == Success(InitialBuilder())
    ensures Apply(InitialBuilder(), SetType, Token(StringType, "string"), Default())
         == Success(InitialBuilder().(entry := PartValue("string", None, [])))
  {
    assert Default().GetTags("string") == Success([]);
    assert Tags.Initialize([], []) == [];
  }

  /** The indexer stores a new `NAME` under its lower-case spelling, as a literal. */
  lemma NameStored()
    ensures Tags.SetIndexer([], "NAME", "Title of Conference") == [("name", Literal("Title of Conference"))]
  {
    assert Lower("NAME") == "name";
  }

  /** `@string`: a part of type `string` is started. */
  lemma StringEntryPrefix(s: seq<Step>, e: LexEnd)
    requires |s| >= 2 && s[0].token == Bare(Start) && s[1].token == Token(StringType, "string")
    ensures Run(s, e, Default(), Begin, InitialBuilder())
         == Run(s[2..], e, Default(), InStringEntry, InitialBuilder().(entry := PartValue("string", None, [])))
  {
    var init := Default();
    var b0 := InitialBuilder();
    var b1 := b0.(entry := PartValue("string", None, []));
    StringEntryOpens();
    calc {
      Run(s, e, init, Begin, b0);
      == { assert s == [s[0]] + s[1..]; RunStep(s[0], s[1..], e, init, Begin, b0, Transition(Start, InStart, Create), b0); }
      Run(s[1..], e, init, InStart, b0);
      == { assert s[1..] == [s[1]] + s[2..];
           RunStep(s[1], s[2..], e, init, InStart, b0, Transition(StringType, InStringEntry, SetType), b1); }
      Run(s[2..], e, init, InStringEntry, b1);
    }
  }

  /** The opening brace or parenthesis of a `@string` part: a tag name is expected next. */
  lemma StringEntryOpen(s: seq<Step>, e: LexEnd, open: TokenType, b: Builder)
    requires |s| >= 1 && s[0].token == Bare(open)
    requires open == LeftBrace || open == LeftParenthesis
    ensures Run(s, e, Default(), InStringEntry, b) == Run(s[1..], e, Default(), InTagName, b)
  {
    assert s == [s[0]] + s[1..];
    RunStep(s[0], s[1..], e, Default(), InStringEntry, b, Transition(open, InTagName, Skip), b);
  }

  /** `NAME =`: the tag name is pending and a value is expected. */
  lemma StringEntryName(s: seq<Step>, e: LexEnd, b: Builder)
    requires |s| >= 2 && s[0].token == Token(Name, "NAME") && s[1].token == Bare(Equal)
    ensures Run(s, e, Default(), InTagName, b) == Run(s[2..], e, Default(), InTagValue, b.(tagName := "NAME"))
  {
    var init := Default();
    var b2 := b.(tagName := "NAME");
    calc {
      Run(s, e, init, InTagName, b);
      == { assert s == [s[0]] + s[1..]; RunStep(s[0], s[1..], e, init, InTagName, b, Transition(Name, InTagEqual, SetTagName), b2); }
      Run(s[1..], e, init, InTagEqual, b2);
      == { assert s[1..] == [s[1]] + s[2..]; RunStep(s[1], s[2..], e, init, InTagEqual, b2, Transition(Equal, InTagValue, Skip), b2); }
      Run(s[2..], e, init, InTagValue, b2);
    }
  }

  /** Closing commits the pending `NAME` into the part, which goes to the string constants. */
  lemma StringPartStored(b: Builder)
    requires b.entry == PartValue("string", None, []) && b.tagName == "NAME" && b.value == "Title of Conference"
    requires b.doc == Document.DocValue([], [], [])
    ensures var p := PartValue("string", None, [("name", Literal("Title of Conference"))]);
      var entry := b.entry.(tags := Tags.SetIndexer(b.entry.tags, b.tagName, b.value));
      entry == p && Document.AddPart(b.doc, entry) == Document.DocValue([], [], [p])
  {
    var p := PartValue("string", None, [("name", Literal("Title of Conference"))]);
    NameStored();
    assert Lower("string") == "string";
    assert [] + [p] == [p];
  }

  /** The quoted value is taken as a literal and appended to the pending value. */
  lemma StringEntryValue(s: seq<Step>, e: LexEnd, b: Builder)
    requires |s| >= 1 && s[0].token == Token(String, "Title of Conference")
    ensures Run(s, e, Default(), InTagValue, b)
         == Run(s[1..], e, Default(), OutTagValue, b.(isString := true, value := b.value + "Title of Conference"))
  {
    assert s == [s[0]] + s[1..];
    ValueStep(s[0], s[1..], e, Default(), b);
  }

  /** The closing token commits the pending `NAME` and ends the text with the part among the string constants. */
  lemma StringEntryClosed(step: Step, last: Lexer, b: Builder)
    requires step.token == Bare(RightBrace) || step.token == Bare(RightParenthesis)
    requires b.entry == PartValue("string", None, []) && b.tagName == "NAME" && b.value == "Title of Conference"
    requires b.doc == Document.DocValue([], [], [])
    ensures Run([step], AtEnd(last), Default(), OutTagValue, b)
         == Success(Document.DocValue([], [], [PartValue("string", None, [("name", Literal("Title of Conference"))])]))
  {
    StringPartStored(b);
    CloseCommitsAndBuilds(step, [], AtEnd(last), Default(), b);
    assert [step] + [] == [step];
  }

  /** A `string` part's one tag, stored under `name`, reads the same under `NAME` and `name`. */
  lemma StringConstantReads()
    ensures Tags.Get([("name", Literal("Title of Conference"))], "NAME") == "Title of Conference"
    ensures Tags.Get([("name", Literal("Title of Conference"))], "name") == "Title of Conference"
  {
    assert Lower("NAME") == "name";
    assert Lower("name") == "name";
  }

  /**
   * `@string{NAME = ...}` or `@string(NAME = ...)`, token by token: the part
   * has type `string`, so it is added to the string constants and not to
   * the entries; its one tag is stored under `name` (see
   * `StringConstantReads`).
   */
  lemma StringConstantEntry(l: seq<Lexer>, last: Lexer, open: TokenType, close: TokenType)
    requires |l| == 7
    requires (open == LeftBrace && close == RightBrace) || (open == LeftParenthesis && close == RightParenthesis)
    ensures var steps := [Step(Bare(Start), l[0]), Step(Token(StringType, "string"), l[1]), Step(Bare(open), l[2]),
                          Step(Token(Name, "NAME"), l[3]), Step(Bare(Equal), l[4]),
                          Step(Token(String, "Title of Conference"), l[5]), Step(Bare(close), l[6])];
      var p := PartValue("string", None, [("name", Literal("Title of Conference"))]);
      Run(steps, AtEnd(last), Default(), Begin, InitialBuilder()) == Success(Document.DocValue([], [], [p]))
  {
    var s := [Step(Bare(Start), l[0]), Step(Token(StringType, "string"), l[1]), Step(Bare(open), l[2]),
              Step(Token(Name, "NAME"), l[3]), Step(Bare(Equal), l[4]),
              Step(Token(String, "Title of Conference"), l[5]), Step(Bare(close), l[6])];
    var e := AtEnd(last);
    var b1 := InitialBuilder().(entry := PartValue("string", None, []));
    calc {
      Run(s, e, Default(), Begin, InitialBuilder());
      == { StringEntryPrefix(s, e); }
      Run(s[2..], e, Default(), InStringEntry, b1);
      == { StringEntryOpen(s[2..], e, open, b1); assert s[2..][1..] == s[3..]; }
      Run(s[3..], e, Default(), InTagName, b1);
      == { StringEntryName(s[3..], e, b1); assert s[3..][2..] == s[5..]; }
      Run(s[5..], e, Default(), InTagValue, b1.(tagName := "NAME"));
      == { StringEntryValue(s[5..], e, b1.(tagName := "NAME")); assert s[5..][1..] == s[6..]; }
      Run(s[6..], e, Default(), OutTagValue, b1.(tagName := "NAME", isString := true, value := "" + "Title of Conference"));
      == { assert "" + "Title of Conference" == "Title of Conference";
           assert s[6..] == [s[6]];
           StringEntryClosed(s[6], last, b1.(tagName := "NAME", isString := true, value := "Title of Conference")); }
      Success(Document.DocValue([], [], [PartValue("string", None, [("name", Literal("Title of Conference"))])]));
    }
  }

}
