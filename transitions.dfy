/**
 * The table-driven parser: a finite-state machine over the token enumeration.
 * Each state has a row of (token type, next state, builder action); a token
 * type missing from the row is an error that names the row's token types.
 * The builder keeps the document, the part under construction, the pending
 * tag name, the value accumulator and the literal flag.
 */
module Transitions {
  import opened Wrappers
  import opened Tokens
  import opened TagValues
  import Tags
  import opened Entries
  import opened Initialization
  import opened Document
  import opened Errors
  import opened Scanning

  datatype ParserState =
    | Begin | InHeader | InStart | InEntry | InStringEntry | InKey | OutKey
    | InTagName | InTagEqual | InTagValue | OutTagValue | InComment | OutEntry

  datatype BuilderAction = Create | SetHeader | SetType | SetKey | SetTagName | SetTagValue | SetTag | Build | Skip

  /** One cell of the table: on this token type, go to `next` and perform `action`. */
  datatype Transition = Transition(on: TokenType, next: ParserState, action: BuilderAction)

  /**
   * The table's row for a state, in the order it is written; every row
   * accepts something.
   */
  function Row(s: ParserState): (r: seq<Transition>)
    ensures r != []
  {
    match s
    case Begin => [Transition(Comment, InHeader, SetHeader), Transition(Start, InStart, Create)]
    case InHeader => [Transition(Comment, InHeader, SetHeader), Transition(Start, InStart, Create)]
    case InStart => [Transition(Name, InEntry, SetType), Transition(StringType, InStringEntry, SetType)]
    case InEntry => [Transition(LeftBrace, InKey, Skip)]
    case InStringEntry => [Transition(LeftBrace, InTagName, Skip), Transition(LeftParenthesis, InTagName, Skip)]
    case InKey => [Transition(RightBrace, OutEntry, Build), Transition(Name, OutKey, SetKey),
                   Transition(String, OutKey, SetKey), Transition(Comma, InTagName, Skip)]
    case OutKey => [Transition(Comma, InTagName, Skip)]
    case InTagName => [Transition(Name, InTagEqual, SetTagName), Transition(RightBrace, OutEntry, Build)]
    case InTagEqual => [Transition(Equal, InTagValue, Skip)]
    case InTagValue => [Transition(String, OutTagValue, SetTagValue), Transition(Name, OutTagValue, SetTagValue)]
    case OutTagValue => [Transition(Concatenation, InTagValue, Skip), Transition(Comma, InTagName, SetTag),
                         Transition(RightBrace, OutEntry, Build), Transition(RightParenthesis, OutEntry, Build),
                         Transition(Comment, OutTagValue, Skip)]
    case OutEntry => [Transition(Start, InStart, Create), Transition(Comment, InComment, Skip)]
    case InComment => [Transition(Start, InStart, Create), Transition(Comment, InComment, Skip)]
  }

  /** The token types a state accepts, in row order: what an error reports as expected. */
  function Expected(s: ParserState): (r: seq<TokenType>)
    ensures |r| == |Row(s)| && forall i :: 0 <= i < |r| ==> r[i] == Row(s)[i].on
  {
    seq(|Row(s)|, i requires 0 <= i < |Row(s)| => Row(s)[i].on)
  }

  function Find(row: seq<Transition>, t: TokenType): (r: Option<Transition>)
    ensures r.Some? ==> r.value in row && r.value.on == t
    ensures r.None? ==> forall i :: 0 <= i < |row| ==> row[i].on != t
  {
    if row == [] then None else if row[0].on == t then Some(row[0]) else Find(row[1..], t)
  }

  /** The transition of a state on a token type, if the row has one. */
  function Lookup(s: ParserState, t: TokenType): (r: Option<Transition>)
    ensures r.Some? ==> r.value in Row(s) && r.value.on == t
  {
    Find(Row(s), t)
  }

  /** A state has a transition on exactly the token types its error would list as expected. */
  lemma LookupExpected(s: ParserState, t: TokenType)
    ensures Lookup(s, t).Some? <==> t in Expected(s)
  {
  }

  /** No row has two cells for the same token type, so the machine is deterministic. */
  lemma RowsDeterministic(s: ParserState)
    ensures forall i, j :: 0 <= i < j < |Row(s)| ==> Row(s)[i].on != Row(s)[j].on
  {
  }

  /** Every row accepts something, so an error's expected list is never empty. */
  lemma RowsNonEmpty(s: ParserState)
    ensures Expected(s) != []
  {
  }

  /**
   * After a tag value only `#`, `,`, a closing brace or parenthesis and a
   * comment may follow: the next tag's name, with no comma before it, is an
   * unexpected token.
   */
  lemma NameAfterValueRejected()
    ensures Lookup(OutTagValue, Name).None?
    ensures Expected(OutTagValue) == [Concatenation, Comma, RightBrace, RightParenthesis, Comment]
  {
  }

  /** Only `OutEntry` is final, and it is reached only by `Build`. */
  lemma BuildLeadsOut(s: ParserState, t: Transition)
    requires t in Row(s)
    ensures t.next == OutEntry <==> t.action == Build
  {
  }

  /** The parser's transient state. */
  datatype Builder = Builder(doc: DocValue, entry: PartValue, tagName: string, isString: bool, value: string)

  /** A freshly created part. */
  function NewPart(): PartValue {
    PartValue("", None, [])
  }

  /** The builder a parse starts with: an empty document, no pending tag, an empty accumulator. */
  function InitialBuilder(): Builder {
    Builder(DocValue([], [], []), NewPart(), "", false, "")
  }

  /** The effect of a builder action on the token that triggered it. */
  /**
   * Only setting the type can fail, and only when the type's template is
   * missing. Only `SetHeader` and `Build` touch the document: the first
   * appends a header line, the second the part; header lines are never lost.
   */
  function Apply(b: Builder, action: BuilderAction, token: Token, init: BibEntryInitialization): (r: Result<Builder, ParseError>)
    ensures r.Failure? ==> action == SetType && r.error.TemplateNotFound? && init.GetTags(token.value).Failure?
    ensures action == SetType && init.GetTags(token.value).Failure? ==> r.Failure?
    ensures r.Success? && action != SetHeader && action != Build ==> r.value.doc == b.doc
    ensures r.Success? ==> b.doc.header <= r.value.doc.header
  {
    match action
    case SetHeader => Success(b.(doc := b.doc.(header := b.doc.header + [token.value])))
    case Create => Success(b.(entry := NewPart()))
    case SetType =>
      (match init.GetTags(token.value)
       case Failure(template) => Failure(TemplateNotFound(template))
       case Success(names) =>
         Success(b.(entry := b.entry.(entryType := token.value, tags := Tags.Initialize(b.entry.tags, names)))))
    case SetKey => Success(b.(entry := b.entry.(key := Some(token.value))))
    case SetTagName => Success(b.(tagName := token.value))
    case SetTagValue =>
      var flag := if token.kind != Concatenation then token.kind == String else b.isString;
      Success(b.(isString := flag, value := b.value + token.value))
    case SetTag =>
      var tags := Tags.SetTagValue(b.entry.tags, b.tagName, TagValue(b.value, b.isString));
      Success(b.(entry := b.entry.(tags := tags), value := "", tagName := ""))
    case Build =>
      var b' := if b.tagName != "" then
          b.(entry := b.entry.(tags := Tags.SetIndexer(b.entry.tags, b.tagName, b.value)), value := "", tagName := "")
        else b;
      Success(b'.(doc := AddPart(b'.doc, b'.entry)))
    case Skip => Success(b)
  }

  /** Runs the machine over the steps of the enumeration, then checks how the input ended. */
  function Run(steps: seq<Step>, end: LexEnd, init: BibEntryInitialization, state: ParserState, b: Builder): (r: Result<DocValue, ParseError>)
    ensures r.Success? ==> end.AtEnd?
    ensures r.Failure? && r.error.UnrecognizableCharacter? ==> end.BadCharacter?
    decreases |steps|
  {
    if steps == [] then
      match end
      case BadCharacter(line, column, c) => Failure(UnrecognizableCharacter(line, column, c))
      case AtEnd(last) =>
        if state == OutEntry then Success(b.doc) else Failure(UnexpectedToken(last.line, last.column, EOF, Expected(state)))
    else
      var step := steps[0];
      match Lookup(state, step.token.kind)
      case None => Failure(UnexpectedToken(step.after.line, step.after.column, step.token.kind, Expected(state)))
      case Some(t) =>
        match Apply(b, t.action, step.token, init)
        case Failure(e) => Failure(e)
        case Success(b') => Run(steps[1..], end, init, t.next, b')
  }

  /** The machine in `state` with builder `b`, run over the enumeration from scanner state `s`. */
  function RunFrom(input: seq<char>, s: Lexer, init: BibEntryInitialization, state: ParserState, b: Builder): (r: Result<DocValue, ParseError>)
    requires s.pos <= |input|
    ensures r.Success? ==> Tokenize(input, s).1.AtEnd?
  {
    var (steps, end) := Tokenize(input, s);
    Run(steps, end, init, state, b)
  }

  /**
   * The document parsed from a text, or the first error. A successful parse
   * has read the whole input without meeting a character no token starts with.
   */
  function Parse(input: seq<char>, init: BibEntryInitialization): (r: Result<DocValue, ParseError>)
    ensures r.Success? ==> Tokenize(input, Initial()).1.AtEnd? && Tokenize(input, Initial()).1.last.pos == |input|
  {
    RunFrom(input, Initial(), init, Begin, InitialBuilder())
  }

  /**
   * One token at a time: the end of the input finishes the parse, a bad
   * character or an unexpected token stops it, and an accepted token applies
   * its action and continues from the scanner state after it.
   */
  lemma RunFromNext(input: seq<char>, s: Lexer, init: BibEntryInitialization, state: ParserState, b: Builder)
    requires s.pos <= |input|
    ensures NextToken(input, s).Produced? ==> NextToken(input, s).next.pos <= |input|
    ensures match NextToken(input, s)
      case Exhausted(last) =>
        RunFrom(input, s, init, state, b)
        == if state == OutEntry then Success(b.doc) else Failure(UnexpectedToken(last.line, last.column, EOF, Expected(state)))
      case Unrecognizable(line, column, c) =>
        RunFrom(input, s, init, state, b) == Failure(UnrecognizableCharacter(line, column, c))
      case Produced(t, next) =>
        RunFrom(input, s, init, state, b)
        == match Lookup(state, t.kind)
           case None => Failure(UnexpectedToken(next.line, next.column, t.kind, Expected(state)))
           case Some(tr) =>
             (match Apply(b, tr.action, t, init)
              case Failure(e) => Failure(e)
              case Success(b') => RunFrom(input, next, init, tr.next, b'))
  {
    match NextToken(input, s)
    case Exhausted(last) =>
    case Unrecognizable(line, column, c) =>
    case Produced(t, next) =>
      var (rest, end) := Tokenize(input, next);
      var steps := [Step(t, next)] + rest;
      assert Tokenize(input, s) == (steps, end);
      assert steps[0] == Step(t, next) && steps[1..] == rest;
  }

  /** The end of the input finishes the parse: the document in `OutEntry`, an error elsewhere. */
  lemma RunFromEnd(input: seq<char>, s: Lexer, init: BibEntryInitialization, state: ParserState, b: Builder)
    requires s.pos <= |input| && NextToken(input, s).Exhausted?
    ensures var last := NextToken(input, s).next;
      RunFrom(input, s, init, state, b)
      == if state == OutEntry then Success(b.doc) else Failure(UnexpectedToken(last.line, last.column, EOF, Expected(state)))
  {
    RunFromNext(input, s, init, state, b);
  }

  /** A character no token starts with stops the parse where it stands. */
  lemma RunFromBad(input: seq<char>, s: Lexer, init: BibEntryInitialization, state: ParserState, b: Builder)
    requires s.pos <= |input| && NextToken(input, s).Unrecognizable?
    ensures var r := NextToken(input, s);
      RunFrom(input, s, init, state, b) == Failure(UnrecognizableCharacter(r.line, r.column, r.c))
  {
    RunFromNext(input, s, init, state, b);
  }

  /** A token the state does not accept stops the parse at the position after it. */
  lemma RunFromUnexpected(input: seq<char>, s: Lexer, init: BibEntryInitialization, state: ParserState, b: Builder)
    requires s.pos <= |input| && NextToken(input, s).Produced?
    requires Lookup(state, NextToken(input, s).token.kind).None?
    ensures var r := NextToken(input, s);
      RunFrom(input, s, init, state, b) == Failure(UnexpectedToken(r.next.line, r.next.column, r.token.kind, Expected(state)))
  {
    RunFromNext(input, s, init, state, b);
  }

  /** An accepted token applies its action; a failed action stops the parse. */
  lemma RunFromAccepted(input: seq<char>, s: Lexer, init: BibEntryInitialization, state: ParserState, b: Builder, tr: Transition)
    requires s.pos <= |input| && NextToken(input, s).Produced?
    requires Lookup(state, NextToken(input, s).token.kind) == Some(tr)
    ensures NextToken(input, s).next.pos <= |input|
    ensures var r := NextToken(input, s);
      match Apply(b, tr.action, r.token, init)
      case Failure(e) => RunFrom(input, s, init, state, b) == Failure(e)
      case Success(b') => RunFrom(input, s, init, state, b) == RunFrom(input, r.next, init, tr.next, b')
  {
    RunFromNext(input, s, init, state, b);
  }

  /** The states between a `Create` and the `Build` that completes the part. */
  predicate MidEntry(s: ParserState) {
    !(s == Begin || s == InHeader || s == OutEntry || s == InComment)
  }

  /**
   * The table's shape: a part exists once the first `@` is read; only `Create`
   * enters an entry; only `Build` leaves one; and the actions that touch the
   * part occur inside an entry.
   */
  lemma TransitionShape(s: ParserState, k: TokenType)
    requires Lookup(s, k).Some?
    ensures var tr := Lookup(s, k).value;
      ((s == Begin || s == InHeader) && !(tr.next == Begin || tr.next == InHeader) ==> tr.action == Create) &&
      (tr.action == Create ==> tr.next == InStart) &&
      (MidEntry(tr.next) && tr.action != Create ==> MidEntry(s)) &&
      (tr.action == Build ==> tr.next == OutEntry && MidEntry(s)) &&
      (tr.action == SetType || tr.action == SetKey || tr.action == SetTag ==> MidEntry(s) && MidEntry(tr.next))
  {
  }

  /**
   * A token the current state does not accept ends the parse with an error
   * naming that state's row, wherever the parse would have gone next.
   */
  lemma UnexpectedTokenStops(steps: seq<Step>, end: LexEnd, end': LexEnd, rest: seq<Step>,
                             init: BibEntryInitialization, state: ParserState, b: Builder)
    requires steps != [] && Lookup(state, steps[0].token.kind).None?
    ensures Run(steps, end, init, state, b)
         == Failure(UnexpectedToken(steps[0].after.line, steps[0].after.column, steps[0].token.kind, Expected(state)))
    ensures Run(steps, end, init, state, b) == Run([steps[0]] + rest, end', init, state, b)
  {
  }

  /** Running out of tokens anywhere but `OutEntry` is an error at the last position. */
  lemma EndOfInputOutsideEntry(last: Lexer, init: BibEntryInitialization, state: ParserState, b: Builder)
    requires state != OutEntry
    ensures Run([], AtEnd(last), init, state, b) == Failure(UnexpectedToken(last.line, last.column, EOF, Expected(state)))
    ensures Expected(state) != []
  {
  }

  /** One accepted step: the action is applied and the machine moves on. */
  lemma RunStep(step: Step, rest: seq<Step>, end: LexEnd, init: BibEntryInitialization,
                state: ParserState, b: Builder, t: Transition, b': Builder)
    requires Lookup(state, step.token.kind) == Some(t)
    requires Apply(b, t.action, step.token, init) == Success(b')
    ensures Run([step] + rest, end, init, state, b) == Run(rest, end, init, t.next, b')
  {
    assert ([step] + rest)[0] == step;
    assert ([step] + rest)[1..] == rest;
  }

  /** A String or Name token: the two kinds of tag value segment. */
  predicate IsValueToken(t: Token) {
    t.kind == String || t.kind == Name
  }

  /** Value segments separated by `#`: a value, then any number of `#` and a value. */
  predicate IsConcatenation(steps: seq<Step>)
    decreases |steps|
  {
    |steps| > 0 && IsValueToken(steps[0].token) &&
    (|steps| == 1 || (|steps| >= 3 && steps[1].token.kind == Concatenation && IsConcatenation(steps[2..])))
  }

  /** The texts of the value segments, joined with nothing between them. */
  function Joined(steps: seq<Step>): string
    decreases |steps|
  {
    if steps == [] then ""
    else if |steps| == 1 then steps[0].token.value
    else steps[0].token.value + Joined(steps[2..])
  }

  lemma ConcatAssociative(a: string, b: string, c: string)
    ensures (a + b) + c == a + (b + c)
  {
  }

  /**
   * A tag value written as segments joined by `#` leaves the accumulator
   * holding the segments' texts concatenated in order, and the literal flag
   * telling whether the last segment was a String.
   */
  lemma {:induction false} ConcatenationAccumulates(steps: seq<Step>, rest: seq<Step>, end: LexEnd,
                                                    init: BibEntryInitialization, b: Builder)
    requires IsConcatenation(steps)
    ensures Run(steps + rest, end, init, InTagValue, b)
         == Run(rest, end, init, OutTagValue,
                b.(value := b.value + Joined(steps), isString := steps[|steps| - 1].token.kind == String))
    decreases |steps|
  {
    if |steps| == 1 {
      ConcatenationSingle(steps, rest, end, init, b);
    } else {
      var b1 := b.(isString := steps[0].token.kind == String, value := b.value + steps[0].token.value);
      calc {
        Run(steps + rest, end, init, InTagValue, b);
        == { ConcatenationHead(steps, rest, end, init, b); }
        Run(steps[1..] + rest, end, init, OutTagValue, b1);
        == { ConcatenationAccumulates(steps[2..], rest, end, init, b1); ConcatenationLink(steps, rest, end, init, b); }
        Run(rest, end, init, OutTagValue,
            b.(value := b.value + Joined(steps), isString := steps[|steps| - 1].token.kind == String));
      }
    }
  }

  /** A value of one segment is taken as it stands. */
  lemma ConcatenationSingle(steps: seq<Step>, rest: seq<Step>, end: LexEnd, init: BibEntryInitialization, b: Builder)
    requires IsConcatenation(steps) && |steps| == 1
    ensures Run(steps + rest, end, init, InTagValue, b)
         == Run(rest, end, init, OutTagValue,
                b.(value := b.value + Joined(steps), isString := steps[|steps| - 1].token.kind == String))
  {
    var b1 := b.(isString := steps[0].token.kind == String, value := b.value + steps[0].token.value);
    assert b1 == b.(value := b.value + Joined(steps), isString := steps[|steps| - 1].token.kind == String);
    calc {
      Run(steps + rest, end, init, InTagValue, b);
      == { ConcatenationHead(steps, rest, end, init, b); }
      Run(steps[1..] + rest, end, init, OutTagValue, b1);
      == { assert steps[1..] + rest == rest; }
      Run(rest, end, init, OutTagValue, b1);
    }
  }

  /** The first segment of a concatenation is taken as a value. */
  lemma ConcatenationHead(steps: seq<Step>, rest: seq<Step>, end: LexEnd, init: BibEntryInitialization, b: Builder)
    requires IsConcatenation(steps)
    ensures Run(steps + rest, end, init, InTagValue, b)
         == Run(steps[1..] + rest, end, init, OutTagValue,
                b.(isString := steps[0].token.kind == String, value := b.value + steps[0].token.value))
  {
    assert steps + rest == [steps[0]] + (steps[1..] + rest);
    ValueStep(steps[0], steps[1..] + rest, end, init, b);
  }

  /** After the first segment, a `#` and the rest of the concatenation accumulate onto it. */
  lemma ConcatenationLink(steps: seq<Step>, rest: seq<Step>, end: LexEnd, init: BibEntryInitialization, b: Builder)
    requires IsConcatenation(steps) && |steps| > 1
    requires var b1 := b.(isString := steps[0].token.kind == String, value := b.value + steps[0].token.value);
      Run(steps[2..] + rest, end, init, InTagValue, b1)
      == Run(rest, end, init, OutTagValue,
             b1.(value := b1.value + Joined(steps[2..]), isString := steps[|steps| - 1].token.kind == String))
    ensures Run(steps[1..] + rest, end, init, OutTagValue,
                b.(isString := steps[0].token.kind == String, value := b.value + steps[0].token.value))
         == Run(rest, end, init, OutTagValue,
                b.(value := b.value + Joined(steps), isString := steps[|steps| - 1].token.kind == String))
  {
    var b1 := b.(isString := steps[0].token.kind == String, value := b.value + steps[0].token.value);
    var tail := steps[2..];
    var last := steps[|steps| - 1].token.kind == String;
    calc {
      Run(steps[1..] + rest, end, init, OutTagValue, b1);
      == { assert steps[1..] + rest == [steps[1]] + (tail + rest); ConcatenationStep(steps[1], tail + rest, end, init, b1); }
      Run(tail + rest, end, init, InTagValue, b1);
      Run(rest, end, init, OutTagValue, b1.(value := b1.value + Joined(tail), isString := last));
      == { assert b1.(value := b1.value + Joined(tail), isString := last)
               == b.(value := b.value + Joined(steps), isString := last) by {
             assert Joined(steps) == steps[0].token.value + Joined(tail);
             ConcatAssociative(b.value, steps[0].token.value, Joined(tail));
           }
         }
      Run(rest, end, init, OutTagValue, b.(value := b.value + Joined(steps), isString := last));
    }
  }

  lemma ValueStep(step: Step, rest: seq<Step>, end: LexEnd, init: BibEntryInitialization, b: Builder)
    requires IsValueToken(step.token)
    ensures Run([step] + rest, end, init, InTagValue, b)
         == Run(rest, end, init, OutTagValue, b.(isString := step.token.kind == String, value := b.value + step.token.value))
  {
    var t := Transition(step.token.kind, OutTagValue, SetTagValue);
    assert Lookup(InTagValue, step.token.kind) == Some(t);
    RunStep(step, rest, end, init, InTagValue, b, t,
            b.(isString := step.token.kind == String, value := b.value + step.token.value));
  }

  lemma ConcatenationStep(step: Step, rest: seq<Step>, end: LexEnd, init: BibEntryInitialization, b: Builder)
    requires step.token.kind == Concatenation
    ensures Run([step] + rest, end, init, OutTagValue, b) == Run(rest, end, init, InTagValue, b)
  {
    var t := Transition(Concatenation, InTagValue, Skip);
    assert Lookup(OutTagValue, Concatenation) == Some(t);
    RunStep(step, rest, end, init, OutTagValue, b, t, b);
  }

  /** A comma after a value commits it with its literal flag under the pending name, lower-cased, and clears both. */
  lemma CommaCommitsTag(step: Step, rest: seq<Step>, end: LexEnd, init: BibEntryInitialization, b: Builder)
    requires step.token.kind == Comma
    ensures Run([step] + rest, end, init, OutTagValue, b)
         == Run(rest, end, init, InTagName,
                b.(entry := b.entry.(tags := Tags.SetTagValue(b.entry.tags, b.tagName, TagValue(b.value, b.isString))),
                   value := "", tagName := ""))
  {
    var t := Transition(Comma, InTagName, SetTag);
    assert Lookup(OutTagValue, Comma) == Some(t);
    RunStep(step, rest, end, init, OutTagValue, b, t, Apply(b, SetTag, step.token, init).value);
  }

  /**
   * A closing brace or parenthesis after a value commits it through the
   * string indexer, which keeps an existing tag's flag or stores a literal,
   * and appends the part to the document.
   */
  lemma CloseCommitsAndBuilds(step: Step, rest: seq<Step>, end: LexEnd, init: BibEntryInitialization, b: Builder)
    requires step.token.kind == RightBrace || step.token.kind == RightParenthesis
    requires b.tagName != ""
    ensures var entry := b.entry.(tags := Tags.SetIndexer(b.entry.tags, b.tagName, b.value));
      Run([step] + rest, end, init, OutTagValue, b)
      == Run(rest, end, init, OutEntry, b.(entry := entry, value := "", tagName := "", doc := AddPart(b.doc, entry)))
  {
    var t := Transition(step.token.kind, OutEntry, Build);
    assert Lookup(OutTagValue, step.token.kind) == Some(t);
    RunStep(step, rest, end, init, OutTagValue, b, t, Apply(b, Build, step.token, init).value);
  }

  /** Setting the type initializes the part with the type's default tags, in template order. */
  lemma SetTypeInitializes(b: Builder, token: Token, init: BibEntryInitialization)
    requires init.GetTags(token.value).Success?
    requires Tags.Valid(b.entry.tags)
    ensures var r := Apply(b, SetType, token, init);
      r.Success? && r.value.entry.entryType == token.value &&
      Tags.Keys(r.value.entry.tags) == Tags.AddNew(Tags.Keys(b.entry.tags), init.GetTags(token.value).value) &&
      Tags.Valid(r.value.entry.tags)
  {
    Tags.InitializeKeys(b.entry.tags, init.GetTags(token.value).value);
  }
}
