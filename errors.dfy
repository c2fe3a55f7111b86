/**
 * Parse errors and the message of the unexpected-token exception.
 */
module Errors {
  import opened Text
  import opened Tokens

  /** The errors a parse can end with, each with its payload. */
  datatype ParseError =
    | UnexpectedToken(line: int, column: int, unexpected: TokenType, expected: seq<TokenType>)
    | UnrecognizableCharacter(line: int, column: int, c: char)
    | TemplateNotFound(template: string)   // a type maps to a template the initializer does not hold

  function Names(types: seq<TokenType>): (r: seq<string>)
    ensures |r| == |types| && forall i :: 0 <= i < |types| ==> r[i] == TypeName(types[i])
  {
    seq(|types|, i requires 0 <= i < |types| => TypeName(types[i]))
  }

  /** The first sentence of the message: what was found, and where. */
  function Header(line: int, column: int, unexpected: TokenType): string {
    "An unexpected token was found.\nToken: '" + TypeName(unexpected) + "'.\nAt line "
      + IntToString(line) + ", column " + IntToString(column) + "."
  }

  /** Every name followed by ", ", in order. */
  function Itemized(names: seq<string>): string
    decreases |names|
  {
    if names == [] then "" else Itemized(names[..|names| - 1]) + names[|names| - 1] + ", "
  }

  /** The message as the constructor builds it: the items appended, then the last two characters removed. */
  function BuiltMessage(line: int, column: int, unexpected: TokenType, expected: seq<TokenType>): (r: string)
    ensures StartsWith(r, Header(line, column, unexpected))
  {
    var full := Header(line, column, unexpected) + "\nExpected: " + Itemized(Names(expected));
    full[..|full| - 2]
  }

  /** The intended message: the expected names joined by ", " after "Expected: ". */
  function Message(line: int, column: int, unexpected: TokenType, expected: seq<TokenType>): (r: string)
    ensures StartsWith(r, Header(line, column, unexpected) + "\nExpected: ")
    ensures |expected| == 1 ==> r == Header(line, column, unexpected) + "\nExpected: " + TypeName(expected[0])
  {
    Header(line, column, unexpected) + "\nExpected: " + Join(Names(expected), ", ")
  }

  lemma {:induction false} ItemizedJoin(names: seq<string>)
    requires names != []
    ensures Itemized(names) == Join(names, ", ") + ", "
    decreases |names|
  {
    var init := names[..|names| - 1];
    var last := names[|names| - 1];
    if init == [] {
      assert names == [last];
    } else {
      ItemizedJoin(init);
      JoinSnoc(init, ", ", last);
      assert init + [last] == names;
    }
  }

  /** With at least one expected type, the built message lists the names with no trailing separator. */
  lemma BuiltMessageLists(line: int, column: int, unexpected: TokenType, expected: seq<TokenType>)
    requires expected != []
    ensures BuiltMessage(line, column, unexpected, expected) == Message(line, column, unexpected, expected)
  {
    ItemizedJoin(Names(expected));
    var m := Message(line, column, unexpected, expected);
    assert Header(line, column, unexpected) + "\nExpected: " + Itemized(Names(expected)) == m + ", ";
  }

  /** With no expected type, the removal takes the ": " of "Expected: " away. */
  lemma BuiltMessageEmpty(line: int, column: int, unexpected: TokenType)
    ensures BuiltMessage(line, column, unexpected, []) == Header(line, column, unexpected) + "\nExpected"
  {
    var h := Header(line, column, unexpected);
    assert Itemized(Names([])) == "";
    assert h + "\nExpected: " + "" == (h + "\nExpected") + ": ";
  }

  /** The exception raised for a token the parser does not accept in its current state. */
  class UnexpectedTokenException {
    const lineNumber: int
    const columnNumber: int
    const message: string

    constructor(line: int, column: int, unexpected: TokenType, expected: seq<TokenType>)
      ensures lineNumber == line && columnNumber == column
      ensures message == BuiltMessage(line, column, unexpected, expected)
    {
      lineNumber := line;
      columnNumber := column;
      var names := Names(expected);
      var items := "";
      var i := 0;
      while i < |names|
        invariant 0 <= i <= |names|
        invariant items == Itemized(names[..i])
      {
        assert names[..i + 1][..i] == names[..i];
        items := items + names[i] + ", ";
        i := i + 1;
      }
      assert names[..|names|] == names;
      var msg := Header(line, column, unexpected) + "\nExpected: " + items;
      message := msg[..|msg| - 2];
    }
  }

  lemma SmallNumbers()
    ensures IntToString(1) == "1" && IntToString(10) == "10"
  {
    assert DigitChar(1) == '1' && DigitChar(0) == '0';
    assert NatToString(10) == NatToString(1) + [DigitChar(0)];
  }

  lemma TestExpectedNames()
    ensures Join(Names([Comma, RightBrace]), ", ") == "Comma, RightBrace"
  {
    assert Names([Comma, RightBrace]) == ["Comma", "RightBrace"];
    assert ["Comma", "RightBrace"][1..] == ["RightBrace"];
  }

  /** The intended message for a comma or a closing brace expected. */
  lemma CommaOrBraceNames(line: int, column: int, unexpected: TokenType)
    ensures Message(line, column, unexpected, [Comma, RightBrace])
         == Header(line, column, unexpected) + "\nExpected: " + "Comma, RightBrace"
  {
    TestExpectedNames();
  }

  /** The first sentence for end of input at line 1, column 10. */
  lemma EndOfInputHeader()
    ensures Header(1, 10, EOF) == "An unexpected token was found.\nToken: 'EOF'.\nAt line 1, column 10."
  {
    SmallNumbers();
    assert TypeName(EOF) == "EOF";
  }

  /**
   * Where a comma or a closing brace was expected, the message ends with the
   * two names joined, wherever the token was found (`EndOfInputHeader` gives
   * the first sentence for the end of input at line 1, column 10).
   */
  lemma CommaOrBraceMessage(line: int, column: int, unexpected: TokenType)
    ensures BuiltMessage(line, column, unexpected, [Comma, RightBrace])
         == Header(line, column, unexpected) + "\nExpected: " + "Comma, RightBrace"
  {
    BuiltMessageLists(line, column, unexpected, [Comma, RightBrace]);
    CommaOrBraceNames(line, column, unexpected);
  }
}
