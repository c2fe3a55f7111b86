/**
 * The settings used when a bibliography is written out: the kind of white
 * space, the tab size, whether and where tag values are aligned, the newline
 * sequence and the tab character. `Indent` and `GetInterTagSpacing` compute
 * the padding a tag line uses.
 */
module Settings {
  import opened Wrappers
  import opened Text

  /** The library's `WhiteSpace` enumeration, including its `Length` sentinel, which is not a valid choice. */
  datatype WhiteSpace = Space | Tab | Length

  /** The exceptions a rendering can raise. */
  datatype WriteError =
    | InvalidEnumArgument   // the white-space kind is not Space or Tab
    | ArgumentOutOfRange    // a padding count came out negative
    | DivideByZero          // tab alignment with a tab size of zero
    | InvalidOperation      // a string constant without any tag

  /** The integer division of C#, which truncates toward zero. */
  function TruncDiv(a: int, b: int): (q: int)
    requires b != 0
    ensures a >= 0 && b > 0 ==> q == a / b
    ensures Abs(q) == Abs(a) / Abs(b)
    ensures q > 0 ==> (a < 0) == (b < 0)
    ensures q < 0 ==> (a < 0) != (b < 0)
  {
    var x, y := Abs(a), Abs(b);
    DivOfNaturals(x, y);
    var m := x / y;
    if (a >= 0) == (b > 0) then m else -m
  }

  lemma DivOfNaturals(x: nat, y: nat)
    requires y > 0
    ensures x / y >= 0
  {
  }

  function Abs(a: int): nat {
    if a < 0 then -a else a
  }

  /** A padding string made only of the character `c`. */
  predicate IsPadding(s: string, c: char) {
    forall i :: 0 <= i < |s| ==> s[i] == c
  }

  class WriteSettings {
    var whiteSpace: WhiteSpace
    var tabSize: int
    var alignTagValues: bool
    var alignAtColumn: int
    var alignAtTabStop: int
    var removeLastComma: bool
    var newLine: string
    var tab: char

    /** The defaults: tabs of size 4, values aligned at column 24 or tab stop 5, "\n" line ends. */
    constructor()
      ensures whiteSpace == Tab && tabSize == 4 && alignTagValues
      ensures alignAtColumn == 24 && alignAtTabStop == 5 && removeLastComma
      ensures newLine == "\n" && tab == '\t'
    {
      whiteSpace := Tab;
      tabSize := 4;
      alignTagValues := true;
      alignAtColumn := 24;
      alignAtTabStop := 5;
      removeLastComma := true;
      newLine := "\n";
      tab := '\t';
    }

    /** The indent of a tag line: one tab character, or `tabSize` spaces. */
    function Indent(): (r: Result<string, WriteError>)
      reads this
      ensures whiteSpace == Tab ==> r == Success([tab])
      ensures whiteSpace == Space ==>
        (r.Success? <==> tabSize >= 0) &&
        (r.Success? ==> |r.value| == tabSize && IsPadding(r.value, ' ')) &&
        (r.Failure? ==> r.error == ArgumentOutOfRange)
      ensures whiteSpace == Length ==> r == Failure(InvalidEnumArgument)
    {
      match whiteSpace
      case Tab => Success([tab])
      case Space => if tabSize < 0 then Failure(ArgumentOutOfRange) else Success(Repeat(' ', tabSize))
      case Length => Failure(InvalidEnumArgument)
    }

    /**
     * The padding between a tag name and its `=`. Without alignment it is one
     * space. Aligned with spaces, it fills the line up to column
     * `alignAtColumn - 1` after an indent of `tabSize`; aligned with tabs, it is
     * `alignAtTabStop - 1 - |key| / tabSize` tab characters (integer division).
     * A negative count is an error.
     */
    function GetInterTagSpacing(key: string): (r: Result<string, WriteError>)
      reads this
      ensures !alignTagValues ==> r == Success(" ")
      ensures alignTagValues && whiteSpace == Space ==>
        (r.Success? <==> tabSize + |key| <= alignAtColumn - 1) &&
        (r.Success? ==> IsPadding(r.value, ' ') && tabSize + |key| + |r.value| == alignAtColumn - 1) &&
        (r.Failure? ==> r.error == ArgumentOutOfRange)
      ensures alignTagValues && whiteSpace == Tab && tabSize == 0 ==> r == Failure(DivideByZero)
      ensures alignTagValues && whiteSpace == Tab && tabSize != 0 ==>
        (r.Success? <==> TruncDiv(|key|, tabSize) <= alignAtTabStop - 1) &&
        (r.Success? ==> IsPadding(r.value, tab) && TruncDiv(|key|, tabSize) + |r.value| == alignAtTabStop - 1) &&
        (r.Failure? ==> r.error == ArgumentOutOfRange)
      ensures alignTagValues && whiteSpace == Length ==> r == Failure(InvalidEnumArgument)
    {
      if !alignTagValues then Success(" ")
      else match whiteSpace
        case Tab =>
          if tabSize == 0 then Failure(DivideByZero)
          else
            var requiredTabs := alignAtTabStop - 1 - TruncDiv(|key|, tabSize);
            if requiredTabs < 0 then Failure(ArgumentOutOfRange) else Success(Repeat(tab, requiredTabs))
        case Space =>
          var requiredSpaces := alignAtColumn - 1 - |key| - tabSize;
          if requiredSpaces < 0 then Failure(ArgumentOutOfRange) else Success(Repeat(' ', requiredSpaces))
        case Length => Failure(InvalidEnumArgument)
    }
  }

  /**
   * Space alignment puts every `=` in the same column: indent, tag name and
   * padding together span `alignAtColumn - 1` characters, whatever the name.
   */
  lemma SpaceAlignmentColumn(s: WriteSettings, key: string)
    requires s.alignTagValues && s.whiteSpace == Space
    requires s.Indent().Success? && s.GetInterTagSpacing(key).Success?
    ensures |s.Indent().value + key + s.GetInterTagSpacing(key).value| == s.alignAtColumn - 1
  {
  }
}
