/**
 * A tag's value: its content and whether it is a literal (`IsString`, written
 * between braces) or a bare name such as a reference to a string constant or
 * an unquoted number.
 */
module TagValues {

  datatype TagValue = TagValue(content: string, isString: bool) {

    /** The value as written in a bib file: braced when literal, bare otherwise. */
    function ToString(): (r: string)
      ensures isString ==> |r| == |content| + 2 && r[0] == '{' && r[|r| - 1] == '}' && r[1..|r| - 1] == content
      ensures !isString ==> r == content
    {
      if isString then "{" + content + "}" else content
    }

    /** The `Content` setter: the flag is kept. */
    function WithContent(c: string): (r: TagValue)
      ensures r.content == c && r.isString == isString
    {
      this.(content := c)
    }

    /** The `IsString` setter: the content is kept. */
    function WithIsString(b: bool): (r: TagValue)
      ensures r.content == content && r.isString == b
    {
      this.(isString := b)
    }
  }

  /**
   * `new TagValue()`: a literal whose content is not set. The library leaves the
   * content null, which renders like the empty string; the model uses "".
   */
  function Empty(): (r: TagValue)
    ensures r.isString && r.content == ""
  {
    TagValue("", true)
  }

  /** `new TagValue(content)`: a literal with the given content. */
  function Literal(content: string): (r: TagValue)
    ensures r.isString && r.content == content
  {
    TagValue(content, true)
  }

  /** Reads the content back from a rendered value, given the flag it was rendered with. */
  function ContentOf(rendered: string, isString: bool): string {
    if isString && |rendered| >= 2 then rendered[1..|rendered| - 1] else rendered
  }

  /** Rendering loses nothing: the content comes back from the rendered text. */
  lemma ContentRoundTrip(v: TagValue)
    ensures ContentOf(v.ToString(), v.isString) == v.content
  {
  }

  /** Rendering is injective on values: two values that render alike and carry the same flag are equal. */
  lemma ToStringInjective(a: TagValue, b: TagValue)
    requires a.isString == b.isString && a.ToString() == b.ToString()
    ensures a == b
  {
    ContentRoundTrip(a);
    ContentRoundTrip(b);
  }
}
