/**
 * A bibliography part: an entry such as `@book{key, title = {...}}` or a
 * string constant `@string(name = {...})`. Both have a type, an optional cite
 * key and an ordered, case-insensitively keyed table of tags.
 */
module Entries {
  import opened Wrappers
  import opened Text
  import opened TagValues
  import opened Tags
  import opened Settings

  /** A snapshot of a part's state. */
  datatype PartValue = PartValue(entryType: string, key: Option<string>, tags: seq<Tag>)

  /** The named tag properties of an entry. */
  datatype Property =
    | Address | Annote | Author | Booktitle | Chapter | Crossref | Edition | Editor
    | Howpublished | Institution | Journal | Note | Number | Organization | Pages
    | Publisher | School | Series | Title | Volume | Year | Month | Abstract

  /** The name of the property as declared. */
  function PropertyName(p: Property): (r: string)
    ensures |r| > 0
  {
    match p
    case Address => "Address"
    case Annote => "Annote"
    case Author => "Author"
    case Booktitle => "Booktitle"
    case Chapter => "Chapter"
    case Crossref => "Crossref"
    case Edition => "Edition"
    case Editor => "Editor"
    case Howpublished => "Howpublished"
    case Institution => "Institution"
    case Journal => "Journal"
    case Note => "Note"
    case Number => "Number"
    case Organization => "Organization"
    case Pages => "Pages"
    case Publisher => "Publisher"
    case School => "School"
    case Series => "Series"
    case Title => "Title"
    case Volume => "Volume"
    case Year => "Year"
    case Month => "Month"
    case Abstract => "Abstract"
  }

  /** A member name with its first letter lower-cased, the rest kept. */
  function FormattedName(name: string): (r: string)
    requires |name| > 0
    ensures |r| == |name| && r[0] == LowerChar(name[0]) && r[1..] == name[1..]
  {
    [LowerChar(name[0])] + name[1..]
  }

  /** The tag a property reads and writes: its name with the first letter lower-cased. */
  function PropertyTag(p: Property): (r: string)
    ensures r == FormattedName(PropertyName(p))
  {
    var n := PropertyName(p);
    [LowerChar(n[0])] + n[1..]
  }

  /** The key as the writers append it: nothing for a part without a key. */
  function KeyText(key: Option<string>): string {
    if key.None? then "" else key.value
  }

  /** One tag line: indent, name, padding, `= `, the rendered value and a newline. */
  function TagLine(t: Tag, s: WriteSettings): (r: Result<string, WriteError>)
    reads s
    ensures r.Success? <==> s.Indent().Success? && s.GetInterTagSpacing(t.0).Success?
    ensures s.Indent().Failure? ==> r == Failure(s.Indent().error)
    ensures s.Indent().Success? && s.GetInterTagSpacing(t.0).Failure? ==> r == Failure(s.GetInterTagSpacing(t.0).error)
    ensures r.Success? ==>
      r.value == s.Indent().value + t.0 + s.GetInterTagSpacing(t.0).value + "= " + t.1.ToString() + s.newLine
  {
    var indent :- s.Indent();
    var spacing :- s.GetInterTagSpacing(t.0);
    Success(indent + t.0 + spacing + "= " + t.1.ToString() + s.newLine)
  }

  /** The tag lines in table order; the first line that fails decides the error. */
  function TagLines(tags: seq<Tag>, s: WriteSettings): (r: Result<string, WriteError>)
    reads s
    ensures r.Failure? ==> exists i :: 0 <= i < |tags| && TagLine(tags[i], s) == Failure(r.error)
  {
    if tags == [] then Success("")
    else
      var line :- TagLine(tags[0], s);
      var rest :- TagLines(tags[1..], s);
      Success(line + rest)
  }

  /** Sequencing two renderings: the first failure wins, otherwise the texts are joined. */
  function Then(a: Result<string, WriteError>, b: Result<string, WriteError>): Result<string, WriteError> {
    if a.Failure? then a else if b.Failure? then b else Success(a.value + b.value)
  }

  /** Rendering a table split in two renders the halves in order. */
  lemma {:induction false} TagLinesAppend(a: seq<Tag>, b: seq<Tag>, s: WriteSettings)
    ensures TagLines(a + b, s) == Then(TagLines(a, s), TagLines(b, s))
    decreases |a|
  {
    if a == [] {
      assert a + b == b;
      if TagLines(b, s).Success? {
        assert "" + TagLines(b, s).value == TagLines(b, s).value;
      }
    } else {
      assert (a + b)[0] == a[0];
      assert (a + b)[1..] == a[1..] + b;
      TagLinesAppend(a[1..], b, s);
      var line := TagLine(a[0], s);
      if line.Success? {
        var rest := TagLines(a[1..], s);
        if rest.Success? && TagLines(b, s).Success? {
          assert TagLines(a + b, s) == Success(line.value + (rest.value + TagLines(b, s).value));
          assert line.value + (rest.value + TagLines(b, s).value) == line.value + rest.value + TagLines(b, s).value;
        }
      }
    }
  }

  /** A table renders exactly when every tag line renders. */
  lemma {:induction false} TagLinesSucceed(tags: seq<Tag>, s: WriteSettings)
    ensures TagLines(tags, s).Success? <==> forall i :: 0 <= i < |tags| ==> TagLine(tags[i], s).Success?
    decreases |tags|
  {
    if tags != [] {
      TagLinesSucceed(tags[1..], s);
      assert forall i :: 1 <= i < |tags| ==> tags[i] == tags[1..][i - 1];
    }
  }

  /** The two-space layout the parameterless writer produces for the tags. */
  function DefaultLines(tags: seq<Tag>): string {
    if tags == [] then ""
    else "  " + tags[0].0 + " = " + tags[0].1.ToString() + "\n" + DefaultLines(tags[1..])
  }

  /** The whole two-space layout of an entry. */
  function DefaultText(p: PartValue): string {
    "@" + p.entryType + "{" + KeyText(p.key) + ",\n" + DefaultLines(p.tags) + "}\n"
  }

  /** Settings of Space, TabSize 2, no alignment and "\n" give the two-space layout. */
  predicate IsDefaultLayout(s: WriteSettings)
    reads s
  {
    s.whiteSpace == Space && s.tabSize == 2 && !s.alignTagValues && s.newLine == "\n"
  }

  lemma {:induction false} DefaultTagLines(tags: seq<Tag>, s: WriteSettings)
    requires IsDefaultLayout(s)
    ensures TagLines(tags, s) == Success(DefaultLines(tags))
    decreases |tags|
  {
    if tags != [] {
      DefaultTagLines(tags[1..], s);
      assert Repeat(' ', 2) == "  ";
      assert s.Indent() == Success("  ");
      var t := tags[0];
      var line := "  " + t.0 + " " + "= " + t.1.ToString() + "\n";
      assert TagLine(t, s) == Success(line);
      assert TagLines(tags, s) == Success(line + DefaultLines(tags[1..]));
      assert " " + "= " == " = ";
      assert line == "  " + t.0 + " = " + t.1.ToString() + "\n";
    }
  }

  class BibEntry {
    var entryType: string
    var key: Option<string>
    var tags: seq<Tag>

    /** Tag names are stored lower-cased and occur once. */
    ghost predicate Valid()
      reads this
    {
      Tags.Valid(tags)
    }

    /** A new part: no type, no key, no tags. */
    constructor()
      ensures Valid() && entryType == "" && key == None && tags == []
    {
      entryType := "";
      key := None;
      tags := [];
    }

    function Value(): (r: PartValue)
      reads this
      ensures r.entryType == entryType && r.key == key && r.tags == tags
    {
      PartValue(entryType, key, tags)
    }

    /** The `Type` setter: later reads return this value; nothing else changes. */
    method SetType(t: string)
      modifies this
      ensures entryType == t && key == old(key) && tags == old(tags)
    {
      entryType := t;
    }

    /** The `Key` setter: later reads return this value; nothing else changes. */
    method SetKey(k: string)
      modifies this
      ensures key == Some(k) && entryType == old(entryType) && tags == old(tags)
    {
      key := Some(k);
    }

    /** The tag names, in insertion order. */
    function TagNames(): (r: seq<string>)
      reads this
      ensures |r| == |tags| && forall i :: 0 <= i < |tags| ==> r[i] == tags[i].0
    {
      Keys(tags)
    }

    /** The indexer's getter: the content stored under the lower-cased name, or "". */
    function Get(name: string): (r: string)
      reads this
      requires Valid()
      ensures Lower(name) in Keys(tags) ==> r == Find(tags, Lower(name)).value.content
      ensures Lower(name) !in Keys(tags) ==> r == ""
    {
      Tags.Get(tags, name)
    }

    /** The indexer's setter. */
    method Set(name: string, value: string)
      requires Valid()
      modifies this
      ensures Valid() && tags == SetIndexer(old(tags), name, value)
      ensures entryType == old(entryType) && key == old(key)
      ensures Get(name) == value
    {
      SetIndexerStores(tags, name, value);
      SetIndexerGet(tags, name, value, name);
      tags := SetIndexer(tags, name, value);
    }

    /** The value stored under the lower-cased name, or None where the library returns null. */
    function GetTagValue(name: string): (r: Option<TagValue>)
      reads this
      ensures r == Find(tags, Lower(name))
    {
      Tags.GetTagValue(tags, name)
    }

    method SetTagValue(name: string, v: TagValue)
      requires Valid()
      modifies this
      ensures Valid() && tags == Tags.SetTagValue(old(tags), name, v)
      ensures entryType == old(entryType) && key == old(key)
      ensures GetTagValue(name) == Some(v)
    {
      SetTagValueStores(tags, name, v, name);
      tags := Tags.SetTagValue(tags, name, v);
    }

    /** Sets every listed tag to "", in list order. */
    method Initialize(names: seq<string>)
      requires Valid()
      modifies this
      ensures Valid() && tags == Tags.Initialize(old(tags), names)
      ensures entryType == old(entryType) && key == old(key)
    {
      var i := 0;
      while i < |names|
        invariant 0 <= i <= |names|
        invariant Valid()
        invariant Tags.Initialize(tags, names[i..]) == Tags.Initialize(old(tags), names)
        invariant entryType == old(entryType) && key == old(key)
      {
        assert names[i..][1..] == names[i + 1..];
        Set(names[i], "");
        i := i + 1;
      }
    }

    /** A named property's getter. */
    function GetProperty(p: Property): (r: string)
      reads this
      requires Valid()
      ensures r == Get(FormattedName(PropertyName(p)))
    {
      Get(PropertyTag(p))
    }

    /** A named property's setter. */
    method SetProperty(p: Property, value: string)
      requires Valid()
      modifies this
      ensures Valid() && tags == SetIndexer(old(tags), FormattedName(PropertyName(p)), value)
      ensures entryType == old(entryType) && key == old(key)
      ensures GetProperty(p) == value
    {
      Set(PropertyTag(p), value);
    }

    /** `ToString(settings)` of an entry. */
    function Render(s: WriteSettings): (r: Result<string, WriteError>)
      reads this, s
      ensures r.Success? <==> TagLines(tags, s).Success?
      ensures r.Failure? ==> r.error == TagLines(tags, s).error
      ensures r.Success? ==>
        r.value == "@" + entryType + "{" + KeyText(key) + "," + s.newLine + TagLines(tags, s).value + "}" + s.newLine
    {
      var lines :- TagLines(tags, s);
      Success("@" + entryType + "{" + KeyText(key) + "," + s.newLine + lines + "}" + s.newLine)
    }

    /** The parameterless `ToString()`: two-space indent, one space before `=`. */
    method RenderDefault() returns (r: string)
      ensures r == DefaultText(Value())
    {
      var s := new WriteSettings();
      s.whiteSpace := Space;
      s.tabSize := 2;
      s.alignTagValues := false;
      DefaultTagLines(tags, s);
      var rendered := Render(s);
      r := rendered.value;
    }

    /** `StringName` of a string constant: the first tag's key. */
    function StringName(): (r: Result<string, WriteError>)
      reads this
      ensures tags == [] <==> r == Failure(InvalidOperation)
      ensures tags != [] ==> r == Success(TagNames()[0])
    {
      if tags == [] then Failure(InvalidOperation) else Success(tags[0].0)
    }

    /** `StringValue` of a string constant: the first tag's rendered value. */
    function StringValue(): (r: Result<string, WriteError>)
      reads this
      ensures tags == [] <==> r == Failure(InvalidOperation)
      ensures tags != [] ==> r == Success(tags[0].1.ToString())
    {
      if tags == [] then Failure(InvalidOperation) else Success(tags[0].1.ToString())
    }

    /** `ToString(settings)` of a string constant: only the first tag is written, in parentheses. */
    function RenderStringConstant(s: WriteSettings): (r: Result<string, WriteError>)
      reads this, s
      ensures tags == [] ==> r == Failure(InvalidOperation)
      ensures tags != [] ==> (r.Success? <==> s.GetInterTagSpacing(tags[0].0).Success?)
      ensures tags != [] && r.Failure? ==> r.error == s.GetInterTagSpacing(tags[0].0).error
      ensures r.Success? ==>
        r.value == "@" + entryType + "(" + StringName().value + s.GetInterTagSpacing(StringName().value).value
                   + "= " + StringValue().value + ")" + s.newLine
    {
      if tags == [] then Failure(InvalidOperation)
      else
        var spacing :- s.GetInterTagSpacing(tags[0].0);
        Success("@" + entryType + "(" + tags[0].0 + spacing + "= " + tags[0].1.ToString() + ")" + s.newLine)
    }

    /** The parameterless `ToString()` of a string constant. */
    method RenderStringConstantDefault() returns (r: Result<string, WriteError>)
      ensures tags == [] ==> r == Failure(InvalidOperation)
      ensures tags != [] ==> r == Success("@" + entryType + "(" + tags[0].0 + " " + "= " + tags[0].1.ToString() + ")\n")
    {
      var s := new WriteSettings();
      s.whiteSpace := Space;
      s.tabSize := 2;
      s.alignTagValues := false;
      r := RenderStringConstant(s);
      if tags != [] {
        var x := "@" + entryType + "(" + tags[0].0 + " " + "= " + tags[0].1.ToString();
        assert r.value == x + ")" + "\n";
        assert x + ")" + "\n" == x + ")\n";
      }
    }
  }

  /** An entry set through `["Title"]` is read back through any spelling and through the property. */
  lemma TitleIndexer()
    ensures Tags.Get(SetIndexer([], "Title", "Mapreduce"), "title") == "Mapreduce"
    ensures Tags.Get(SetIndexer([], "Title", "Mapreduce"), "TitlE") == "Mapreduce"
    ensures Tags.Get(SetIndexer([], "Title", "Mapreduce"), PropertyTag(Title)) == "Mapreduce"
  {
    assert Lower("TitlE") == Lower("Title") == "title" by {
      assert IsAsciiUpper('T') && IsAsciiUpper('E');
    }
    assert PropertyTag(Title) == "title";
    LowerOfLower("title");
    SetIndexerGet([], "Title", "Mapreduce", "title");
    SetIndexerGet([], "Title", "Mapreduce", "TitlE");
  }
}
