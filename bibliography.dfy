/**
 * The bibliography object: a document, cite-key bookkeeping over its entries
 * and the text layout of writing it out. The author-name function and the
 * suffix sequence are parameters: their definitions are not part of this model.
 */
module Bibliographies {
  import opened Wrappers
  import opened Text
  import Tags
  import opened Settings
  import opened Entries
  import opened Document

  /** The exceptions the key bookkeeping raises. */
  datatype KeyError = NullReference | IndexOutOfRange

  /** Whether some key equals `key`, ignoring case; parts without a key use none. */
  predicate KeyInUse(keys: seq<Option<string>>, key: string)
    ensures (forall i :: 0 <= i < |keys| ==> keys[i].None?) ==> !KeyInUse(keys, key)
  {
    exists i :: 0 <= i < |keys| && keys[i].Some? && Lower(keys[i].value) == Lower(key)
  }

  /**
   * The key search as written: the first keyless entry met before a match
   * dereferences a null key.
   */
  function KeyInUseAsWritten(keys: seq<Option<string>>, key: string): (r: Result<bool, KeyError>)
    ensures r.Failure? ==> r.error == NullReference
    decreases |keys|
  {
    if keys == [] then Success(false)
    else if keys[0].None? then Failure(NullReference)
    else if Lower(keys[0].value) == Lower(key) then Success(true)
    else KeyInUseAsWritten(keys[1..], key)
  }

  /** When every entry has a key, the search as written answers exactly the intended question. */
  lemma {:induction false} KeyInUseAsWrittenAgrees(keys: seq<Option<string>>, key: string)
    requires forall i :: 0 <= i < |keys| ==> keys[i].Some?
    ensures KeyInUseAsWritten(keys, key) == Success(KeyInUse(keys, key))
    decreases |keys|
  {
    if keys != [] {
      KeyInUseAsWrittenAgrees(keys[1..], key);
      if KeyInUse(keys[1..], key) {
        var i :| 0 <= i < |keys[1..]| && keys[1..][i].Some? && Lower(keys[1..][i].value) == Lower(key);
        assert keys[i + 1] == keys[1..][i];
      }
      if KeyInUse(keys, key) && Lower(keys[0].value) != Lower(key) {
        var i :| 0 <= i < |keys| && keys[i].Some? && Lower(keys[i].value) == Lower(key);
        assert keys[1..][i - 1] == keys[i];
      }
    }
  }

  /** A keyless entry ahead of the others makes the search as written fail, though no key is in use. */
  lemma KeylessEntryFails()
    ensures KeyInUseAsWritten([None, Some("ref:a")], "ref:b") == Failure(NullReference)
    ensures !KeyInUse([None, Some("ref:a")], "ref:b")
  {
    assert Lower("ref:a") == "ref:a" && Lower("ref:b") == "ref:b";
  }

  /** The base of a generated key: `ref:`, the first author's last name, the year. */
  function CiteKeyBase(p: PartValue, lastName: seq<Tags.Tag> -> string): (r: string)
    ensures StartsWith(r, "ref:")
    ensures |r| == 4 + |lastName(p.tags)| + |Tags.Get(p.tags, "year")|
  {
    "ref:" + lastName(p.tags) + Tags.Get(p.tags, "year")
  }

  /** The first suffix, in the generator's order, that makes an unused key, if any. */
  function FreeSuffix(keys: seq<Option<string>>, base: string, suffixes: seq<string>): (r: Option<string>)
    ensures r.Some? ==> r.value in suffixes && !KeyInUse(keys, base + r.value)
    decreases |suffixes|
  {
    if suffixes == [] then None
    else if !KeyInUse(keys, base + suffixes[0]) then Some(suffixes[0])
    else FreeSuffix(keys, base, suffixes[1..])
  }

  /**
   * A suffix is found exactly when some suffix is free, and it is the first
   * free one: every suffix before it is taken.
   */
  lemma {:induction false} FreeSuffixFirst(keys: seq<Option<string>>, base: string, suffixes: seq<string>)
    ensures FreeSuffix(keys, base, suffixes).None? <==>
      forall i :: 0 <= i < |suffixes| ==> KeyInUse(keys, base + suffixes[i])
    ensures FreeSuffix(keys, base, suffixes).Some? ==>
      exists i :: 0 <= i < |suffixes| && suffixes[i] == FreeSuffix(keys, base, suffixes).value &&
        !KeyInUse(keys, base + suffixes[i]) &&
        forall j :: 0 <= j < i ==> KeyInUse(keys, base + suffixes[j])
    decreases |suffixes|
  {
    if suffixes != [] {
      FreeSuffixFirst(keys, base, suffixes[1..]);
      assert forall i :: 1 <= i < |suffixes| ==> suffixes[i] == suffixes[1..][i - 1];
      if KeyInUse(keys, base + suffixes[0]) && FreeSuffix(keys, base, suffixes[1..]).Some? {
        var i :| 0 <= i < |suffixes[1..]| && suffixes[1..][i] == FreeSuffix(keys, base, suffixes[1..]).value &&
          !KeyInUse(keys, base + suffixes[1..][i]) &&
          forall j :: 0 <= j < i ==> KeyInUse(keys, base + suffixes[1..][j]);
        assert forall j :: 1 <= j < i + 1 ==> suffixes[j] == suffixes[1..][j - 1];
        assert suffixes[i + 1] == suffixes[1..][i];
      }
    }
  }

  /** An answer of the search as written is the intended answer; only the null dereference differs. */
  lemma {:induction false} KeyInUseAsWrittenSound(keys: seq<Option<string>>, key: string)
    ensures KeyInUseAsWritten(keys, key).Success? ==> KeyInUseAsWritten(keys, key).value == KeyInUse(keys, key)
    ensures KeyInUseAsWritten(keys, key).Failure? ==>
      KeyInUseAsWritten(keys, key).error == NullReference && exists i :: 0 <= i < |keys| && keys[i].None?
    decreases |keys|
  {
    if keys != [] && keys[0].Some? && Lower(keys[0].value) != Lower(key) {
      KeyInUseAsWrittenSound(keys[1..], key);
      if KeyInUse(keys[1..], key) {
        var i :| 0 <= i < |keys[1..]| && keys[1..][i].Some? && Lower(keys[1..][i].value) == Lower(key);
        assert keys[i + 1] == keys[1..][i];
      }
      if KeyInUse(keys, key) {
        var i :| 0 <= i < |keys| && keys[i].Some? && Lower(keys[i].value) == Lower(key);
        assert keys[1..][i - 1] == keys[i];
      }
      if KeyInUseAsWritten(keys[1..], key).Failure? {
        var i :| 0 <= i < |keys[1..]| && keys[1..][i].None?;
        assert keys[i + 1] == keys[1..][i];
      }
    }
  }

  /**
   * The suffix search as written: each candidate is looked up with the key
   * search as written, so a keyless entry can end it with a null dereference.
   */
  function CiteKeySuffixAsWritten(keys: seq<Option<string>>, base: string, suffixes: seq<string>): (r: Result<string, KeyError>)
    ensures r.Success? ==> r.value in suffixes && KeyInUseAsWritten(keys, base + r.value) == Success(false)
    ensures r == Failure(IndexOutOfRange) <==>
      forall j :: 0 <= j < |suffixes| ==> KeyInUseAsWritten(keys, base + suffixes[j]) == Success(true)
    decreases |suffixes|
  {
    if suffixes == [] then Failure(IndexOutOfRange)
    else match KeyInUseAsWritten(keys, base + suffixes[0])
      case Failure(e) => Failure(e)
      case Success(inUse) =>
        if !inUse then Success(suffixes[0])
        else
          assert forall j :: 0 < j < |suffixes| ==> suffixes[1..][j - 1] == suffixes[j];
          CiteKeySuffixAsWritten(keys, base, suffixes[1..])
  }

  /**
   * The suffix search as written fails with a null dereference only when some
   * entry has no key; otherwise it finds the first free suffix, or runs out.
   */
  lemma {:induction false} CiteKeySuffixAsWrittenSound(keys: seq<Option<string>>, base: string, suffixes: seq<string>)
    ensures CiteKeySuffixAsWritten(keys, base, suffixes) == Failure(NullReference) ==>
      exists i :: 0 <= i < |keys| && keys[i].None?
    ensures CiteKeySuffixAsWritten(keys, base, suffixes) != Failure(NullReference) ==>
      (FreeSuffix(keys, base, suffixes).Some? ==>
        CiteKeySuffixAsWritten(keys, base, suffixes) == Success(FreeSuffix(keys, base, suffixes).value)) &&
      (FreeSuffix(keys, base, suffixes).None? ==>
        CiteKeySuffixAsWritten(keys, base, suffixes) == Failure(IndexOutOfRange))
    decreases |suffixes|
  {
    if suffixes != [] {
      KeyInUseAsWrittenSound(keys, base + suffixes[0]);
      CiteKeySuffixAsWrittenSound(keys, base, suffixes[1..]);
    }
  }

  /** With a keyless entry first, the search as written fails where a free suffix exists. */
  lemma KeylessEntryBlocksSuffix()
    ensures CiteKeySuffixAsWritten([None, Some("ref:a")], "ref:b", ["a"]) == Failure(NullReference)
    ensures FreeSuffix([None, Some("ref:a")], "ref:b", ["a"]) == Some("a")
  {
    assert Lower("ref:a") == "ref:a" && Lower("ref:ba") == "ref:ba";
    assert !KeyInUse([None, Some("ref:a")], "ref:ba");
  }

  /** Header lines, each followed by a line terminator. */
  function HeaderText(lines: seq<string>, newLine: string): string
    decreases |lines|
  {
    if lines == [] then "" else HeaderText(lines[..|lines| - 1], newLine) + lines[|lines| - 1] + newLine
  }

  /** One more entry that renders is a newline and its text after the text so far. */
  lemma EntriesTextStep(parts: seq<BibEntry>, i: nat, s: WriteSettings, body: string)
    requires i < |parts| && EntriesText(parts[..i], s) == Success(body) && parts[i].Render(s).Success?
    ensures EntriesText(parts[..i + 1], s) == Success(body + s.newLine + parts[i].Render(s).value)
  {
    assert parts[..i + 1][..i] == parts[..i];
    assert body + s.newLine + parts[i].Render(s).value == body + (s.newLine + parts[i].Render(s).value);
  }

  /** The entries loop of `Write`: each entry after a newline, stopping at the first that fails to render. */
  method WriteEntries(entries: seq<BibEntry>, settings: WriteSettings) returns (r: Result<string, WriteError>)
    ensures r == EntriesText(entries, settings)
  {
    var body := "";
    var i := 0;
    while i < |entries|
      invariant 0 <= i <= |entries| && EntriesText(entries[..i], settings) == Success(body)
    {
      var rendered := entries[i].Render(settings);
      if rendered.Failure? {
        EntriesFailFrom(entries, i, settings);
        return Failure(rendered.error);
      }
      EntriesTextStep(entries, i, settings, body);
      body := body + settings.newLine + rendered.value;
      i := i + 1;
    }
    assert entries[..i] == entries;
    return Success(body);
  }

  /** Entries, each preceded by a blank line; the first entry that fails to render stops the writing. */
  function EntriesText(parts: seq<BibEntry>, s: WriteSettings): (r: Result<string, WriteError>)
    reads parts, s
    ensures r.Failure? ==> exists i :: 0 <= i < |parts| && parts[i].Render(s) == Failure(r.error)
    decreases |parts|
  {
    if parts == [] then Success("")
    else Then(EntriesText(parts[..|parts| - 1], s), Then(Success(s.newLine), parts[|parts| - 1].Render(s)))
  }

  /** Writing the entries succeeds exactly when every entry renders. */
  lemma {:induction false} EntriesTextSucceeds(parts: seq<BibEntry>, s: WriteSettings)
    ensures EntriesText(parts, s).Success? <==> forall i :: 0 <= i < |parts| ==> parts[i].Render(s).Success?
    decreases |parts|
  {
    if parts != [] {
      var init := parts[..|parts| - 1];
      EntriesTextSucceeds(init, s);
      assert forall i :: 0 <= i < |init| ==> init[i] == parts[i];
    }
  }

  class Bibliography {
    var dom: BibliographyDOM

    /** A bibliography over an empty document. */
    constructor()
      ensures fresh(dom) && dom.header == [] && dom.entries == [] && dom.strings == []
    {
      dom := new BibliographyDOM();
    }

    /** Whether a key is used by an entry, ignoring case; keyless entries are passed over. */
    method IsKeyInUse(key: string) returns (r: bool)
      ensures r == KeyInUse(EntryKeys(dom.entries), key)
    {
      var entries := dom.entries;
      var target := Lower(key);
      var i := 0;
      while i < |entries|
        invariant 0 <= i <= |entries|
        invariant !KeyInUse(EntryKeys(entries[..i]), key)
      {
        assert EntryKeys(entries[..i + 1]) == EntryKeys(entries[..i]) + [entries[i].key];
        if entries[i].key.Some? && Lower(entries[i].key.value) == target {
          assert EntryKeys(entries)[i] == entries[i].key;
          return true;
        }
        i := i + 1;
      }
      assert entries[..i] == entries;
      return false;
    }

    /** The first suffix, in the generator's order, whose key is free; running out is an error. */
    method GenerateCiteKeySuffix(base: string, suffixes: seq<string>) returns (r: Result<string, KeyError>)
      ensures FreeSuffix(EntryKeys(dom.entries), base, suffixes).Some? ==>
        r == Success(FreeSuffix(EntryKeys(dom.entries), base, suffixes).value)
      ensures FreeSuffix(EntryKeys(dom.entries), base, suffixes).None? ==> r == Failure(IndexOutOfRange)
      ensures CiteKeySuffixAsWritten(EntryKeys(dom.entries), base, suffixes) != Failure(NullReference) ==>
        r == CiteKeySuffixAsWritten(EntryKeys(dom.entries), base, suffixes)
    {
      CiteKeySuffixAsWrittenSound(EntryKeys(dom.entries), base, suffixes);
      var i := 0;
      while i < |suffixes|
        invariant 0 <= i <= |suffixes|
        invariant FreeSuffix(EntryKeys(dom.entries), base, suffixes[i..]) == FreeSuffix(EntryKeys(dom.entries), base, suffixes)
      {
        var inUse := IsKeyInUse(base + suffixes[i]);
        if !inUse {
          return Success(suffixes[i]);
        }
        assert suffixes[i..][1..] == suffixes[i + 1..];
        i := i + 1;
      }
      return Failure(IndexOutOfRange);
    }

    /**
     * Whether an entry's key is an automatic one: it starts with the key base.
     * A keyless entry is dereferenced and fails.
     */
    function HasValidAutoCiteKey(entry: BibEntry, lastName: seq<Tags.Tag> -> string): (r: Result<bool, KeyError>)
      reads entry
      ensures entry.key.None? <==> r == Failure(NullReference)
      ensures r.Success? ==> (r.value <==> StartsWith(entry.key.value, CiteKeyBase(entry.Value(), lastName)))
    {
      if entry.key.None? then Failure(NullReference)
      else
        var keyBase := CiteKeyBase(entry.Value(), lastName);
        if |keyBase| > |entry.key.value| then Success(false)
        else Success(keyBase == entry.key.value[..|keyBase|])
    }

    /**
     * Gives an entry a key that no entry used, ignoring case, when it was
     * chosen: the key base and the first free suffix. Such a key is a valid
     * automatic key. Running out of suffixes leaves the entry as it was.
     */
    method GenerateUniqueCiteKey(entry: BibEntry, lastName: seq<Tags.Tag> -> string, suffixes: seq<string>)
      returns (r: Result<string, KeyError>)
      modifies entry
      ensures entry.entryType == old(entry.entryType) && entry.tags == old(entry.tags)
      ensures r.Failure? ==> r.error == IndexOutOfRange && entry.key == old(entry.key)
      ensures r.Success? ==>
        var base := CiteKeyBase(old(entry.Value()), lastName);
        entry.key == Some(base + r.value) &&
        FreeSuffix(old(EntryKeys(dom.entries)), base, suffixes) == Some(r.value) &&
        !KeyInUse(old(EntryKeys(dom.entries)), base + r.value) &&
        HasValidAutoCiteKey(entry, lastName) == Success(true)
      ensures var written := CiteKeySuffixAsWritten(old(EntryKeys(dom.entries)), CiteKeyBase(old(entry.Value()), lastName), suffixes);
        written != Failure(NullReference) ==> r == written
    {
      var key := CiteKeyBase(entry.Value(), lastName);
      FreeSuffixFirst(EntryKeys(dom.entries), key, suffixes);
      r := GenerateCiteKeySuffix(key, suffixes);
      if r.Success? {
        entry.SetKey(key + r.value);
        assert entry.key.value[..|key|] == key;
      }
    }

    /**
     * Writes the document with the writer's line terminator, which becomes the
     * settings' newline first: the header lines, then each entry after a
     * blank line. String constants are not written.
     */
    method Write(settings: WriteSettings, newLine: string) returns (r: Result<string, WriteError>)
      modifies settings
      ensures settings.newLine == newLine
      ensures settings.whiteSpace == old(settings.whiteSpace) && settings.tabSize == old(settings.tabSize)
      ensures settings.alignTagValues == old(settings.alignTagValues) && settings.alignAtColumn == old(settings.alignAtColumn)
      ensures settings.alignAtTabStop == old(settings.alignAtTabStop) && settings.removeLastComma == old(settings.removeLastComma)
      ensures settings.tab == old(settings.tab)
      ensures r == Then(Success(HeaderText(dom.header, newLine)), EntriesText(dom.entries, settings))
    {
      settings.newLine := newLine;
      var text := "";
      var lines := dom.header;
      var i := 0;
      while i < |lines|
        invariant 0 <= i <= |lines| && text == HeaderText(lines[..i], newLine)
      {
        assert lines[..i + 1][..i] == lines[..i];
        text := text + lines[i] + newLine;
        i := i + 1;
      }
      assert lines[..i] == lines;
      var body := WriteEntries(dom.entries, settings);
      return Then(Success(text), body);
    }
  }

  /** Once an entry fails to render, so does the writing of it and everything after it. */
  lemma {:induction false} EntriesFailFrom(parts: seq<BibEntry>, i: nat, s: WriteSettings)
    requires i < |parts| && EntriesText(parts[..i], s).Success? && parts[i].Render(s).Failure?
    ensures EntriesText(parts, s) == Failure(parts[i].Render(s).error)
    decreases |parts| - i
  {
    if i == |parts| - 1 {
      assert parts[..|parts| - 1] == parts[..i];
    } else {
      assert parts[..|parts| - 1][..i] == parts[..i];
      assert parts[..|parts| - 1][i] == parts[i];
      EntriesFailFrom(parts[..|parts| - 1], i, s);
    }
  }
}
