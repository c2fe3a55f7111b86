/**
 * The bibliography document: header lines (the comments before the first
 * entry), the entries and the string constants, each list in arrival order.
 */
module Document {
  import opened Wrappers
  import opened Text
  import opened Tags
  import opened Entries
  import opened Sorting

  /** A snapshot of a document. */
  datatype DocValue = DocValue(header: seq<string>, entries: seq<PartValue>, strings: seq<PartValue>)

  /** Whether a part of this type is a string constant: its type is `string` in any case. */
  predicate IsStringConstant(entryType: string) {
    Lower(entryType) == "string"
  }

  /** Adding a part routes it to the string constants or to the entries. */
  function AddPart(d: DocValue, p: PartValue): (r: DocValue)
    ensures r.header == d.header
    ensures IsStringConstant(p.entryType) ==> r.strings == d.strings + [p] && r.entries == d.entries
    ensures !IsStringConstant(p.entryType) ==> r.entries == d.entries + [p] && r.strings == d.strings
  {
    if IsStringConstant(p.entryType) then d.(strings := d.strings + [p]) else d.(entries := d.entries + [p])
  }

  function Values(parts: seq<BibEntry>): (r: seq<PartValue>)
    reads parts
    ensures |r| == |parts| && forall i :: 0 <= i < |parts| ==> r[i] == parts[i].Value()
  {
    seq(|parts|, i reads parts requires 0 <= i < |parts| => parts[i].Value())
  }

  /** The cite keys of the parts, in order. */
  function EntryKeys(parts: seq<BibEntry>): (r: seq<Option<string>>)
    reads parts
    ensures |r| == |parts| && forall i :: 0 <= i < |parts| ==> r[i] == parts[i].key
  {
    seq(|parts|, i reads parts requires 0 <= i < |parts| => parts[i].key)
  }

  /** The first author's last name of each part, by an author-name function of its tags. */
  function AuthorKeys(parts: seq<BibEntry>, lastName: seq<Tag> -> string): (r: seq<string>)
    reads parts
    ensures |r| == |parts| && forall i :: 0 <= i < |parts| ==> r[i] == lastName(parts[i].tags)
  {
    seq(|parts|, i reads parts requires 0 <= i < |parts| => lastName(parts[i].tags))
  }

  /** How entries can be sorted; `Length` is the enumeration's count, not a method. */
  datatype SortBy = FirstAuthorLastName | Key | Length

  /** The `ArgumentException` of an unsupported sort method. */
  datatype SortError = InvalidSortMethod

  /** The order a supported sort method puts entries in. */
  function SortOrder(parts: seq<BibEntry>, sortBy: SortBy, le: (string, string) -> bool, lastName: seq<Tag> -> string): (r: seq<nat>)
    reads parts
    requires sortBy != Length
    ensures |r| == |parts| && forall i :: 0 <= i < |r| ==> r[i] < |parts|
  {
    if sortBy == Key then SortIndices(EntryKeys(parts), NullFirst(le), |parts|)
    else SortIndices(AuthorKeys(parts, lastName), le, |parts|)
  }

  class BibliographyDOM {
    var header: seq<string>
    var entries: seq<BibEntry>
    var strings: seq<BibEntry>

    constructor()
      ensures header == [] && entries == [] && strings == []
    {
      header := [];
      entries := [];
      strings := [];
    }

    function Value(): (r: DocValue)
      reads this, entries, strings
      ensures r.header == header && r.entries == Values(entries) && r.strings == Values(strings)
    {
      DocValue(header, Values(entries), Values(strings))
    }

    /** Appends a part to the string constants when its type is `string`, otherwise to the entries. */
    method AddBibPart(part: BibEntry)
      modifies this
      ensures header == old(header)
      ensures IsStringConstant(part.entryType) ==> strings == old(strings) + [part] && entries == old(entries)
      ensures !IsStringConstant(part.entryType) ==> entries == old(entries) + [part] && strings == old(strings)
      ensures Value() == AddPart(old(Value()), part.Value())
    {
      if IsStringConstant(part.entryType) {
        strings := strings + [part];
      } else {
        entries := entries + [part];
      }
    }

    /** Appends a line to the header. */
    method AddHeaderLine(line: string)
      modifies this
      ensures header == old(header) + [line] && entries == old(entries) && strings == old(strings)
      ensures Value() == old(Value()).(header := old(Value()).header + [line])
    {
      header := header + [line];
    }

    /**
     * Sorts the entries by cite key (a missing key first) or by first author,
     * both compared with `le`; sorting is stable. An unsupported method fails
     * and leaves the entries as they were.
     */
    method SortBibEntries(sortBy: SortBy, le: (string, string) -> bool, lastName: seq<Tag> -> string)
      returns (error: Option<SortError>)
      modifies this
      ensures header == old(header) && strings == old(strings)
      ensures sortBy == Length ==> error == Some(InvalidSortMethod) && entries == old(entries)
      ensures sortBy != Length ==>
        error == None && entries == Reorder(old(entries), old(SortOrder(entries, sortBy, le, lastName)))
    {
      var copy: seq<BibEntry> := [];
      var i := 0;
      while i < |entries|
        invariant 0 <= i <= |entries| && copy == entries[..i]
        invariant entries == old(entries) && header == old(header) && strings == old(strings)
      {
        copy := copy + [entries[i]];
        i := i + 1;
      }
      assert copy == old(entries);
      if sortBy == Length {
        return Some(InvalidSortMethod);
      }
      var order := SortOrder(copy, sortBy, le, lastName);
      assert order == old(SortOrder(entries, sortBy, le, lastName));
      Refill(copy, order);
      error := None;
    }

    /** Clears the entries, then adds the copied entries in the sorted order. */
    method Refill(copy: seq<BibEntry>, order: seq<nat>)
      requires forall k :: 0 <= k < |order| ==> order[k] < |copy|
      modifies this
      ensures entries == Reorder(copy, order)
      ensures header == old(header) && strings == old(strings)
    {
      entries := [];
      var i := 0;
      while i < |order|
        invariant 0 <= i <= |order| && |entries| == i
        invariant forall k :: 0 <= k < i ==> entries[k] == copy[order[k]]
        invariant header == old(header) && strings == old(strings)
      {
        entries := entries + [copy[order[i]]];
        i := i + 1;
      }
    }

    /** Releases the lists; the model leaves them empty. */
    method Dispose()
      modifies this
      ensures header == [] && entries == [] && strings == []
    {
      header := [];
      entries := [];
      strings := [];
    }
  }

  /**
   * Sorting by key leaves a permutation of the entries whose keys are in
   * non-decreasing order, a missing key first, with entries of equivalent keys
   * in their previous relative order.
   */
  lemma SortByKeyCorrect(parts: seq<BibEntry>, le: (string, string) -> bool)
    requires TotalPreorder(le)
    ensures var sorted := Reorder(parts, SortOrder(parts, Key, le, (t: seq<Tag>) => ""));
      multiset(sorted) == multiset(parts) &&
      forall i, j :: 0 <= i < j < |parts| ==>
        var order := SortOrder(parts, Key, le, (t: seq<Tag>) => "");
        NullFirst(le)(sorted[i].key, sorted[j].key) &&
        (NullFirst(le)(sorted[j].key, sorted[i].key) ==> order[i] < order[j])
  {
    NullFirstPreorder(le);
    StableSortCorrect(parts, EntryKeys(parts), NullFirst(le));
  }

  /** Sorting by first author: a permutation, names non-decreasing, ties in their previous order. */
  lemma SortByAuthorCorrect(parts: seq<BibEntry>, le: (string, string) -> bool, lastName: seq<Tag> -> string)
    requires TotalPreorder(le)
    ensures var sorted := Reorder(parts, SortOrder(parts, FirstAuthorLastName, le, lastName));
      multiset(sorted) == multiset(parts) &&
      forall i, j :: 0 <= i < j < |parts| ==>
        var order := SortOrder(parts, FirstAuthorLastName, le, lastName);
        le(lastName(sorted[i].tags), lastName(sorted[j].tags)) &&
        (le(lastName(sorted[j].tags), lastName(sorted[i].tags)) ==> order[i] < order[j])
  {
    StableSortCorrect(parts, AuthorKeys(parts, lastName), le);
  }
}
