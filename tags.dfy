/**
 * The tag table of a bibliography part: an ordered dictionary from tag name to
 * `TagValue` (the library's `OrderedDictionary`), written as a sequence of
 * (name, value) pairs in insertion order. Every name is stored lower-cased, so
 * lookups through the string indexer ignore case.
 */
module Tags {
  import opened Wrappers
  import opened Text
  import opened TagValues

  type Tag = (string, TagValue)

  function Keys(tags: seq<Tag>): (r: seq<string>)
    ensures |r| == |tags|
    ensures forall i :: 0 <= i < |tags| ==> r[i] == tags[i].0
  {
    seq(|tags|, i requires 0 <= i < |tags| => tags[i].0)
  }

  predicate UniqueKeys(tags: seq<Tag>) {
    forall i, j :: 0 <= i < j < |tags| ==> tags[i].0 != tags[j].0
  }

  predicate LowerKeys(tags: seq<Tag>) {
    forall i :: 0 <= i < |tags| ==> IsLower(tags[i].0)
  }

  /** What every tag table built through this module satisfies. */
  predicate Valid(tags: seq<Tag>) {
    UniqueKeys(tags) && LowerKeys(tags)
  }

  /** The position of the key `k`, if it is present. */
  function IndexOf(tags: seq<Tag>, k: string): (r: Option<nat>)
    ensures r.Some? ==> r.value < |tags| && tags[r.value].0 == k
    ensures r.Some? ==> forall j :: 0 <= j < r.value ==> tags[j].0 != k
    ensures r.None? <==> k !in Keys(tags)
  {
    if tags == [] then None
    else if tags[0].0 == k then Some(0)
    else match IndexOf(tags[1..], k)
      case None => (assert Keys(tags) == [tags[0].0] + Keys(tags[1..]); None)
      case Some(i) => Some(i + 1)
  }

  /** `_tags[k]` read by exact key: the stored value, or none (null) when absent. */
  function Find(tags: seq<Tag>, k: string): (r: Option<TagValue>)
    ensures r.Some? <==> k in Keys(tags)
  {
    match IndexOf(tags, k)
    case Some(i) => Some(tags[i].1)
    case None => None
  }

  /**
   * `_tags[k] = v`: an existing key has its value replaced in place (its
   * position is kept), a new key is added at the end.
   */
  function Put(tags: seq<Tag>, k: string, v: TagValue): (r: seq<Tag>)
    ensures Keys(r) == if k in Keys(tags) then Keys(tags) else Keys(tags) + [k]
  {
    match IndexOf(tags, k)
    case Some(i) =>
      assert Keys(tags[i := (k, v)]) == Keys(tags);
      tags[i := (k, v)]
    case None =>
      assert Keys(tags + [(k, v)]) == Keys(tags) + [k];
      tags + [(k, v)]
  }

  lemma PutFind(tags: seq<Tag>, k: string, v: TagValue, k': string)
    ensures Find(Put(tags, k, v), k') == if k' == k then Some(v) else Find(tags, k')
  {
    var r := Put(tags, k, v);
    match IndexOf(tags, k)
    case Some(i) =>
      if k' == k {
        assert IndexOf(r, k) == Some(i) by { IndexOfAt(r, k, i); }
      } else {
        IndexOfAgree(tags, r, k');
      }
    case None =>
      if k' == k {
        IndexOfAt(r, k, |tags|);
      } else {
        IndexOfAgree(tags, r, k');
      }
  }

  /** The key order after `Put`: unchanged for an existing key, extended by one for a new key. */
  /** Only the entry under `k` changes; every other tag, and every position, is kept. */
  lemma PutOthers(tags: seq<Tag>, k: string, v: TagValue)
    ensures |Put(tags, k, v)| >= |tags|
    ensures forall i :: 0 <= i < |tags| && tags[i].0 != k ==> Put(tags, k, v)[i] == tags[i]
  {
  }

  lemma PutValid(tags: seq<Tag>, k: string, v: TagValue)
    requires Valid(tags) && IsLower(k)
    ensures Valid(Put(tags, k, v))
  {
    var r := Put(tags, k, v);
    assert forall i :: 0 <= i < |r| ==> r[i].0 == Keys(r)[i];
  }

  lemma IndexOfAt(tags: seq<Tag>, k: string, i: nat)
    requires i < |tags| && tags[i].0 == k
    requires forall j :: 0 <= j < i ==> tags[j].0 != k
    ensures IndexOf(tags, k) == Some(i)
  {
    assert Keys(tags)[i] == k;
  }

  /** Two tables whose keys agree on every position the shorter one has locate `k` alike. */
  lemma IndexOfAgree(a: seq<Tag>, b: seq<Tag>, k: string)
    requires |a| <= |b|
    requires forall i :: 0 <= i < |a| ==> (a[i].0 == k <==> b[i].0 == k) && (a[i].0 == k ==> a[i] == b[i])
    requires forall i :: |a| <= i < |b| ==> b[i].0 != k
    ensures Find(a, k) == Find(b, k)
  {
    match IndexOf(a, k)
    case Some(i) =>
      IndexOfAt(b, k, i);
    case None =>
      forall i | 0 <= i < |b|
        ensures b[i].0 != k
      {
        if i < |a| {
          assert Keys(a)[i] == a[i].0;
        }
      }
  }

  // ---------------------------------------------------------------------
  // The string indexer and the TagValue accessors of BibEntry.
  // ---------------------------------------------------------------------

  /** Indexer get: the content stored under the lower-cased name, or "" when there is none. */
  function Get(tags: seq<Tag>, name: string): (r: string)
    ensures Lower(name) !in Keys(tags) ==> r == ""
  {
    match Find(tags, Lower(name))
    case Some(v) => v.content
    case None => ""
  }

  /** Lookup ignores case: any spelling of a name reads the same tag. */
  lemma GetIgnoresCase(tags: seq<Tag>, a: string, b: string)
    requires Lower(a) == Lower(b)
    ensures Get(tags, a) == Get(tags, b)
  {
  }

  /** `GetTagValue`: the TagValue stored under the lower-cased name (null when absent). */
  function GetTagValue(tags: seq<Tag>, name: string): (r: Option<TagValue>)
    ensures r.Some? <==> Lower(name) in Keys(tags)
  {
    Find(tags, Lower(name))
  }

  /**
   * Indexer set. The presence test uses the name exactly as given; a stored
   * key is always lower-case, so it succeeds only for the lower-case spelling
   * of a present name, and then only the content is replaced (the flag is
   * kept). Any other spelling stores a fresh literal under the lower-cased
   * name, replacing the whole value of a present key in place.
   */
  function SetIndexer(tags: seq<Tag>, name: string, value: string): (r: seq<Tag>)
    ensures forall k :: k in Keys(tags) ==> k in Keys(r)
    ensures name in Keys(r) || Lower(name) in Keys(r)
    ensures |r| == if name in Keys(tags) || Lower(name) in Keys(tags) then |tags| else |tags| + 1
  {
    match Find(tags, name)
    case Some(v) => Put(tags, name, v.WithContent(value))
    case None => Put(tags, Lower(name), Literal(value))
  }

  /** `SetTagValue`: stores the given TagValue under the lower-cased name. */
  function SetTagValue(tags: seq<Tag>, name: string, v: TagValue): (r: seq<Tag>)
    ensures forall k :: k in Keys(tags) ==> k in Keys(r)
    ensures Lower(name) in Keys(r)
    ensures |r| == if Lower(name) in Keys(tags) then |tags| else |tags| + 1
  {
    Put(tags, Lower(name), v)
  }

  lemma KeysLower(tags: seq<Tag>, k: string)
    requires LowerKeys(tags) && k in Keys(tags)
    ensures Lower(k) == k
  {
    var i :| 0 <= i < |tags| && tags[i].0 == k;
    LowerOfLower(k);
  }

  /** After an indexer set, every spelling of the name reads the new content. */
  lemma SetIndexerGet(tags: seq<Tag>, name: string, value: string, other: string)
    requires Valid(tags)
    requires Lower(other) == Lower(name)
    ensures Get(SetIndexer(tags, name, value), other) == value
  {
    match Find(tags, name)
    case Some(v) =>
      KeysLower(tags, name);
      PutFind(tags, name, v.WithContent(value), Lower(other));
    case None =>
      PutFind(tags, Lower(name), Literal(value), Lower(other));
  }

  /** An indexer set leaves every differently named tag as it was. */
  lemma SetIndexerOthers(tags: seq<Tag>, name: string, value: string, k: string)
    requires Valid(tags)
    requires k != Lower(name)
    ensures Find(SetIndexer(tags, name, value), k) == Find(tags, k)
  {
    match Find(tags, name)
    case Some(v) =>
      KeysLower(tags, name);
      PutFind(tags, name, v.WithContent(value), k);
    case None =>
      PutFind(tags, Lower(name), Literal(value), k);
  }

  /**
   * What an indexer set stores: under a new name, a literal appended at the
   * end; under the exact (lower-case) spelling of a present name, the old flag
   * with the new content; under any other spelling of a present name, a fresh
   * literal. The key order is kept whenever the name was present.
   */
  lemma SetIndexerStores(tags: seq<Tag>, name: string, value: string)
    requires Valid(tags)
    ensures Valid(SetIndexer(tags, name, value))
    ensures Lower(name) !in Keys(tags) ==>
      SetIndexer(tags, name, value) == tags + [(Lower(name), Literal(value))]
    ensures name in Keys(tags) ==>
      Keys(SetIndexer(tags, name, value)) == Keys(tags) &&
      Find(SetIndexer(tags, name, value), name) == Some(TagValue(value, Find(tags, name).value.isString))
    ensures Lower(name) in Keys(tags) && name !in Keys(tags) ==>
      Keys(SetIndexer(tags, name, value)) == Keys(tags) &&
      Find(SetIndexer(tags, name, value), Lower(name)) == Some(Literal(value))
  {
    LowerIsLower(name);
    match Find(tags, name)
    case Some(v) =>
      KeysLower(tags, name);
      PutValid(tags, name, v.WithContent(value));
      PutFind(tags, name, v.WithContent(value), name);
    case None =>
      PutValid(tags, Lower(name), Literal(value));
      PutFind(tags, Lower(name), Literal(value), Lower(name));
  }

  /** `SetTagValue` stores exactly the given value; an existing key keeps its position, a new one is appended. */
  lemma SetTagValueStores(tags: seq<Tag>, name: string, v: TagValue, k: string)
    requires Valid(tags)
    ensures Valid(SetTagValue(tags, name, v))
    ensures GetTagValue(SetTagValue(tags, name, v), name) == Some(v)
    ensures k != Lower(name) ==> Find(SetTagValue(tags, name, v), k) == Find(tags, k)
    ensures Keys(SetTagValue(tags, name, v)) ==
      if Lower(name) in Keys(tags) then Keys(tags) else Keys(tags) + [Lower(name)]
  {
    LowerIsLower(name);
    PutValid(tags, Lower(name), v);
    PutFind(tags, Lower(name), v, Lower(name));
    PutFind(tags, Lower(name), v, k);
  }

  // ---------------------------------------------------------------------
  // Initialize: every template name is set to "" through the indexer.
  // ---------------------------------------------------------------------

  /** The table after `Initialize(names)`: the names are set to "" one after another. */
  function Initialize(tags: seq<Tag>, names: seq<string>): (r: seq<Tag>)
    ensures forall k :: k in Keys(tags) ==> k in Keys(r)
    ensures |tags| <= |r| <= |tags| + |names|
    decreases |names|
  {
    if names == [] then tags else Initialize(SetIndexer(tags, names[0], ""), names[1..])
  }

  /** The keys a list of names adds to `keys`, each once, in the order they first occur. */
  function AddNew(keys: seq<string>, names: seq<string>): seq<string>
    decreases |names|
  {
    if names == [] then keys
    else AddNew(if Lower(names[0]) in keys then keys else keys + [Lower(names[0])], names[1..])
  }

  /**
   * Initializing keeps the existing keys at their positions and appends the
   * new template names after them in template order; every template name then
   * reads "", and the table stays valid.
   */
  lemma {:induction false} InitializeKeys(tags: seq<Tag>, names: seq<string>)
    requires Valid(tags)
    ensures Valid(Initialize(tags, names))
    ensures Keys(Initialize(tags, names)) == AddNew(Keys(tags), names)
    decreases |names|
  {
    if names != [] {
      SetIndexerStores(tags, names[0], "");
      var next := SetIndexer(tags, names[0], "");
      if Lower(names[0]) in Keys(tags) {
        if names[0] !in Keys(tags) {
        } else {
          KeysLower(tags, names[0]);
        }
      }
      assert Keys(next) == if Lower(names[0]) in Keys(tags) then Keys(tags) else Keys(tags) + [Lower(names[0])];
      InitializeKeys(next, names[1..]);
    }
  }

  /** Every template name reads "" after initialization. */
  lemma {:induction false} InitializeGet(tags: seq<Tag>, names: seq<string>, i: nat)
    requires Valid(tags) && i < |names|
    ensures Get(Initialize(tags, names), names[i]) == ""
    decreases |names|
  {
    var next := SetIndexer(tags, names[0], "");
    assert Initialize(tags, names) == Initialize(next, names[1..]);
    SetIndexerStores(tags, names[0], "");
    if i == 0 {
      SetIndexerGet(tags, names[0], "", names[0]);
      InitializeKeepsEmpty(next, names[1..], names[0]);
    } else {
      assert names[1..][i - 1] == names[i];
      InitializeGet(next, names[1..], i - 1);
    }
  }

  /** A name that reads "" still reads "" after more template names are set to "". */
  lemma {:induction false} InitializeKeepsEmpty(tags: seq<Tag>, names: seq<string>, n: string)
    requires Valid(tags) && Get(tags, n) == ""
    ensures Get(Initialize(tags, names), n) == ""
    decreases |names|
  {
    if names != [] {
      var next := SetIndexer(tags, names[0], "");
      SetIndexerStores(tags, names[0], "");
      if Lower(n) == Lower(names[0]) {
        SetIndexerGet(tags, names[0], "", n);
      } else {
        SetIndexerOthers(tags, names[0], "", Lower(n));
      }
      InitializeKeepsEmpty(next, names[1..], n);
    }
  }

  /** A key already present before initialization keeps its position. */
  lemma {:induction false} InitializeKeepsPositions(tags: seq<Tag>, names: seq<string>)
    requires Valid(tags)
    ensures |Keys(tags)| <= |Keys(Initialize(tags, names))|
    ensures Keys(Initialize(tags, names))[..|tags|] == Keys(tags)
    decreases |names|
  {
    InitializeKeys(tags, names);
    AddNewPrefix(Keys(tags), names);
  }

  lemma {:induction false} AddNewPrefix(keys: seq<string>, names: seq<string>)
    ensures |keys| <= |AddNew(keys, names)| && AddNew(keys, names)[..|keys|] == keys
    decreases |names|
  {
    if names != [] {
      var next := if Lower(names[0]) in keys then keys else keys + [Lower(names[0])];
      AddNewPrefix(next, names[1..]);
      assert next[..|keys|] == keys;
    }
  }
}
