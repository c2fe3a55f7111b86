/**
 * The initializer that gives a newly typed entry its default, ordered tags:
 * entry types map to template names, and templates to tag lists.
 */
module Initialization {
  import opened Wrappers
  import opened Text
  import opened Entries

  datatype BibEntryInitialization = BibEntryInitialization(
    typeToTemplateMap: map<string, string>,
    templates: map<string, seq<string>>)
  {
    /**
     * The default tags of an entry type, looked up by its lower-cased spelling;
     * an unmapped type has none. A type mapped to a missing template fails with
     * that template's name (the library's KeyNotFoundException).
     */
    function GetTags(entryType: string): (r: Result<seq<string>, string>)
      ensures Lower(entryType) !in typeToTemplateMap ==> r == Success([])
      ensures Lower(entryType) in typeToTemplateMap ==>
        var template := typeToTemplateMap[Lower(entryType)];
        (template in templates ==> r == Success(templates[template])) &&
        (template !in templates ==> r == Failure(template))
    {
      var t := Lower(entryType);
      if t in typeToTemplateMap then
        var template := typeToTemplateMap[t];
        if template in templates then Success(templates[template]) else Failure(template)
      else Success([])
    }

    /** The default tags of an entry, by its type. */
    function GetTagsOf(entry: BibEntry): (r: Result<seq<string>, string>)
      reads entry
      ensures r == GetTags(entry.entryType)
    {
      GetTags(entry.entryType)
    }
  }

  /** The initializer a parser starts with: no types mapped. */
  function Default(): BibEntryInitialization {
    BibEntryInitialization(map[], map[])
  }

  /** The lookup ignores the case of the type. */
  lemma GetTagsIgnoresCase(init: BibEntryInitialization, a: string, b: string)
    requires Lower(a) == Lower(b)
    ensures init.GetTags(a) == init.GetTags(b)
  {
  }

  /** The default initializer gives every type an empty tag list. */
  lemma DefaultHasNoTags(entryType: string)
    ensures Default().GetTags(entryType) == Success([])
  {
  }
}
