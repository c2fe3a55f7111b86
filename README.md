# BibTeX library core, modelled in Dafny

This project models the current generation of a C# BibTeX library. That is the code under
`BibTeXLibrary/Parsing/`, `BibTeXLibrary/Bibliography/` and `BibTeXLibrary/Exceptions/`. It
proves what that code promises.

- **Tokenizer.** `Scanning` is a pure specification of the tokenizer. `Parsing.BibParser` is
  the imperative peek/read tokenizer, with the same line, column, brace and parenthesis
  counters. Every method of `BibParser` is proved to compute exactly what `Scanning` specifies.
- **Parser.** `Transitions` is the parser's state table (`StateMap`), written as literal
  data. It is paired with a pure run of the table over the token list. `BibParser.Parse` is
  the imperative loop with the builder actions' dispatch. Its result is proved equal to the
  pure run.
  - Proved properties: the error on an unexpected token, the error at the end of input, the
    accumulation of `#` concatenations, and how tags are committed by `,` and by the closing
    brace.
  - `Examples` re-derives several of the unit tests' parse outcomes. Some start from the text. The concatenated `address` value and the `@string` constants start from their tokens.
- **Entries.** `Tags` is the ordered tag table with case-insensitive keys, kept by every
  part. It is written on sequences of (lower-case name, `TagValue`).
  - `Entries.BibEntry` is the class over that table, and it also plays the role of
    `StringConstantPart`. The parser creates a `BibEntry` for `@string` too, so one part shape
    serves both.
  - `TagValues.TagValue` is the tag's content plus its literal/reference flag.
  - `Initialization` covers the default tag templates.
- **Writing.** `Settings.WriteSettings` holds the padding arithmetic.
  - `Entries` renders entries and string constants.
  - `Bibliographies.Bibliography.Write` lays out the document.
- **Document.** `Document.BibliographyDOM` covers header lines, routing of parts to entries or
  string constants, and the stable sort. The stable sort itself is in `Sorting`.
- **Cite keys.** `Bibliographies` holds the cite-key bookkeeping. The first-author function
  and the suffix generator are parameters.
- **Errors.** `Errors` builds the `UnexpectedTokenException` message exactly.

Exceptions thrown by the code are modelled as `Result`/`Option` error values. Each error
names the exception it stands for.

## Model

| member | source | states |
|---|---|---|
| Tokens.TypeName | BibTeXLibrary/Enums/TokenType.cs:14-60 | every token type has a non-empty printed name (the enum member's name) |
| Tokens.Bare | BibTeXLibrary/Parsing/Token.cs:16-21 | a token built without a value has the given type and the empty value |
| Text.Lower | BibTeXLibrary/Bibliography/BibEntry.cs:313-317 | lower-casing keeps the length and maps every character through the character lower-casing |
| Text.LowerIdempotent | BibTeXLibrary/Bibliography/BibEntry.cs:313-327 | lower-casing twice equals lower-casing once, which makes a stored lower-case key found again by any spelling |
| Text.IntToString | BibTeXLibrary/Exceptions/UnexpectedTokenException.cs:23 | the decimal text of an integer is non-empty and starts with `-` exactly when the integer is negative |
| Text.NatToStringValue | BibTeXLibrary/Exceptions/UnexpectedTokenException.cs:23 | the digits of a natural number, read back most significant first, give the number, and only 0 starts with the digit `0` |
| Text.IntToStringValue | BibTeXLibrary/Exceptions/UnexpectedTokenException.cs:23 | without its sign, the text of an integer denotes the integer's magnitude |
| TagValues.TagValue.ToString | BibTeXLibrary/Bibliography/TagValue.cs:65-68 | a literal renders as `{` + content + `}`, a reference renders as the bare content |
| TagValues.TagValue.WithContent | BibTeXLibrary/Bibliography/TagValue.cs:51 | setting the content stores it and leaves the flag unchanged |
| TagValues.TagValue.WithIsString | BibTeXLibrary/Bibliography/TagValue.cs:56 | setting the flag stores it and leaves the content unchanged |
| TagValues.Empty | BibTeXLibrary/Bibliography/TagValue.cs:11-22 | the no-argument value is a literal (flag true) with empty content |
| TagValues.Literal | BibTeXLibrary/Bibliography/TagValue.cs:28-31 | the one-argument value stores the content and is a literal |
| TagValues.ContentRoundTrip | BibTeXLibrary/Bibliography/TagValue.cs:65-68 | removing the braces from a rendered literal, or taking a reference's text as it is, gives back the content |
| TagValues.ToStringInjective | BibTeXLibrary/Bibliography/TagValue.cs:38-68 | two values with the same flag and the same rendering are equal |
| Tags.Keys | BibTeXLibrary/Bibliography/BibliographyPart.cs:77 | the key list holds the tag names in insertion order |
| Tags.IndexOf | BibTeXLibrary/Bibliography/BibliographyPart.cs:36 | the position found holds the key and no earlier position does; none is found exactly when the key is absent |
| Tags.Find | BibTeXLibrary/Bibliography/BibliographyPart.cs:36 | a value is found exactly when the key is present |
| Tags.PutFind | BibTeXLibrary/Bibliography/BibEntry.cs:318-347 | after storing v under k, k finds v and every other key finds what it found before |
| Tags.Put | BibTeXLibrary/Bibliography/BibEntry.cs:318-347 | storing under a present key keeps the key order; storing under a new key appends it at the end |
| Tags.PutOthers | BibTeXLibrary/Bibliography/BibEntry.cs:344-347 | storing leaves every other tag at its position and unchanged |
| Tags.PutValid | BibTeXLibrary/Bibliography/BibEntry.cs:344-347 | storing under a lower-case key keeps the keys unique and lower-case |
| Tags.Get | BibTeXLibrary/Bibliography/BibEntry.cs:313-317 | reading a name that is not stored, in lower case, gives the empty string |
| Tags.SetIndexer | BibTeXLibrary/Bibliography/BibEntry.cs:318-329 | an indexer set keeps every key, stores the name (as given or lower-cased), and adds a tag exactly when neither spelling was present |
| Tags.SetTagValue | BibTeXLibrary/Bibliography/BibEntry.cs:344-347 | `SetTagValue` keeps every key and stores the lower-cased name, adding a tag exactly when it was absent |
| Tags.Initialize | BibTeXLibrary/Bibliography/BibEntry.cs:247-253 | initializing keeps every existing key and adds at most one tag per template name |
| Tags.IndexOfAt | BibTeXLibrary/Bibliography/BibliographyPart.cs:36 | the first position holding a key is the one reported |
| Tags.IndexOfAgree | BibTeXLibrary/Bibliography/BibliographyPart.cs:36 | two tables that agree on one key's entries answer the same lookup for that key |
| Tags.GetIgnoresCase | BibTeXLibrary/Bibliography/BibEntry.cs:313-317 | the indexer get gives the same result for two spellings that lower-case alike ("title", "Title", "TitlE") |
| Tags.GetTagValue | BibTeXLibrary/Bibliography/BibEntry.cs:335-338 | a TagValue is returned exactly when the lower-cased name is stored |
| Tags.KeysLower | BibTeXLibrary/Bibliography/BibEntry.cs:315 | a stored key is already lower-case |
| Tags.SetIndexerGet | BibTeXLibrary/Bibliography/BibEntry.cs:313-328 | after setting a name through the indexer, every spelling of that name reads the value set |
| Tags.SetIndexerOthers | BibTeXLibrary/Bibliography/BibEntry.cs:318-328 | the indexer set changes no tag stored under another key |
| Tags.SetIndexerStores | BibTeXLibrary/Bibliography/BibEntry.cs:318-328 | the indexer set on a new name appends a literal under the lower-cased key; on the exact stored key it replaces only the content and keeps the flag; on a mixed-case spelling of a stored key it replaces the whole value with a fresh literal; a present key keeps its position; the table stays valid |
| Tags.SetTagValueStores | BibTeXLibrary/Bibliography/BibEntry.cs:335-347 | SetTagValue stores the given value under the lower-cased name, GetTagValue then returns it, other keys are unchanged, and a new key is appended |
| Tags.InitializeKeys | BibTeXLibrary/Bibliography/BibEntry.cs:247-253 | Initialize keeps the table valid and its keys are the old keys followed by the template names not yet present, in template order |
| Tags.InitializeGet | BibTeXLibrary/Bibliography/BibEntry.cs:247-253 | after Initialize every listed tag reads `""` |
| Tags.InitializeKeepsEmpty | BibTeXLibrary/Bibliography/BibEntry.cs:247-253 | Initialize leaves a tag that read `""` reading `""` |
| Tags.InitializeKeepsPositions | BibTeXLibrary/Bibliography/BibEntry.cs:247-253 | Initialize keeps every existing tag at its position |
| Tags.AddNewPrefix | BibTeXLibrary/Bibliography/BibEntry.cs:247-253 | adding the new template names only extends the key list at its end |
| Entries.PropertyName | BibTeXLibrary/Bibliography/BibEntry.cs:55-204 | every named property has a non-empty name |
| Entries.FormattedName | BibTeXLibrary/Bibliography/BibEntry.cs:235-238 | the formatted name lower-cases the first letter and keeps the rest |
| Entries.PropertyTag | BibTeXLibrary/Bibliography/BibEntry.cs:172-238 | a property's tag is its formatted name |
| Entries.TagLine | BibTeXLibrary/Bibliography/BibEntry.cs:281-294 | a tag's line is indent + name + spacing + `= ` + rendered value + newline; an indent or spacing error is passed on |
| Entries.TagLines | BibTeXLibrary/Bibliography/BibEntry.cs:277-295 | rendering the tags fails only with the error of one of the tag lines |
| Entries.TagLinesAppend | BibTeXLibrary/Bibliography/BibEntry.cs:277-295 | the tag lines of two runs of tags are the two texts concatenated, and the first error stops the rendering |
| Entries.TagLinesSucceed | BibTeXLibrary/Bibliography/BibEntry.cs:277-295 | rendering the tags succeeds exactly when every tag's line succeeds |
| Entries.DefaultTagLines | BibTeXLibrary/Bibliography/BibEntry.cs:258-261 | with spaces, tab size 2 and no alignment, every tag line is two spaces, the name, ` = `, the value and `\n` |
| Entries.BibEntry.constructor | BibTeXLibrary/Bibliography/BibliographyPart.cs:30-47 | a new part has no key, an empty (unset) type and no tags |
| Entries.BibEntry.Value | BibTeXLibrary/Bibliography/BibliographyPart.cs:30-36 | the part's value is its type, key and tags |
| Entries.BibEntry.SetType | BibTeXLibrary/Bibliography/BibliographyPart.cs:56 | the type reads the value last assigned; nothing else changes |
| Entries.BibEntry.SetKey | BibTeXLibrary/Bibliography/BibliographyPart.cs:61-72 | the key reads the value last assigned; nothing else changes |
| Entries.BibEntry.TagNames | BibTeXLibrary/Bibliography/BibliographyPart.cs:77 | the tag names in insertion order |
| Entries.BibEntry.Get | BibTeXLibrary/Bibliography/BibEntry.cs:313-317 | the indexer get returns the content stored under the lower-cased name, or `""` when it is absent |
| Entries.BibEntry.Set | BibTeXLibrary/Bibliography/BibEntry.cs:318-328 | the indexer set updates the table as the table's indexer set specifies; type and key are unchanged, and the name then reads the value set |
| Entries.BibEntry.GetTagValue | BibTeXLibrary/Bibliography/BibEntry.cs:335-338 | the TagValue stored under the lower-cased name |
| Entries.BibEntry.SetTagValue | BibTeXLibrary/Bibliography/BibEntry.cs:344-347 | the value is stored under the lower-cased name and read back by GetTagValue; type and key are unchanged |
| Entries.BibEntry.Initialize | BibTeXLibrary/Bibliography/BibEntry.cs:247-253 | the loop sets each listed name to `""` in list order, as the table's Initialize specifies (whose properties are the Tags.Initialize lemmas) |
| Entries.BibEntry.GetProperty | BibTeXLibrary/Bibliography/BibEntry.cs:172-238 | a named property reads the tag named by its formatted name |
| Entries.BibEntry.SetProperty | BibTeXLibrary/Bibliography/BibEntry.cs:172-238 | a named property writes the tag named by its formatted name through the indexer, and reads back the value written |
| Entries.BibEntry.Render | BibTeXLibrary/Bibliography/BibEntry.cs:267-302 | `@` + type + `{` + key + `,` + newline, the tag lines in insertion order, `}` + newline; no per-tag comma; a settings error is passed on |
| Entries.BibEntry.RenderDefault | BibTeXLibrary/Bibliography/BibEntry.cs:258-261 | the parameterless rendering is the fixed two-space layout of the part |
| Entries.BibEntry.StringName | BibTeXLibrary/Bibliography/StringConstantPart.cs:38-46 | the first tag's stored key; a part without tags fails (InvalidOperation) |
| Entries.BibEntry.StringValue | BibTeXLibrary/Bibliography/StringConstantPart.cs:51-59 | the first tag's rendered value, braces included for a literal; a part without tags fails |
| Entries.BibEntry.RenderStringConstant | BibTeXLibrary/Bibliography/StringConstantPart.cs:73-98 | `@` + type + `(` + name + spacing + `= ` + first value + `)` + newline, always with parentheses; no tags fails; a spacing error is passed on |
| Entries.BibEntry.RenderStringConstantDefault | BibTeXLibrary/Bibliography/BibliographyPart.cs:90-93 | the parameterless rendering of a string constant is `@type(name = value)` and `\n` |
| Entries.TitleIndexer | UnitTest/BibEntryTest.cs:12-28 | setting "Title" is read back by "title", "TitlE" and the Title property's tag |
| Settings.WriteSettings.constructor | BibTeXLibrary/Bibliography/WriteSettings.cs:25-32 | the defaults: Tab, tab size 4, aligned values, column 24, tab stop 5, remove-last-comma on, newline `\n`, tab `'\t'` |
| Settings.TruncDiv | BibTeXLibrary/Bibliography/WriteSettings.cs:296 | C# integer division truncating toward zero: the magnitude is the quotient of the magnitudes, a positive quotient needs operands of the same sign and a negative one operands of opposite signs; for a non-negative numerator and a positive divisor it agrees with the floor |
| Settings.WriteSettings.Indent | BibTeXLibrary/Bibliography/WriteSettings.cs:235-263 | one tab character in Tab mode; exactly tab-size spaces in Space mode (a negative size fails with ArgumentOutOfRange); any other mode fails with InvalidEnumArgument |
| Settings.WriteSettings.GetInterTagSpacing | BibTeXLibrary/Bibliography/WriteSettings.cs:286-326 | `" "` without alignment; with spaces, padding such that tab size + key + padding = column - 1, failing exactly when that count is negative; with tabs, tab stop - 1 - (key length / tab size, truncated) tabs, failing when negative and on a zero tab size; other modes fail |
| Settings.SpaceAlignmentColumn | BibTeXLibrary/Bibliography/WriteSettings.cs:304-313 | with space alignment, indent + key + padding spans exactly column - 1 characters |
| Initialization.GetTags | BibTeXLibrary/Bibliography/BibEntryInitialization.cs:67-80 | the lower-cased type's template, in the template's order; an unmapped type gives no tags; a mapped type whose template is missing fails |
| Initialization.GetTagsOf | BibTeXLibrary/Bibliography/BibEntryInitialization.cs:58-61 | the tags for an entry are the tags for its type |
| Initialization.GetTagsIgnoresCase | BibTeXLibrary/Bibliography/BibEntryInitialization.cs:69 | two spellings of a type that lower-case alike get the same tags |
| Initialization.DefaultHasNoTags | BibTeXLibrary/Bibliography/BibEntryInitialization.cs:67-80 | with empty maps every type gets no tags |
| Document.AddPart | BibTeXLibrary/Bibliography/BibliographyDOM.cs:68-78 | a part whose lower-cased type is `string` is appended to the string constants, any other part to the entries; the other list and the header are unchanged |
| Document.Values | BibTeXLibrary/Bibliography/BibliographyDOM.cs:16-18 | the values of a list of parts, element by element |
| Document.EntryKeys | BibTeXLibrary/Bibliography/BibliographyDOM.cs:115 | the keys of a list of parts, element by element |
| Document.AuthorKeys | BibTeXLibrary/Bibliography/BibliographyDOM.cs:111 | the first-author sort keys of a list of parts, element by element |
| Document.SortOrder | BibTeXLibrary/Bibliography/BibliographyDOM.cs:107-117 | the sort order is a list of positions of the entries, one per entry |
| Document.BibliographyDOM.constructor | BibTeXLibrary/Bibliography/BibliographyDOM.cs:16-18 | a new document has no header lines, entries or string constants |
| Document.BibliographyDOM.Value | BibTeXLibrary/Bibliography/BibliographyDOM.cs:48-58 | the document's value is its header and the values of its two lists |
| Document.BibliographyDOM.AddBibPart | BibTeXLibrary/Bibliography/BibliographyDOM.cs:68-78 | routes the part by its type and appends it at the end of one list; everything else is unchanged |
| Document.BibliographyDOM.AddHeaderLine | BibTeXLibrary/Bibliography/BibliographyDOM.cs:84-87 | appends the line to the header; nothing else changes |
| Document.BibliographyDOM.SortBibEntries | BibTeXLibrary/Bibliography/BibliographyDOM.cs:98-127 | an unsupported sort fails and leaves the entries unchanged; otherwise the entries are the old entries in stable sort order; header and string constants are untouched |
| Document.BibliographyDOM.Refill | BibTeXLibrary/Bibliography/BibliographyDOM.cs:122-126 | after the refill loop the entries are the copy in the given order |
| Document.BibliographyDOM.Dispose | BibTeXLibrary/Bibliography/BibliographyDOM.cs:34-39 | all three lists are emptied |
| Document.SortByKeyCorrect | BibTeXLibrary/Bibliography/BibliographyDOM.cs:114-126 | sorting by key gives a permutation of the entries in non-decreasing key order, keyless entries first, with equal keys in their previous order |
| Document.SortByAuthorCorrect | BibTeXLibrary/Bibliography/BibliographyDOM.cs:110-126 | sorting by first author gives a permutation in non-decreasing author order, stable for equal authors |
| Sorting.Range | BibTeXLibrary/Bibliography/BibliographyDOM.cs:101-105 | the positions 0..n-1 in order |
| Sorting.Insert | BibTeXLibrary/Bibliography/BibliographyDOM.cs:114-126 | inserting a position adds exactly that position to the multiset |
| Sorting.SortIndices | BibTeXLibrary/Bibliography/BibliographyDOM.cs:114-126 | the sorted positions are a permutation of 0..n-1 |
| Sorting.RangeBound | BibTeXLibrary/Bibliography/BibliographyDOM.cs:114-126 | a permutation of 0..n-1 holds only positions below n |
| Sorting.BeforeTransitive | BibTeXLibrary/Bibliography/BibliographyDOM.cs:114-126 | the stable order (key, then position) is transitive |
| Sorting.BeforeTotal | BibTeXLibrary/Bibliography/BibliographyDOM.cs:114-126 | of two distinct positions exactly one comes first in the stable order |
| Sorting.InsertSorted | BibTeXLibrary/Bibliography/BibliographyDOM.cs:114-126 | insertion keeps the positions in stable order |
| Sorting.SortIndicesSorted | BibTeXLibrary/Bibliography/BibliographyDOM.cs:114-126 | the sorted positions are in stable order |
| Sorting.SortIndicesStep | BibTeXLibrary/Bibliography/BibliographyDOM.cs:114-126 | inserting the next position keeps the stable order |
| Sorting.Reorder | BibTeXLibrary/Bibliography/BibliographyDOM.cs:122-126 | the reordered list picks the element at each given position |
| Sorting.ReorderMultiset | BibTeXLibrary/Bibliography/BibliographyDOM.cs:122-126 | the reordered list holds exactly the picked elements |
| Sorting.MapMultisetPerm | BibTeXLibrary/Bibliography/BibliographyDOM.cs:122-126 | picking by two permutations of the same positions picks the same elements |
| Sorting.MapMultisetRemove | BibTeXLibrary/Bibliography/BibliographyDOM.cs:122-126 | picking by positions with one removed picks one element fewer |
| Sorting.StableSortCorrect | BibTeXLibrary/Bibliography/BibliographyDOM.cs:114-126 | a stable sort is a permutation, in non-decreasing key order, with equal keys in input order |
| Sorting.NullFirst | BibTeXLibrary/Bibliography/BibliographyDOM.cs:115 | a missing key sorts before every key, no key sorts at or before a missing one, and two keys compare by the given order |
| Sorting.NullFirstPreorder | BibTeXLibrary/Bibliography/BibliographyDOM.cs:115 | ordering missing keys first keeps a total preorder total and transitive |
| Errors.Names | BibTeXLibrary/Exceptions/UnexpectedTokenException.cs:27-30 | the printed names of the expected types, in the given order |
| Errors.BuiltMessage | BibTeXLibrary/Exceptions/UnexpectedTokenException.cs:20-35 | the message as the constructor builds it starts with the header naming the token, line and column |
| Errors.Message | BibTeXLibrary/Exceptions/UnexpectedTokenException.cs:20-35 | the intended message is the header, then `\nExpected: ` and the names; one expected type gives exactly its name after it |
| Errors.ItemizedJoin | BibTeXLibrary/Exceptions/UnexpectedTokenException.cs:27-30 | appending each name followed by `, ` is the `, `-joined list followed by one `, ` |
| Errors.BuiltMessageLists | BibTeXLibrary/Exceptions/UnexpectedTokenException.cs:23-32 | for a non-empty expected list the message is the header, `\nExpected: ` and the names joined by `, `, with no trailing separator |
| Errors.BuiltMessageEmpty | BibTeXLibrary/Exceptions/UnexpectedTokenException.cs:26-32 | for an empty expected list the final removal eats `: `, leaving `\nExpected` |
| Errors.UnexpectedTokenException.constructor | BibTeXLibrary/Exceptions/UnexpectedTokenException.cs:20-35 | line and column are kept as given, and the loop builds the message as specified |
| Errors.SmallNumbers | UnitTest/UnexpectedTokenExceptionTest.cs:13 | 1 and 10 print as `1` and `10` |
| Errors.TestExpectedNames | UnitTest/UnexpectedTokenExceptionTest.cs:13-16 | Comma and RightBrace print as `Comma, RightBrace` |
| Errors.EndOfInputHeader | UnitTest/UnexpectedTokenExceptionTest.cs:13-16 | the header for (1, 10, EOF) is the one the test expects |
| Errors.CommaOrBraceMessage | UnitTest/UnexpectedTokenExceptionTest.cs:11-17 | the message for the expected list (Comma, RightBrace) ends `\nExpected: Comma, RightBrace` |
| Errors.CommaOrBraceNames | UnitTest/UnexpectedTokenExceptionTest.cs:11-17 | the intended message for (Comma, RightBrace) ends `\nExpected: ` then `Comma, RightBrace` |
| Scanning.NameEnd | BibTeXLibrary/Parsing/BibParser.cs:370-389 | the end of a name run lies between its start and the end of input |
| Scanning.QuoteEnd | BibTeXLibrary/Parsing/BibParser.cs:390-424 | the end of a quoted run lies between its start and the end of input |
| Scanning.GroupEnd | BibTeXLibrary/Parsing/BibParser.cs:437-461 | the end of a braced run lies within the input and, when unclosed, is the end of input |
| Scanning.LineEnd | BibTeXLibrary/Parsing/BibParser.cs:502-507 | the end of a line lies within the input |
| Scanning.AfterLine | BibTeXLibrary/Parsing/BibParser.cs:502-507 | the position after the line terminator lies within the input |
| Scanning.NextToken | BibTeXLibrary/Parsing/BibParser.cs:354-518 | every token produced consumes at least one character and stays within the input; running out reports the end of input |
| Scanning.Tokenize | BibTeXLibrary/Parsing/BibParser.cs:354-518 | the positions after the tokens strictly increase within the input, there are at most as many tokens as characters left, and an enumeration that ends normally has read the whole input |
| Scanning.NameEndMaximal | BibTeXLibrary/Parsing/BibParser.cs:370-537 | a name run holds only name characters and stops at a non-name character or the end |
| Scanning.NameEndAt | BibTeXLibrary/Parsing/BibParser.cs:370-389 | a maximal run of name characters is the one the tokenizer finds |
| Scanning.NameToken | BibTeXLibrary/Parsing/BibParser.cs:370-389 | a maximal run of name characters is one token, StringType exactly when it is `string` ignoring case and Name otherwise, and the column advances by its length |
| Scanning.BalanceSnoc | BibTeXLibrary/Parsing/BibParser.cs:402-418 | the brace balance of a run grows by the last character's contribution |
| Scanning.QuoteEndFirst | BibTeXLibrary/Parsing/BibParser.cs:390-424 | the quote ends at the first unescaped `"` met at brace depth 0, or at the end of input |
| Scanning.QuotedToken | BibTeXLibrary/Parsing/BibParser.cs:390-424 | a quoted value is a String token holding the text up to the first unescaped `"` at depth 0, backslashes kept, the closing quote consumed |
| Scanning.SliceSnoc | BibTeXLibrary/Parsing/BibParser.cs:437-461 | a run grown by one character is the run plus that character |
| Scanning.GroupDone | BibTeXLibrary/Parsing/BibParser.cs:437-461 | the braced run ends where the depth first reaches zero, or at the end of input |
| Scanning.QuoteStep | BibTeXLibrary/Parsing/BibParser.cs:402-418 | a character that does not close the quote is passed over and the depth updated |
| Scanning.GroupEndBalance | BibTeXLibrary/Parsing/BibParser.cs:437-461 | the braced run keeps a positive depth inside and closes exactly at its matching `}` |
| Scanning.GroupToken | BibTeXLibrary/Parsing/BibParser.cs:425-462 | a `{` inside an entry yields one String token holding the text up to the matching `}`, outer pair stripped, inner braces kept (balanced), and the counters unchanged |
| Scanning.StructuralBrace | BibTeXLibrary/Parsing/BibParser.cs:431-436 | a `{` at depth 0 outside parentheses is the structural LeftBrace and raises the depth to 1 |
| Scanning.NewlineSkipped | BibTeXLibrary/Parsing/BibParser.cs:496-501 | a newline produces no token, adds 1 to the line and resets the column to 0 |
| Scanning.WhiteSpaceSkipped | BibTeXLibrary/Parsing/BibParser.cs:508-516 | white space other than a newline produces no token and moves one column on, line and counters unchanged |
| Scanning.LineEndFirst | BibTeXLibrary/Parsing/BibParser.cs:502-507 | a line ends at the first `\n` or `\r`, or at the end of input |
| Scanning.CommentToken | BibTeXLibrary/Parsing/BibParser.cs:502-507 | `%` yields a Comment token holding the rest of the line starting with the `%`, resumes after the line terminator on the next line at column 0, and leaves the brace and parenthesis counters alone |
| Scanning.UnrecognizedCharacter | BibTeXLibrary/Parsing/BibParser.cs:508-511 | any other non-white-space character outside a token stops tokenizing with its line, column and character |
| Scanning.SingleCharacterTokens | BibTeXLibrary/Parsing/BibParser.cs:365-495 | `@ } ( ) , # =` each yield their own token kind (Start, RightBrace, LeftParenthesis, RightParenthesis, Comma, Concatenation, Equal) with the empty value and advance the column by 1; `}` lowers the brace counter, `(` and `)` raise and lower the parenthesis counter, the others leave both counters alone |
| Transitions.Expected | BibTeXLibrary/Parsing/BibParser.cs:279 | the expected list is the state's row keys, in row order |
| Transitions.Find | BibTeXLibrary/Parsing/BibParser.cs:273 | a found transition is in the row on that token; none is found exactly when no row entry is on it |
| Transitions.Lookup | BibTeXLibrary/Parsing/BibParser.cs:273-275 | a transition looked up is the state's row entry on that token |
| Transitions.LookupExpected | BibTeXLibrary/Parsing/BibParser.cs:273-281 | a token is accepted exactly when it is in the state's expected list |
| Transitions.RowsDeterministic | BibTeXLibrary/Parsing/BibParser.cs:31-99 | no state has two entries for the same token |
| Transitions.RowsNonEmpty | BibTeXLibrary/Parsing/BibParser.cs:31-99 | every state expects at least one token, so every error message lists one |
| Transitions.NameAfterValueRejected | BibTeXLibrary/Parsing/BibParser.cs:82-87 | after a tag value the table accepts only `#`, `,`, a closing brace or parenthesis and a comment, so a tag name is rejected with exactly that expected list |
| Transitions.Row | BibTeXLibrary/Parsing/BibParser.cs:31-99 | the state table, as literal data; every state has at least one transition |
| Transitions.Apply | BibTeXLibrary/Parsing/BibParser.cs:283-333 | only setting the type can fail, exactly when that type has no template; only `SetHeader` and `Build` change the document, and header lines are only appended |
| Transitions.Run | BibTeXLibrary/Parsing/BibParser.cs:255-348 | the run over the token list: a successful run saw the input end normally, and a bad-character error comes only from an input that ended at a bad character |
| Transitions.RunFrom | BibTeXLibrary/Parsing/BibParser.cs:255-348 | a successful run from a scanner state saw the enumeration from there end normally |
| Transitions.Parse | BibTeXLibrary/Parsing/BibParser.cs:255-348 | a successful parse has read the whole input without meeting a character no token starts with |
| Transitions.BuildLeadsOut | BibTeXLibrary/Parsing/BibParser.cs:31-99 | a transition enters OutEntry exactly when it builds the part |
| Transitions.TransitionShape | BibTeXLibrary/Parsing/BibParser.cs:31-99 | leaving the header creates a part; Create enters InStart; Build leaves an entry; SetType, SetKey and SetTag only occur inside an entry |
| Transitions.RunFromNext | BibTeXLibrary/Parsing/BibParser.cs:270-340 | one step of the parse: end of input is success in OutEntry and otherwise an EOF error with the state's row; a bad character is an error; a token without a row entry is an error with the state's row; otherwise the action runs and parsing continues in the next state |
| Transitions.RunFromEnd | BibTeXLibrary/Parsing/BibParser.cs:336-340 | running out of tokens outside OutEntry fails with EOF and the stuck state's row at the current line and column |
| Transitions.RunFromBad | BibTeXLibrary/Parsing/BibParser.cs:508-511 | an unrecognizable character ends the parse with that character's error |
| Transitions.RunFromUnexpected | BibTeXLibrary/Parsing/BibParser.cs:273-281 | a token with no row entry ends the parse with its type, the state's row and the position after the token |
| Transitions.RunFromAccepted | BibTeXLibrary/Parsing/BibParser.cs:273-334 | an accepted token runs its action and moves to the row's next state |
| Transitions.UnexpectedTokenStops | BibTeXLibrary/Parsing/BibParser.cs:273-281 | an unexpected token stops the parse: nothing after it matters |
| Transitions.EndOfInputOutsideEntry | BibTeXLibrary/Parsing/BibParser.cs:336-340 | running out of tokens in any state but OutEntry fails with EOF and a non-empty expected list |
| Transitions.RunStep | BibTeXLibrary/Parsing/BibParser.cs:273-334 | an accepted token whose action succeeds continues the parse from the next state |
| Transitions.ConcatenationAccumulates | BibTeXLibrary/Parsing/BibParser.cs:308-314 | a value `v1 # v2 # ... # vn` accumulates v1 v2 ... vn with no separator, and the flag is whether the last segment was a String |
| Transitions.ConcatenationHead | BibTeXLibrary/Parsing/BibParser.cs:308-314 | the first value segment starts the accumulator and sets the flag |
| Transitions.ConcatenationLink | BibTeXLibrary/Parsing/BibParser.cs:308-314 | a `#` and the remaining segments append their joined text |
| Transitions.ValueStep | BibTeXLibrary/Parsing/BibParser.cs:308-314 | a String or Name in a value appends its text and sets the flag to whether it was a String |
| Transitions.ConcatenationStep | BibTeXLibrary/Parsing/BibParser.cs:83 | `#` after a value changes nothing but the state |
| Transitions.CommaCommitsTag | BibTeXLibrary/Parsing/BibParser.cs:316-321 | `,` after a value stores TagValue(accumulated text, flag) under the pending name and clears the name and accumulator |
| Transitions.CloseCommitsAndBuilds | BibTeXLibrary/Parsing/BibParser.cs:323-332 | a closing brace or parenthesis with a pending name stores the text through the indexer set (a new tag becomes a literal), clears the name and accumulator, and appends the part to the document |
| Transitions.SetTypeInitializes | BibTeXLibrary/Parsing/BibParser.cs:293-297 | setting the type stores it and initializes the entry with the type's template tags, keeping the table valid |
| Parsing.BibParser.State | BibTeXLibrary/Parsing/BibParser.cs:354-364 | the tokenizer's state is its position, line, column and its brace and parenthesis counters |
| Parsing.BibParser.constructor | BibTeXLibrary/Parsing/BibParser.cs:113-118 | a new parser starts at position 0, line 1, column 0, with no open braces or parentheses |
| Parsing.BibParser.Peek | BibTeXLibrary/Parsing/BibParser.cs:543-546 | the next character, or none at the end of input |
| Parsing.BibParser.Read | BibTeXLibrary/Parsing/BibParser.cs:552-563 | returns the next character and consumes it; every read, even at the end, adds 1 to the column |
| Parsing.BibParser.ReadLine | BibTeXLibrary/Parsing/BibParser.cs:502-507 | reads the rest of the line up to its terminator, consumes the terminator and leaves line and column unchanged |
| Parsing.BibParser.ScanName | BibTeXLibrary/Parsing/BibParser.cs:370-389 | the name loop produces exactly the specified name token and state |
| Parsing.BibParser.ScanQuoted | BibTeXLibrary/Parsing/BibParser.cs:390-424 | the quote loop produces exactly the specified quoted token and state |
| Parsing.BibParser.GroupChar | BibTeXLibrary/Parsing/BibParser.cs:441-459 | one step of the brace loop: reads a character, updates the depth, and keeps it unless it closes the group |
| Parsing.BibParser.ScanGroup | BibTeXLibrary/Parsing/BibParser.cs:437-461 | the brace loop produces exactly the specified group token and state |
| Parsing.BibParser.Step | BibTeXLibrary/Parsing/BibParser.cs:363-517 | one pass of the tokenizer's dispatch either yields the specified next token or skips characters without changing it |
| Parsing.BibParser.StepRest | BibTeXLibrary/Parsing/BibParser.cs:469-517 | the dispatch for parentheses, `,`, `#`, `=` and the rest, with Step's contract |
| Parsing.BibParser.StepSpace | BibTeXLibrary/Parsing/BibParser.cs:496-517 | the dispatch for newline, comment, unrecognizable character and white space, with Step's contract |
| Parsing.BibParser.NextToken | BibTeXLibrary/Parsing/BibParser.cs:354-518 | the imperative tokenizer yields exactly the specified next token and lexer state |
| Parsing.BibParser.Perform | BibTeXLibrary/Parsing/BibParser.cs:283-333 | each builder action updates the document, the current entry, the pending name, the flag and the accumulator exactly as the pure action does, failing exactly when it does |
| Parsing.BibParser.Parse | BibTeXLibrary/Parsing/BibParser.cs:255-348 | the imperative parse succeeds exactly when the table-driven run does, with the same document, and otherwise fails with the same error |
| Examples.Accept | BibTeXLibrary/Parsing/BibParser.cs:273-334 | an accepted token whose action succeeds continues from the next lexer state |
| Examples.EmptyInput | BibTeXLibrary/Parsing/BibParser.cs:336-340 | empty input fails with EOF at line 1, column 0, expecting Comment or Start |
| Examples.WithoutKeyAndTags | UnitTest/BibParserTest.cs:53-58 | `@book{}` parses to one entry of type book with no key and no tags |
| Examples.BrokenEntry | UnitTest/BibParserTest.cs:64-70 | `@book{,` fails with EOF, expecting Name or RightBrace |
| Examples.IncompleteTag | UnitTest/BibParserTest.cs:74-80 | `@book{,title=,}` fails at the second comma, expecting String or Name |
| Examples.BadCharacterInName | UnitTest/BibParserTest.cs:104-110 | `?` in `ti?le` is an unrecognizable character at line 1, column 9 |
| Examples.BrokenTag | UnitTest/BibParserTest.cs:84-91 | `@book{,titl` fails with EOF at line 1, column 11, expecting only Equal |
| Examples.BrokenNumber | UnitTest/BibParserTest.cs:94-101 | `@book{,title = 2014` takes `2014` as a Name value and fails with EOF at line 1, column 19, expecting Concatenation, Comma, RightBrace, RightParenthesis or Comment |
| Examples.PingLeYuanJoined | UnitTest/BibParserTest.cs:30 | the tokens of `"Ping" # "Le" # "Yuan"` form a concatenation whose segments join to `PingLeYuan`, ending in a String |
| Examples.JoinedAddress | UnitTest/BibParserTest.cs:28-35 | with `address` pending, those tokens and the following comma store TagValue(`PingLeYuan`, literal) under `address`, whatever follows |
| Examples.StoredReadsBack | BibTeXLibrary/Bibliography/BibEntry.cs:313-317 | what `SetTagValue` stores under a name, the indexer get reads back under that name |
| Examples.AddressReadsBack | UnitTest/BibParserTest.cs:35 | the stored address reads `PingLeYuan` |
| Examples.StringEntryOpens | BibTeXLibrary/Parsing/BibParser.cs:283-296 | `@` creates a part and the `string` keyword sets its type with no default tags |
| Examples.StringEntryPrefix | BibTeXLibrary/Parsing/BibParser.cs:273-296 | `@string` takes the parse from `Begin` to `InStringEntry` with a part of type `string` |
| Examples.StringEntryOpen | BibTeXLibrary/Parsing/BibParser.cs:31-99 | in `InStringEntry` either `{` or `(` leads to `InTagName` and changes nothing |
| Examples.StringEntryName | BibTeXLibrary/Parsing/BibParser.cs:303-305 | `NAME =` leaves `NAME` pending and a value expected |
| Examples.StringEntryValue | BibTeXLibrary/Parsing/BibParser.cs:307-313 | the String token `Title of Conference` is appended to the pending value as a literal |
| Examples.NameStored | BibTeXLibrary/Bibliography/BibEntry.cs:318-329 | the indexer set of `NAME` on an empty table stores a literal under `name` |
| Examples.StringPartStored | BibTeXLibrary/Bibliography/BibliographyDOM.cs:68-78 | committing the pending `NAME` gives the part `string` / `name` = literal, and adding it puts it among the string constants |
| Examples.StringEntryClosed | BibTeXLibrary/Parsing/BibParser.cs:323-340 | after the value, a closing `}` or `)` that ends the text leaves the part as the only string constant, with no entries |
| Examples.StringConstantEntry | UnitTest/BibParserTest.cs:151-198 | the tokens of `@string{NAME = …}` and `@string(NAME = …)`, with the value a String token `Title of Conference` (what either a braced or a quoted value lexes to), parse to a document with no entries and one string constant of type `string` whose one tag is `name` = literal `Title of Conference` |
| Examples.StringConstantReads | UnitTest/BibParserTest.cs:156-159 | that tag reads `Title of Conference` under both `NAME` and `name` |
| Bibliographies.KeyInUseAsWritten | BibTeXLibrary/Bibliography/Bibliography.cs:206-224 | the search as written, which fails with NullReference at the first keyless entry met before a match, and fails with nothing else |
| Bibliographies.KeyInUseAsWrittenAgrees | BibTeXLibrary/Bibliography/Bibliography.cs:206-224 | when every entry has a key, the search as written answers whether the key is in use ignoring case |
| Bibliographies.KeylessEntryFails | BibTeXLibrary/Bibliography/Bibliography.cs:215-221 | a keyless entry ahead of others makes the search as written fail though the key is free |
| Bibliographies.KeyInUse | BibTeXLibrary/Bibliography/Bibliography.cs:206-224 | the intended key search; a list with only keyless entries uses no key |
| Bibliographies.KeyInUseAsWrittenSound | BibTeXLibrary/Bibliography/Bibliography.cs:206-224 | any answer the search as written gives is the intended answer; it fails only with NullReference, and only when some entry has no key |
| Bibliographies.CiteKeySuffixAsWritten | BibTeXLibrary/Bibliography/Bibliography.cs:190-221 | the suffix search as written: a suffix it returns is one of the suffixes whose key the search as written finds free, and it runs out (IndexOutOfRange) exactly when the search as written finds every suffix's key in use |
| Bibliographies.CiteKeySuffixAsWrittenSound | BibTeXLibrary/Bibliography/Bibliography.cs:190-204 | the suffix search as written fails with NullReference only when some entry has no key; otherwise it returns the first free suffix, or IndexOutOfRange when there is none |
| Bibliographies.KeylessEntryBlocksSuffix | BibTeXLibrary/Bibliography/Bibliography.cs:190-221 | with a keyless entry first, the suffix search as written fails with NullReference although the first suffix is free |
| Bibliographies.CiteKeyBase | BibTeXLibrary/Bibliography/Bibliography.cs:174-183 | the base is `ref:` followed by the first author's name and the year |
| Bibliographies.FreeSuffix | BibTeXLibrary/Bibliography/Bibliography.cs:190-204 | a suffix found is one of the generator's suffixes and makes a key that is not in use |
| Bibliographies.FreeSuffixFirst | BibTeXLibrary/Bibliography/Bibliography.cs:190-204 | the suffix chosen is the first in generator order whose key is free; none exactly when every key is in use |
| Bibliographies.EntriesText | BibTeXLibrary/Bibliography/Bibliography.cs:112-116 | writing the entries fails only with the error of one of the entries |
| Bibliographies.EntriesTextSucceeds | BibTeXLibrary/Bibliography/Bibliography.cs:112-116 | writing the entries succeeds exactly when every entry renders |
| Bibliographies.WriteEntries | BibTeXLibrary/Bibliography/Bibliography.cs:112-116 | the loop over the entries returns exactly the written entries text, or the first rendering error |
| Bibliographies.EntriesTextStep | BibTeXLibrary/Bibliography/Bibliography.cs:112-116 | one more entry that renders adds a newline and its text |
| Bibliographies.EntriesFailFrom | BibTeXLibrary/Bibliography/Bibliography.cs:112-116 | writing the entries fails with the first failing entry's error |
| Bibliographies.Bibliography.constructor | BibTeXLibrary/Bibliography/Bibliography.cs:19-30 | a new bibliography has an empty document |
| Bibliographies.Bibliography.IsKeyInUse | BibTeXLibrary/Bibliography/Bibliography.cs:206-224 | the search loop answers whether some entry's key equals the key ignoring case (keyless entries skipped) |
| Bibliographies.Bibliography.GenerateCiteKeySuffix | BibTeXLibrary/Bibliography/Bibliography.cs:190-204 | the search loop, over the corrected key search, returns the first free suffix, or fails with IndexOutOfRange when every suffix is taken; wherever the search as written does not throw NullReference it returns what the search as written returns |
| Bibliographies.Bibliography.HasValidAutoCiteKey | BibTeXLibrary/Bibliography/Bibliography.cs:142-153 | a keyless entry fails with NullReference; otherwise true exactly when the key starts with the base (false when the base is longer) |
| Bibliographies.Bibliography.GenerateUniqueCiteKey | BibTeXLibrary/Bibliography/Bibliography.cs:160-168 | over the corrected key search, sets the key to base + the first free suffix; that key was not in use ignoring case, and the entry then has a valid auto key; failure leaves the key unchanged; wherever the search as written does not throw NullReference the result is the same as written |
| Bibliographies.Bibliography.Write | BibTeXLibrary/Bibliography/Bibliography.cs:95-118 | overwrites the settings' newline and nothing else in them; the text is each header line plus newline, then for each entry a newline and its rendering; string constants are not written; the first rendering error is passed on |

## Left out

- Streams and files: the path and `TextReader` constructors, the static `Parse` wrappers, `GetAllResults`, `Dispose`/`finally` in the parser, and the `StreamWriter` in `Bibliography.Write` and `Read`. The input is a `seq<char>`, and `Write` returns its text instead of writing it. The writer's newline is a parameter.
- XML (de)serialization of the initialization (`Serialize`/`Deserialize`) and `BibEntryInitializer.cs`: they are calls into the XML library.
- Property-change notifications and the `Modified` events of `BibEntry`, `BibliographyPart` and `WriteSettings`: they have no effect on the data.
- `GetFirstAuthorsName`, `StringCase` and `EnglishLowerCaseAlphabet` are not part of this model. The first author's name is a function parameter and the suffixes a sequence parameter. `entry.Year` is read as the `year` tag.
- `OrderBy`'s culture-sensitive comparer is a parameter `le`, assumed to be a total preorder. A null key sorts first.
- Character classes: `char.IsWhiteSpace` is the .NET list, written out. `char.IsLetterOrDigit` and `ToLower` are ASCII only.
- `TagValue` is a value, not a shared object. Aliasing of one `TagValue` through several tables is not modelled. A TagValue built without content has `""` rather than null.
- A fresh part's null `Type` is `""`. The parser sets the type before any use of it.
- `AddBibPart` casts a `string` part to `StringConstantPart`. The parser hands it a `BibEntry`, so in the code the cast would fail. With one part shape, the model routes such a part to the string constants without a cast.
- `Dispose` sets the document's lists to null. The model empties them, since a null list is never read again.
- The `Debug.Assert` and `Debug.WriteLine` calls have no effect and are left out.
- `ReadLine` stops at the first `\n` or `\r`. It consumes `\r\n` as one terminator, and either character alone as one terminator.
- The `UnrecognizableCharacterException` message text is not modelled: there are two differing versions of it. Only its line, column and character are kept.
- The default-tags lookup uses indexers that throw on a missing template. That case is a `TemplateNotFound` error.
- Transitions.Lookup: its ensures says only that a result is the row's entry on that token. The converse (accepted exactly when listed in `Expected`) is the separate lemma `Transitions.LookupExpected`.
- Bibliographies.Bibliography.GenerateCiteKeySuffix: it runs over the corrected key search. Over a document holding a keyless entry, the code throws NullReferenceException (`Bibliography.cs:194` calls the search at `:215-221`; see Findings), and the method succeeds there instead. Its contract states that it returns what the search as written, `Bibliographies.CiteKeySuffixAsWritten`, returns wherever that does not throw.
- Bibliographies.Bibliography.GenerateUniqueCiteKey: the same as `GenerateCiteKeySuffix`, which it calls. A keyless entry in the document makes the code throw NullReferenceException before the key is set, but the method sets a key. Its contract states agreement with the search as written wherever that does not throw.
- Settings.WriteSettings.GetInterTagSpacing: C#'s 32-bit wrap-around is not modelled; the model uses unbounded integers. `AlignAtColumn - 1 - tagKey.Length - TabSize` (`WriteSettings.cs:307`) and the tab count (`:296`) can wrap in C#. For example, TabSize `int.MinValue` with AlignAtColumn 24 and a one-letter key wraps to a negative count, and C# throws; the model succeeds with a huge padding. The same holds for `Indent`'s TabSize.
- Parsing.BibParser: the line and column counters are unbounded integers. C# wraps them after 2^31 - 1 lines or columns.
- Writing and parsing back are not inverse, so no round-trip lemma is stated. The writer puts no comma between tag lines (`BibEntry.cs:277-295`), so the second tag's name is an unexpected token after a value (`Transitions.NameAfterValueRejected`). For `@book{k,\n  title = {a}\n  year = {b}\n}\n` the parse ends with UnexpectedToken(3, 6, Name, [Concatenation, Comma, RightBrace, RightParenthesis, Comment]). The parser also commits the last tag through the string indexer (`BibParser.cs:323-332`, `Transitions.CloseCommitsAndBuilds`), which turns a new reference value into a literal.
- Three calls name members that the classes do not declare: `GetDefaultTags` (`BibParser.cs:296`), `AddBibEntry` (`BibParser.cs:331`) and `BibliographyEntries` (`Bibliography.cs:45`, `:112`, `:215`). The model reads them as the declared `GetTags(BibEntry)` (`BibEntryInitialization.cs:58-61`), `AddBibPart` (`BibliographyDOM.cs:68`) and `BibiographyEntries` (`BibliographyDOM.cs:53`).
- The `address` and `@string` examples (`BibParserTest.cs:28-35`, `:151-198`) start from the token sequence, not the text: the lexing of a braced or quoted value is not evaluated on those texts. Three tests are not re-derived as whole parses: the escaped-quote `title` of `TestParserString`, `TestParserRegularBibEntry` (`BibParserTest.cs:14-22`, the title `{"0"{123}456{789}}`) and `TestParserWithoutKey` (`:41-47`, `@book{, title = {}}`). `GroupToken`, `CommaCommitsTag` and `CloseCommitsAndBuilds` state their steps in general.
- The tests that read `TestData/*.bib` files depend on files that are not part of this model.

## Findings

| source | as written | input that shows it | evidently intended | confidence | as-written member | corrected member |
|---|---|---|---|---|---|---|
| BibTeXLibrary/Bibliography/Bibliography.cs:215-221 | `IsKeyInUse` calls `entry.Key.ToLower()` on every entry, and a parsed entry without a cite key (`@book{}`) has a null `Key`, so the search throws NullReferenceException | entries with keys [null, "ref:a"] and the key "ref:b" | a keyless entry uses no key, so the search passes over it and answers false | not executed | Bibliographies.KeyInUseAsWritten (counterexample: Bibliographies.KeylessEntryFails; in the suffix search: Bibliographies.CiteKeySuffixAsWritten, counterexample Bibliographies.KeylessEntryBlocksSuffix) | Bibliographies.Bibliography.IsKeyInUse (proved equal to Bibliographies.KeyInUse; Bibliographies.KeyInUseAsWrittenAgrees and Bibliographies.KeyInUseAsWrittenSound show both agree wherever the code does not throw), used by Bibliographies.Bibliography.GenerateCiteKeySuffix and Bibliographies.Bibliography.GenerateUniqueCiteKey |
