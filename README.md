# Bible API viewer — a Dafny model of its string and table logic

The Bible API viewer is a Streamlit page in front of a remote scripture REST
API. Under its HTTP calls and widgets sits a layer of plain string and table
logic, and this project models that layer and proves properties of it:

- **Chapter renderer** (`format_chapter_text`, module `Render`). It walks the
  `class="p"` paragraphs of a chapter and renders each child. Every element
  goes through a fixed class table (`v`, `wj`, `add`, `nd`, else pass-through)
  under the five sidebar settings. As it goes, it tracks the current verse and
  fills the clarification index: each verse mapped to the added words under
  it. `ChapterView` is a class whose field is that index, which the Python
  code keeps as a global. `FormatChapterText` is its method, with nested
  loops proved against head-recursive specification functions.
- **Cross-reference page logic** (module `CrossRef`). This covers the chapter
  prefix search over the cross-reference index, the case-insensitive verse
  filter, the three-wide button grid, and the `_`-joined verse token that a
  button passes to the verse display.
- **Identifier resolution** (module `BibleHelper`). It resolves a
  translation ID or name, corrects an ID, normalises a book name to its
  abbreviation, and canonicalises chapter and verse numbers.
- **API front-ends** (module `BibleApi`). These are the input checks and
  identifier strings built before each request. A front-end's outcome is a
  `Call`: an immediate `Reply`, a `Fetch` of a URL with query parameters, or
  `Raises` for an exception that escapes.

Shared pieces:

- `Tables` models a Python dictionary as an association list in insertion
  order: `Get` finds the first entry with the key.
- `Tables.Matcher` models `difflib.get_close_matches(word, candidates, n=1)`
  as an uninterpreted function. It returns nothing or one of the candidates.
- `Text` models the str methods the code uses: `in`, `startswith`,
  `lower`/`upper`, `strip`, `split`, `join`, and `int`/`str` on decimal
  numerals.

## Model

| member | source | states |
|---|---|---|
| Tables.Get | scripts/bible_helper.py:37 | a dictionary lookup finds a value exactly when the key is present, and the value found is stored under that key |
| CrossRef.SearchCrossRef | main.py:39-42 | the chapter's cross-references are exactly the index items whose key starts with `"{book_id}.{chapter}."`, each with its own refs, and there are never more of them than in the index |
| CrossRef.SearchCrossRefLookup | main.py:41 | looking a key up in the result gives the index's refs for a key with the prefix, and nothing for any other key |
| CrossRef.SearchCrossRefOrder | main.py:41 | the result keeps the index's order: searching a concatenation concatenates the searches |
| CrossRef.SearchCrossRefExample | main.py:40 | the trailing dot of the prefix keeps `GEN.10.1` out of the result for chapter 1 of `GEN` |
| CrossRef.FilterVerses | main.py:165 | the filtered keys are exactly the keys of the chapter that contain the search term, ignoring case with ASCII case mapping, and no key is kept more often than the chapter has it |
| Seqs.FilterSubMultiset | main.py:165 | a filtered list keeps no element more often than the list holds it |
| CrossRef.FilterVersesEmptyTerm | main.py:165 | an empty search term keeps every key, in order |
| CrossRef.FilterVersesOrder | main.py:165 | the filter keeps key order: filtering a concatenation concatenates the filtered parts |
| CrossRef.FilterVersesIgnoresTermCase | main.py:165 | with ASCII case mapping, lower-casing or upper-casing the search term leaves the result unchanged |
| CrossRef.FilterVersesExample | main.py:165 | `gen` matches `GEN.1.1` and not `EXO.1.1` |
| CrossRef.GridRows | main.py:166-167 | the grid has ⌈n/3⌉ rows; row k is the slice `[3k:3k+3]`; every row holds 1 to 3 items and all rows but the last hold 3; the rows concatenate back to the list (the refs grid at lines 176-177 is the same loop) |
| CrossRef.SplitRefToken | main.py:51 | unpacking a token succeeds exactly when it splits into four `_`-separated parts |
| CrossRef.RefTokenRoundTrip | main.py:51 | a token joined from four fields splits back into those fields if and only if none of them contains `_` |
| CrossRef.GridRefToken | main.py:171 | the token a grid button builds, from the translation, book, chapter and the last dot part of the verse key, splits back into those four fields when none contains `_` |
| CrossRef.CrossRefButtonRefIsRejected | main.py:179-181 | a cross-reference without `_`, passed to the verse display as it is, never unpacks into four fields |
| CrossRef.CrossRefTokenRoundTrip | main.py:176-181 | the corrected token for a ref `"{book}.{chapter}.{verse}"` splits back into the translation, book, chapter and verse |
| Render.Classify | main.py:94-111 | a recognised class is one the element carries, and no class earlier in the order `v`, `wj`, `add`, `nd` is carried: the first matching branch wins |
| Render.VerbatimChildren | main.py:89-90 | a text node is copied verbatim, and an element with none of the four classes contributes its inner contents unchanged (lines 110-111) |
| Render.DivineNameCaseOnly | main.py:105-109 | with ASCII case mapping, a divine name is only re-cased by capitalisation, is unchanged when not capitalised, is upper-cased when capitalised, and gets exactly the seven characters ` (YHWH)` appended after it, and only then, when the original names are shown |
| Render.Pieces | main.py:94-100 | the weight placeholder occurs only in a verse number's output, and the colour placeholder only in Jesus' words |
| Render.EmitFillsPieces | main.py:94-111 | each child's output is its template with the weight word (`bold`/`normal`) and the colour word (`red`/`white`) filled in |
| Render.FillConcat | main.py:87-111 | filling a concatenated template concatenates the filled parts |
| Render.RunPiecesFill | main.py:88-111 | a paragraph's rendering is its template filled with the weight and colour words |
| Render.BlockPiecesFill | main.py:86-111 | the chapter's rendering is its template filled with the weight and colour words |
| Render.RunPiecesIgnoreToggles | main.py:96-99 | a paragraph's template does not depend on the bold or colour settings |
| Render.BlockPiecesIgnoreToggles | main.py:96-99 | the chapter's template does not depend on the bold or colour settings |
| Render.TogglesChangeOnlyTheirWord | main.py:96-99 | whatever `bold_verse_numbers` and `color_jesus_words` are, the output is one and the same template with only the weight and colour words differing |
| Render.ShowClarificationsIrrelevant | main.py:65 | the rendered chapter does not depend on `show_clarifications` |
| Render.RunPiecesIgnoreShow | main.py:88-111 | a paragraph's template does not depend on `show_clarifications` |
| Render.NonParagraphsIgnored | main.py:86 | blocks that are not `class="p"` paragraphs add no text, no clarification and do not move the current verse |
| Render.AddsBeforeFirstVerse | main.py:77 | in a run with no verse number, every added word is recorded under `None` and the verse stays `None` (lines 101-104) |
| Render.AddsInConcat | main.py:95-104 | a run split in two records the first part's added words and then the second part's, under the verse the first part leaves |
| Render.VerseAfterConcat | main.py:95-98 | a run split in two leaves the verse its second part leaves when started from the first part's |
| Render.AddsInBlocksConcat | main.py:81-104 | a chapter split in two records the first part's added words and then the second part's, under the verse the first part leaves |
| Render.VerseAfterBlocksConcat | main.py:81-98 | a chapter split in two leaves the verse its second part leaves when started from the first part's |
| Render.AddsBeforeFirstVerseBlocks | main.py:77 | in paragraphs without verse numbers every added word is recorded under `None` and the verse stays `None` (lines 81-104) |
| Render.AddsBeforeFirstVerseInChapter | main.py:77 | the added words of a chapter up to its first verse number, in the paragraphs before it and in its own paragraph before it, come first in the index and all fall under `None`; the rest follows from the first verse number on (lines 81-104) |
| Render.AddsInParagraphAfter | main.py:81-104 | when the verse is still `None` after the paragraphs `a` and the children `pre`, the index lists the words of `a`, then of `pre`, then of the rest of the paragraph and of the later paragraphs |
| Render.GroupSnoc | main.py:104 | appending an added word extends only its verse's list, at the end |
| Render.RecordAdded | main.py:104 | after `setdefault(verse, []).append(word)` every verse's list is its old list, extended by the word only for that verse |
| Render.VerseAfterSnoc | main.py:94-95 | the current verse after one more child is that child's verse number, if it is one, else unchanged |
| Render.RenderRunSnoc | main.py:88-111 | one more child appends its own output, rendered under the current verse |
| Render.AddsInSnoc | main.py:101-104 | one more child appends its added word, if any, under the current verse |
| Render.RenderBlocksSnoc | main.py:86-90 | one more paragraph appends `"\n \n"` and then its children's output; any other block appends nothing |
| Render.VerseAfterBlocksSnoc | main.py:86-95 | the current verse carries over from one paragraph to the next |
| Render.AddsInBlocksSnoc | main.py:86-104 | one more paragraph appends its added words in document order |
| Render.ChapterView.constructor | main.py:71 | the clarification index starts empty |
| Render.ChapterView.FormatChapterText | main.py:74-113 | missing content gives only the warning and leaves the index `{}`; otherwise the markdown is, for each `class="p"` paragraph, `"\n \n"` and then its children rendered in order, and the index maps exactly the verses with added words to those words in document order |
| Render.ChapterView.AppendChildren | main.py:88-111 | the inner loop appends a paragraph's rendered children, moves the current verse past them and keeps the index complete |
| Render.ChapterView.RenderChild | main.py:89-111 | one child yields its table output and its next current verse, and an `add` child records its text under the current verse |
| Render.ChapterView.AddClarification | main.py:104 | the word is appended to the list of its verse, created empty if missing, and the index stays complete |
| Render.BlockStep | main.py:86-87 | one turn of the paragraph loop extends the text by `"\n \n"` and the paragraph's children, and moves verse and added words on, for a `class="p"` block only |
| Render.ChildStep | main.py:88-111 | one turn of the child loop extends the text by the child's output under the current verse, and moves verse and added words on |
| Text.NatToStringRoundTrip | scripts/bible_helper.py:68 | `int(str(n)) == n` for every natural number |
| Text.NatToStringCanonical | scripts/bible_helper.py:68 | `str(int(...))` yields a numeral without leading zeros |
| Text.StripEmptyIffAllSpace | scripts/bible_api_util.py:14 | a string strips to empty exactly when all its characters are whitespace |
| Text.SplitJoin | main.py:51 | splitting what was joined with a separator that no part contains gives back the parts |
| Text.SplitJoinNeedsSeparatorFreeParts | main.py:51 | when a split does give back the joined parts, none of them contains the separator |
| BibleHelper.IdOfEntryIsAnId | scripts/bible_helper.py:46-51 | the `id` of any entry found by name is among the translation IDs |
| BibleHelper.BookAbbreviation | scripts/bible_helper.py:36-43 | any abbreviation found is the `id` of some entry of the table |
| BibleHelper.NormalizeBookName | scripts/bible_helper.py:36-43 | the book's own non-empty `id` if it has one; otherwise the name itself when some entry has it as `id`; otherwise the first lookup's result (`None`, or an empty `id`); any result is an `id` of the table |
| BibleHelper.GetBibleId | scripts/bible_helper.py:45-55 | an exact ID is returned unchanged; otherwise a full name gives its entry's ID; otherwise the closest name's entry's ID; every success is an ID of the directory, and the `ValueError` with its message is raised exactly when all three fail |
| BibleHelper.AutoCorrectBibleId | scripts/bible_helper.py:57-64 | an exact ID is returned unchanged; otherwise the closest ID; every success is an ID of the directory, and the `ValueError` is raised exactly when there is no close ID |
| BibleHelper.ValidateChapterAndVerse | scripts/bible_helper.py:66-74 | invalid exactly when the chapter, or a truthy verse, is not a numeral, and then with the format message; a pair exactly when the verse is truthy; the returned numbers are canonical and have the input's values |
| BibleHelper.ValidateIdempotent | scripts/bible_helper.py:68-70 | validating an accepted result again returns it unchanged |
| BibleHelper.ValidateStripsLeadingZeros | scripts/bible_helper.py:68-71 | `"01"` becomes `"1"`, and `("007", "010")` becomes `("7", "10")` |
| BibleHelper.ValidateEmptyVerseAndNonNumeral | scripts/bible_helper.py:66-74 | an empty verse gives the chapter alone, and `"x1"` is rejected with the format message |
| BibleApi.FirstMatch | scripts/bible_api_util.py:19-21 | the position found is that of the first entry whose name, abbreviation, language or script contains the term ignoring case; none is found exactly when no entry matches |
| BibleApi.GetBibleIdAndName | scripts/bible_api_util.py:12-23 | a non-string or blank term yields `invalid_input` before any scan; otherwise the first matching entry's ID and name answer; the remote search is requested, with the stripped term, exactly when no entry matches |
| BibleApi.GetBookId | scripts/bible_api_util.py:55-65 | the key's non-empty `id`; otherwise `"Did you mean: "` and the closest book name of the table; otherwise the invalid-book message; nothing else |
| BibleApi.SearchByFieldMembers | scripts/bible_api_util.py:69 | the search returns a pair for an entry exactly when that entry's field contains the term, ignoring case |
| BibleApi.SearchByFieldOrder | scripts/bible_api_util.py:69 | the search keeps the directory's order: searching a concatenation concatenates the searches |
| BibleApi.SearchByFieldOne | scripts/bible_api_util.py:69 | a single entry gives its `(name, id)` pair when its field matches and nothing otherwise |
| BibleApi.SearchBibleByLanguageMembers | scripts/bible_api_util.py:68-70 | the `(name, id)` pairs of exactly the entries whose language contains the term, ignoring case |
| BibleApi.SearchBibleByScriptMembers | scripts/bible_api_util.py:73-75 | the `(name, id)` pairs of exactly the entries whose script contains the term, ignoring case |
| BibleApi.ChapterId | scripts/bible_api_util.py:109 | the chapter ID is `"{book}.{chapter_number}"` |
| BibleApi.ChapterIdSplits | scripts/bible_api_util.py:109 | a chapter ID splits back into book and chapter when neither contains a dot |
| BibleApi.VerseId | scripts/bible_api_util.py:150 | the verse ID is `"{book}.{chapter}.{verse}"` |
| BibleApi.VerseIdSplits | scripts/bible_api_util.py:150 | a verse ID splits back into its three parts when none contains a dot |
| BibleApi.GetSpecificVerseInBible | scripts/bible_api_util.py:128-152 | an unresolved Bible returns its error; an unresolved book or an empty abbreviation returns the invalid-book message; a malformed chapter or verse returns the format message; only then is the verse requested, by the normalised `"{abbr}.{chapter}.{verse}"`, and every valid chapter and verse does request it; with an empty verse, the request is made exactly when the canonical chapter (leading zeros dropped, so `"012"` is `"12"`) has two characters, which become chapter and verse, and any other chapter raises the unpacking error |
| BibleApi.SpecificVerseIdParts | scripts/bible_api_util.py:144-150 | the verse ID requested splits into the book's abbreviation and canonical chapter and verse numerals with the arguments' values |
| BibleApi.EmptyVerseUnpacksChapter | scripts/bible_api_util.py:144-148 | with an empty verse, chapter `"12"` is unpacked into chapter 1, verse 2, and chapter `"3"` raises the unpacking `ValueError` |
| BibleApi.GetFullChapterText | scripts/bible_api_util.py:101-111 | an unresolved Bible returns its error; otherwise the chapter `"{book}.{chapter_number}"` of a directory ID is requested |
| BibleApi.GetListOfVersesInChapter | scripts/bible_api_util.py:31-44 | an unresolved Bible returns its error; a non-numeric chapter returns the format message; otherwise the canonical chapter's verse list is requested |
| BibleApi.VerseIdsSplit | scripts/bible_api_util.py:45-50 | the response becomes one `"{bookId}.{chapter}.{verse}"` per item, in order, each splitting back into the item's fields |
| BibleApi.SearchPassage | scripts/bible_api_util.py:202-217 | a non-string or blank query is rejected before the ID is corrected; an uncorrectable ID returns its error; otherwise a directory ID is searched with the stripped, non-empty query, the limit and the offset, so every non-blank query on a correctable ID is searched |

## Left out

- Network I/O is not modelled: `request_data` with its retry decorator, every `requests.get`, and the API key. A front-end that would call the API ends in `Fetch(url, params)`. Of the response handling only the verse-list rewrite of `get_list_of_verses_in_chapter` (scripts/bible_api_util.py:45-50) is modelled, by `VerseIds`; the rest of what the front-ends do with a response is not.
- `json.load` of the static tables and `json.dumps`/`json.loads` around every reply are plumbing around static data. The tables are parameters of the model.
- Streamlit is not modelled: `@st.cache_data` memoisation, the sidebar, `main()`'s select boxes, columns and buttons, `st.markdown` and `st.warning`. The renderer returns what it would show.
- `main()` itself is not part of the model. It chains the front-ends through widgets and JSON.
- The clarifications display at main.py:186-193 is UI, nested under the cross-reference `else`.
- BeautifulSoup parsing, `decode_contents` and `extract_verse_content` (main.py:23-36) are a foreign HTML library. The renderer takes an abstract list of blocks: a tag, a class list and children, where a child is a text node or an element with classes, text and inner contents. Nested paragraphs and the parser's own repair of bad markup are therefore not modelled.
- `difflib.get_close_matches` is floating-point similarity with a 0.6 cutoff. The model keeps only its contract: nothing, or one of the candidates.
- `BibleHelper.ValidateChapterAndVerse`: Python's `int()` also accepts surrounding whitespace, a sign, underscores and non-ASCII digits. The model reads only ASCII digit strings and treats everything else as non-numeric. A negative number is one such input.
- `Text.ContainsIgnoringCase`: `lower()`/`upper()` are modelled for ASCII letters only, without Unicode case mapping. `CrossRef.FilterVersesIgnoresTermCase` and the length clause of `Render.DivineNameCaseOnly` rest on this: in Python `"ı".upper()` is `"I"` and `"ß".upper()` is `"SS"`.
- `Render.ChapterView.FormatChapterText`: `None` stands for every falsy `chapter_html`, both `None` and the empty string (main.py:79); parsed content without blocks is `Some([])` and renders `Markdown("")`.
- `Render.ChapterView.FormatChapterText`: the clarification index is a `map`, so the insertion order of its keys is not modelled. The order of words under each key is modelled.
- `BibleApi.GetBibleIdAndName`: the non-string check is modelled as an absent term (`None`). The handling of the remote search's response (its first result, or `not_found`) is not modelled.
- `BibleApi.SearchPassage`: the query parameters are modelled as the strings `requests` sends. `limit` and `offset` are integers, with the source's defaults `limit = 10` and `offset = 0` as the parameters' default values.
- Every directory entry has an `id`, `abbreviation`, `language` and `script`, and every abbreviation entry has an `id`. So the `.get(..., '')` defaults, the falsy-empty-entry case in `get_bible_id` and a `KeyError` on a missing `id` are not modelled.
- `get_information_about_specific_bible`, `get_list_of_books_and_book_id`, `get_list_of_chapters_and_chapter_id_in_specific_book`, `search_bible_for_keyword`, `get_passages_in_chapter` and both `get_all_bibles` are not part of this model. Beyond `get_bible_id`, they format a URL, request it and wrap the response. `search_bible_for_keyword` also percent-encodes the query and replaces an empty result with a no-results message. Both `get_all_bibles` check the response, report every exception through `st.error` and return `None`. The first `get_all_bibles` is also shadowed by the second.

## Findings

| source | as written | input that shows it | evidently intended | confidence | as-written member | corrected member |
|---|---|---|---|---|---|---|
| main.py:179-181 | a cross-reference button passes the ref (a verse key such as `"EXO.1.1"`) straight to `display_verse_from_ref`, which unpacks `ref.split('_')` into four names (main.py:51) | the ref `"EXO.1.1"`: it has no `_`, splits into one part, and the unpacking raises `ValueError` | build the token `"{bible_id}_{book}_{chapter}_{verse}"` from the ref's three dot-separated fields, as the grid button at line 171 does | high, not executed | CrossRef.CrossRefButtonRefIsRejected | CrossRef.CrossRefTokenRoundTrip |
