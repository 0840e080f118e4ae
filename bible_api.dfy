/**
 * The lookup and validation front-ends of the API client
 * (scripts/bible_api_util.py), up to the HTTP request each one issues.
 */
module BibleApi {
  import opened Wrappers
  import opened Tables
  import opened Text
  import opened BibleHelper

  const BaseUrl := "https://api.scripture.api.bible/v1"

  /**
   * What a front-end does with its arguments: answer at once, issue a
   * request to `url` with query `params` and answer with its response, or
   * raise an exception.
   */
  datatype Call<T> =
    | Reply(data: T)
    | Fetch(url: string, params: seq<(string, string)>)
    | Raises(error: string)

  const InvalidBook := "Invalid book name provided."

  // ---- get_bible_id_and_name

  datatype IdName = IdName(id: string, name: string)

  const InvalidSearchTerm := IdName("invalid_input", "Invalid search term provided.")

  /** The name, abbreviation, language or script of a directory entry contains `term`, ignoring case. */
  predicate Matches(entry: (string, Translation), term: string)
  {
    ContainsIgnoringCase(entry.0, term) || ContainsIgnoringCase(entry.1.abbreviation, term)
    || ContainsIgnoringCase(entry.1.language, term) || ContainsIgnoringCase(entry.1.script, term)
  }

  /** The position of the first directory entry that matches `term`. */
  function FirstMatch(bibles: BibleTable, term: string): (r: Option<nat>)
    ensures r.Some? ==> r.value < |bibles| && Matches(bibles[r.value], term)
    ensures r.Some? ==> forall j :: 0 <= j < r.value ==> !Matches(bibles[j], term)
    ensures r.None? <==> forall j :: 0 <= j < |bibles| ==> !Matches(bibles[j], term)
  {
    if |bibles| == 0 then None
    else if Matches(bibles[0], term) then Some(0)
    else match FirstMatch(bibles[1..], term)
      case None =>
        assert forall j :: 1 <= j < |bibles| ==> bibles[j] == bibles[1..][j - 1];
        None
      case Some(i) => Some(i + 1)
  }

  /**
   * `get_bible_id_and_name` up to its request: a missing or blank term is
   * rejected; otherwise the first entry matching the stripped term answers;
   * only when none matches is the directory searched remotely.
   */
  function GetBibleIdAndName(bibles: BibleTable, term: Option<string>): (r: Call<IdName>)
    ensures term.None? || AllSpace(term.value) ==> r == Reply(InvalidSearchTerm)
    ensures term.Some? && !AllSpace(term.value) ==>
      (r.Fetch? <==> forall j :: 0 <= j < |bibles| ==> !Matches(bibles[j], Strip(term.value)))
    ensures r.Fetch? ==> r.url == BaseUrl + "/bibles?query=" + Strip(term.value) && r.params == []
    ensures term.Some? && !AllSpace(term.value) && r.Reply? ==>
      exists i :: 0 <= i < |bibles| && Matches(bibles[i], Strip(term.value))
        && (forall j :: 0 <= j < i ==> !Matches(bibles[j], Strip(term.value)))
        && r.data == IdName(bibles[i].1.id, bibles[i].0)
    ensures !r.Raises?
  {
    if term.None? then Reply(InvalidSearchTerm)
    else
      StripEmptyIffAllSpace(term.value);
      var t := Strip(term.value);
      if t == "" then Reply(InvalidSearchTerm)
      else match FirstMatch(bibles, t)
        case Some(i) => Reply(IdName(bibles[i].1.id, bibles[i].0))
        case None => Fetch(BaseUrl + "/bibles?query=" + t, [])
  }

  // ---- get_book_id

  const Suggestion := "Did you mean: "

  /**
   * `get_book_id`: the entry's non-empty `id`; otherwise a suggestion of the
   * closest book name of the table; otherwise the invalid-book message.
   */
  function GetBookId(abbrs: AbbreviationTable, closest: Matcher, bookName: string): (r: string)
    ensures Get(abbrs, bookName).Some? && Get(abbrs, bookName).value != "" ==> r == Get(abbrs, bookName).value
    ensures (Get(abbrs, bookName).None? || Get(abbrs, bookName).value == "") ==>
      (closest(bookName, Keys(abbrs)).Some? ==> r == Suggestion + closest(bookName, Keys(abbrs)).value)
      && (closest(bookName, Keys(abbrs)).None? ==> r == InvalidBook)
    ensures r == InvalidBook || (exists i :: 0 <= i < |abbrs| && r == abbrs[i].1)
      || (exists k :: k in Keys(abbrs) && r == Suggestion + k)
  {
    var bookId := Get(abbrs, bookName);
    if bookId.Some? && bookId.value != "" then bookId.value
    else match closest(bookName, Keys(abbrs))
      case Some(s) => Suggestion + s
      case None => InvalidBook
  }

  // ---- search_bible_by_language, search_bible_by_script

  /** `(name, id)` of every entry whose `field` contains `term` ignoring case, in directory order. */
  function SearchByField(bibles: BibleTable, field: Translation -> string, term: string): seq<(string, string)>
  {
    if |bibles| == 0 then []
    else
      var rest := SearchByField(bibles[1..], field, term);
      if ContainsIgnoringCase(field(bibles[0].1), term) then [(bibles[0].0, bibles[0].1.id)] + rest else rest
  }

  /** `p` is the `(name, id)` pair of an entry whose `field` contains `term` ignoring case. */
  predicate PairOfMatch(bibles: BibleTable, field: Translation -> string, term: string, p: (string, string))
  {
    exists j :: 0 <= j < |bibles| && p == (bibles[j].0, bibles[j].1.id) && ContainsIgnoringCase(field(bibles[j].1), term)
  }

  /** The search returns exactly the pairs of the entries whose field matches. */
  lemma {:induction false} SearchByFieldMembers(bibles: BibleTable, field: Translation -> string, term: string)
    ensures forall p :: p in SearchByField(bibles, field, term) ==> PairOfMatch(bibles, field, term, p)
    ensures forall j :: 0 <= j < |bibles| && ContainsIgnoringCase(field(bibles[j].1), term) ==>
      (bibles[j].0, bibles[j].1.id) in SearchByField(bibles, field, term)
  {
    if |bibles| == 0 {
      assert SearchByField(bibles, field, term) == [];
    } else {
      var r := SearchByField(bibles, field, term);
      var rest := SearchByField(bibles[1..], field, term);
      SearchByFieldMembers(bibles[1..], field, term);
      var first := (bibles[0].0, bibles[0].1.id);
      assert r == [first] + rest || r == rest;
      forall p | p in r ensures PairOfMatch(bibles, field, term, p) {
        if p in rest {
          assert PairOfMatch(bibles[1..], field, term, p);
          var j :| 0 <= j < |bibles[1..]| && p == (bibles[1..][j].0, bibles[1..][j].1.id)
            && ContainsIgnoringCase(field(bibles[1..][j].1), term);
          assert bibles[1..][j] == bibles[j + 1];
        } else {
          assert p == first && ContainsIgnoringCase(field(bibles[0].1), term);
        }
      }
      forall j | 0 <= j < |bibles| && ContainsIgnoringCase(field(bibles[j].1), term)
        ensures (bibles[j].0, bibles[j].1.id) in r
      {
        if j > 0 {
          assert bibles[j] == bibles[1..][j - 1];
          assert (bibles[j].0, bibles[j].1.id) in rest;
        }
      }
    }
  }

  /** The search keeps directory order: it works entry by entry. */
  lemma {:induction false} SearchByFieldOrder(a: BibleTable, b: BibleTable, field: Translation -> string, term: string)
    ensures SearchByField(a + b, field, term) == SearchByField(a, field, term) + SearchByField(b, field, term)
  {
    if |a| == 0 {
      assert a + b == b;
    } else {
      assert (a + b)[1..] == a[1..] + b;
      SearchByFieldOrder(a[1..], b, field, term);
    }
  }

  lemma SearchByFieldOne(e: (string, Translation), field: Translation -> string, term: string)
    ensures SearchByField([e], field, term) == if ContainsIgnoringCase(field(e.1), term) then [(e.0, e.1.id)] else []
  {
    assert [e][1..] == [];
  }

  function SearchBibleByLanguage(bibles: BibleTable, language: string): seq<(string, string)>
  {
    SearchByField(bibles, (t: Translation) => t.language, language)
  }

  /** The `(name, id)` pairs of exactly the entries whose language contains the term, ignoring case. */
  lemma SearchBibleByLanguageMembers(bibles: BibleTable, language: string)
    ensures forall p :: p in SearchBibleByLanguage(bibles, language) ==>
      exists j :: 0 <= j < |bibles| && p == (bibles[j].0, bibles[j].1.id) && ContainsIgnoringCase(bibles[j].1.language, language)
    ensures forall j :: 0 <= j < |bibles| && ContainsIgnoringCase(bibles[j].1.language, language) ==>
      (bibles[j].0, bibles[j].1.id) in SearchBibleByLanguage(bibles, language)
  {
    var field := (t: Translation) => t.language;
    SearchByFieldMembers(bibles, field, language);
    forall p | p in SearchBibleByLanguage(bibles, language)
      ensures exists j :: 0 <= j < |bibles| && p == (bibles[j].0, bibles[j].1.id) && ContainsIgnoringCase(bibles[j].1.language, language)
    {
      var j :| 0 <= j < |bibles| && p == (bibles[j].0, bibles[j].1.id) && ContainsIgnoringCase(field(bibles[j].1), language);
    }
  }

  function SearchBibleByScript(bibles: BibleTable, script: string): seq<(string, string)>
  {
    SearchByField(bibles, (t: Translation) => t.script, script)
  }

  /** The `(name, id)` pairs of exactly the entries whose script contains the term, ignoring case. */
  lemma SearchBibleByScriptMembers(bibles: BibleTable, script: string)
    ensures forall p :: p in SearchBibleByScript(bibles, script) ==>
      exists j :: 0 <= j < |bibles| && p == (bibles[j].0, bibles[j].1.id) && ContainsIgnoringCase(bibles[j].1.script, script)
    ensures forall j :: 0 <= j < |bibles| && ContainsIgnoringCase(bibles[j].1.script, script) ==>
      (bibles[j].0, bibles[j].1.id) in SearchBibleByScript(bibles, script)
  {
    var field := (t: Translation) => t.script;
    SearchByFieldMembers(bibles, field, script);
    forall p | p in SearchBibleByScript(bibles, script)
      ensures exists j :: 0 <= j < |bibles| && p == (bibles[j].0, bibles[j].1.id) && ContainsIgnoringCase(bibles[j].1.script, script)
    {
      var j :| 0 <= j < |bibles| && p == (bibles[j].0, bibles[j].1.id) && ContainsIgnoringCase(field(bibles[j].1), script);
    }
  }

  // ---- Identifier strings

  function ChapterId(book: string, chapter: string): (id: string)
    ensures id == book + "." + chapter
  {
    assert [book, chapter][1..] == [chapter];
    assert Join([chapter], '.') == chapter;
    Join([book, chapter], '.')
  }

  function VerseId(book: string, chapter: string, verse: string): (id: string)
    ensures id == book + "." + chapter + "." + verse
  {
    assert [book, chapter, verse][1..] == [chapter, verse];
    assert Join([chapter, verse], '.') == ChapterId(chapter, verse);
    Join([book, chapter, verse], '.')
  }

  /** An identifier splits back into its parts when no part holds a dot. */
  lemma VerseIdSplits(book: string, chapter: string, verse: string)
    requires '.' !in book && '.' !in chapter && '.' !in verse
    ensures Split(VerseId(book, chapter, verse), '.') == [book, chapter, verse]
  {
    SplitJoin([book, chapter, verse], '.');
  }

  lemma ChapterIdSplits(book: string, chapter: string)
    requires '.' !in book && '.' !in chapter
    ensures Split(ChapterId(book, chapter), '.') == [book, chapter]
  {
    SplitJoin([book, chapter], '.');
  }

  lemma NumeralHasNoDot(s: string)
    requires IsNumeral(s)
    ensures '.' !in s
  {
  }

  // ---- get_specific_verse_in_bible

  function BibleUrl(bibleId: string): string
  {
    BaseUrl + "/bibles/" + bibleId
  }

  /**
   * `get_specific_verse_in_bible` up to its request. The Bible is resolved,
   * then the book, then chapter and verse are validated; the verse is fetched
   * by `{abbr}.{chapter}.{verse}` from the normalised values. With a falsy
   * verse the validated chapter string itself is unpacked into two values.
   */
  function GetSpecificVerseInBible(bibles: BibleTable, abbrs: AbbreviationTable, closest: Matcher,
                                   bibleId: string, bookName: string, chapter: string, verse: Option<string>): (r: Call<string>)
    ensures GetBibleId(bibles, closest, bibleId).Failure? ==> r == Reply(GetBibleId(bibles, closest, bibleId).error)
    ensures GetBibleId(bibles, closest, bibleId).Success? && !Truthy(BookAbbreviation(abbrs, bookName)) ==> r == Reply(InvalidBook)
    ensures (GetBibleId(bibles, closest, bibleId).Success? && Truthy(BookAbbreviation(abbrs, bookName))
             && ValidateChapterAndVerse(chapter, verse).Invalid?) ==> r == Reply(InvalidFormat)
    ensures r.Fetch? ==>
      (GetBibleId(bibles, closest, bibleId).Success? && Truthy(BookAbbreviation(abbrs, bookName))
       && !ValidateChapterAndVerse(chapter, verse).Invalid? && r.params == [])
    ensures r.Fetch? && Truthy(verse) ==>
      var v := ValidateChapterAndVerse(chapter, verse);
      r.url == BibleUrl(GetBibleId(bibles, closest, bibleId).value) + "/verses/"
        + VerseId(BookAbbreviation(abbrs, bookName).value, v.chapter, v.verse)
    ensures r.Raises? ==> !Truthy(verse) && |ValidateChapterAndVerse(chapter, verse).chapter| != 2
    ensures (GetBibleId(bibles, closest, bibleId).Success? && Truthy(BookAbbreviation(abbrs, bookName))
             && ValidateChapterAndVerse(chapter, verse).ChapterAndVerse?) ==> r.Fetch?
    ensures (GetBibleId(bibles, closest, bibleId).Success? && Truthy(BookAbbreviation(abbrs, bookName))
             && ValidateChapterAndVerse(chapter, verse).ChapterOnly?) ==>
      var c := ValidateChapterAndVerse(chapter, verse).chapter;
      (r.Raises? <==> |c| != 2)
      && (|c| == 2 ==> r == Fetch(BibleUrl(GetBibleId(bibles, closest, bibleId).value) + "/verses/"
                                  + VerseId(BookAbbreviation(abbrs, bookName).value, [c[0]], [c[1]]), []))
  {
    match GetBibleId(bibles, closest, bibleId)
    case Failure(e) => Reply(e)
    case Success(id) =>
      var abbr := BookAbbreviation(abbrs, bookName);
      if !Truthy(abbr) then Reply(InvalidBook)
      else match ValidateChapterAndVerse(chapter, verse)
        case Invalid(message) => Reply(message)
        case ChapterAndVerse(c, v) => Fetch(BibleUrl(id) + "/verses/" + VerseId(abbr.value, c, v), [])
        case ChapterOnly(c) =>
          if |c| == 2 then Fetch(BibleUrl(id) + "/verses/" + VerseId(abbr.value, [c[0]], [c[1]]), [])
          else Raises("ValueError")
  }

  /**
   * The verse identifier requested holds the book's abbreviation and the
   * canonical chapter and verse numbers, with the values of the arguments.
   */
  lemma SpecificVerseIdParts(bibles: BibleTable, abbrs: AbbreviationTable, closest: Matcher,
                             bibleId: string, bookName: string, chapter: string, verse: string)
    requires GetSpecificVerseInBible(bibles, abbrs, closest, bibleId, bookName, chapter, Some(verse)).Fetch?
    requires verse != ""
    requires '.' !in BookAbbreviation(abbrs, bookName).value
    ensures var id := GetSpecificVerseInBible(bibles, abbrs, closest, bibleId, bookName, chapter, Some(verse)).url[|BibleUrl(GetBibleId(bibles, closest, bibleId).value) + "/verses/"|..];
      var parts := Split(id, '.');
      |parts| == 3 && parts[0] == BookAbbreviation(abbrs, bookName).value
      && IsCanonicalNumeral(parts[1]) && ParseInt(parts[1]) == ParseInt(chapter)
      && IsCanonicalNumeral(parts[2]) && ParseInt(parts[2]) == ParseInt(verse)
  {
    var v := ValidateChapterAndVerse(chapter, Some(verse));
    var prefix := BibleUrl(GetBibleId(bibles, closest, bibleId).value) + "/verses/";
    var id := VerseId(BookAbbreviation(abbrs, bookName).value, v.chapter, v.verse);
    assert (prefix + id)[|prefix|..] == id;
    NumeralHasNoDot(v.chapter);
    NumeralHasNoDot(v.verse);
    VerseIdSplits(BookAbbreviation(abbrs, bookName).value, v.chapter, v.verse);
  }

  /** With an empty verse a two-digit chapter is read as chapter and verse: "12" requests verse 1:2. */
  lemma EmptyVerseUnpacksChapter(bibles: BibleTable, abbrs: AbbreviationTable, closest: Matcher,
                                 bibleId: string, bookName: string)
    requires GetBibleId(bibles, closest, bibleId).Success?
    requires Truthy(BookAbbreviation(abbrs, bookName))
    ensures GetSpecificVerseInBible(bibles, abbrs, closest, bibleId, bookName, "12", Some(""))
      == Fetch(BibleUrl(GetBibleId(bibles, closest, bibleId).value) + "/verses/" + VerseId(BookAbbreviation(abbrs, bookName).value, "1", "2"), [])
    ensures GetSpecificVerseInBible(bibles, abbrs, closest, bibleId, bookName, "3", None) == Raises("ValueError")
  {
    assert NumeralValue("12") == 12 by { assert "12"[..1] == "1"; assert "1"[..0] == ""; }
    assert NatToString(12) == "12" by { assert NatToString(12) == NatToString(1) + [DigitChar(2)]; }
    assert NumeralValue("3") == 3 by { assert "3"[..0] == ""; }
  }

  // ---- get_full_chapter_text

  /** `get_full_chapter_text` up to its request for chapter `{book}.{chapter_number}`. */
  function GetFullChapterText(bibles: BibleTable, closest: Matcher, bibleId: string, book: string, chapterNumber: string): (r: Call<string>)
    ensures GetBibleId(bibles, closest, bibleId).Failure? ==> r == Reply(GetBibleId(bibles, closest, bibleId).error)
    ensures GetBibleId(bibles, closest, bibleId).Success? ==>
      r == Fetch(BibleUrl(GetBibleId(bibles, closest, bibleId).value) + "/chapters/" + book + "." + chapterNumber, [])
    ensures r.Fetch? ==> GetBibleId(bibles, closest, bibleId).value in Ids(bibles)
  {
    match GetBibleId(bibles, closest, bibleId)
    case Failure(e) => Reply(e)
    case Success(id) =>
      var prefix := BibleUrl(id) + "/chapters/";
      assert prefix + ChapterId(book, chapterNumber) == prefix + book + "." + chapterNumber;
      Fetch(prefix + ChapterId(book, chapterNumber), [])
  }

  // ---- get_list_of_verses_in_chapter_and_verse_id

  /** `get_list_of_verses_in_chapter_and_verse_id` up to its request; the chapter is validated with verse "1". */
  function GetListOfVersesInChapter(bibles: BibleTable, closest: Matcher, bibleId: string, chapterId: string): (r: Call<string>)
    ensures GetBibleId(bibles, closest, bibleId).Failure? ==> r == Reply(GetBibleId(bibles, closest, bibleId).error)
    ensures GetBibleId(bibles, closest, bibleId).Success? && ParseInt(chapterId).None? ==> r == Reply(InvalidFormat)
    ensures GetBibleId(bibles, closest, bibleId).Success? && ParseInt(chapterId).Some? ==>
      r == Fetch(BibleUrl(GetBibleId(bibles, closest, bibleId).value) + "/chapters/" + NatToString(ParseInt(chapterId).value) + "/verses", [])
  {
    match GetBibleId(bibles, closest, bibleId)
    case Failure(e) => Reply(e)
    case Success(id) =>
      match ValidateChapterAndVerse(chapterId, Some("1"))
      case ChapterAndVerse(c, _) => Fetch(BibleUrl(id) + "/chapters/" + c + "/verses", [])
      case Invalid(message) => Reply(message)
      case ChapterOnly(c) => assert false; Reply(c)
  }

  /** An item of the verse list the API returns. */
  datatype VerseItem = VerseItem(bookId: string, chapter: string, verse: string)

  /** The response rewritten as `{bookId}.{chapter}.{verse}` per item, in order. */
  function VerseIds(items: seq<VerseItem>): seq<string>
  {
    seq(|items|, i requires 0 <= i < |items| => VerseId(items[i].bookId, items[i].chapter, items[i].verse))
  }

  /** One identifier per item, in order, each splitting back into the item's fields. */
  lemma VerseIdsSplit(items: seq<VerseItem>)
    ensures |VerseIds(items)| == |items|
    ensures forall i :: 0 <= i < |items| && '.' !in items[i].bookId && '.' !in items[i].chapter && '.' !in items[i].verse ==>
      Split(VerseIds(items)[i], '.') == [items[i].bookId, items[i].chapter, items[i].verse]
  {
    forall i | 0 <= i < |items| && '.' !in items[i].bookId && '.' !in items[i].chapter && '.' !in items[i].verse
      ensures Split(VerseIds(items)[i], '.') == [items[i].bookId, items[i].chapter, items[i].verse]
    {
      VerseIdSplits(items[i].bookId, items[i].chapter, items[i].verse);
    }
  }

  // ---- search_passage

  const InvalidQuery := "Invalid search query provided."

  /**
   * `search_passage` up to its request: a missing or blank query is rejected
   * before the Bible ID is corrected; the query is sent stripped.
   */
  function SearchPassage(bibles: BibleTable, closest: Matcher, bibleId: string, query: Option<string>, limit: int := 10, offset: int := 0): (r: Call<string>)
    ensures query.None? || AllSpace(query.value) ==> r == Reply(InvalidQuery)
    ensures query.Some? && !AllSpace(query.value) && AutoCorrectBibleId(bibles, closest, bibleId).Failure?
      ==> r == Reply(UnknownBibleId)
    ensures r.Fetch? ==>
      (query.Some? && !AllSpace(query.value) && AutoCorrectBibleId(bibles, closest, bibleId).Success?
       && r.url == BibleUrl(AutoCorrectBibleId(bibles, closest, bibleId).value) + "/search"
       && r.params == [("query", Strip(query.value)), ("limit", IntToString(limit)), ("offset", IntToString(offset))])
    ensures r.Fetch? ==> AutoCorrectBibleId(bibles, closest, bibleId).value in Ids(bibles) && Strip(query.value) != ""
    ensures query.Some? && !AllSpace(query.value) && AutoCorrectBibleId(bibles, closest, bibleId).Success? ==> r.Fetch?
    ensures !r.Raises?
  {
    if query.None? then Reply(InvalidQuery)
    else
      StripEmptyIffAllSpace(query.value);
      if Strip(query.value) == "" then Reply(InvalidQuery)
      else match AutoCorrectBibleId(bibles, closest, bibleId)
        case Failure(e) => Reply(e)
        case Success(id) =>
          Fetch(BibleUrl(id) + "/search", [("query", Strip(query.value)), ("limit", IntToString(limit)), ("offset", IntToString(offset))])
  }
}
