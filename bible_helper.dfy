/**
 * Identifier resolution and input normalisation (scripts/bible_helper.py):
 * translation names and IDs, book names and abbreviations, chapter and verse
 * numbers.
 */
module BibleHelper {
  import opened Wrappers
  import opened Tables
  import opened Text

  /** An entry of the translation directory, which is keyed by the translation's full name. */
  datatype Translation = Translation(id: string, abbreviation: string, language: string, script: string)

  type BibleTable = Dict<Translation>

  /** The book abbreviation table: a book name to the `id` of its entry. */
  type AbbreviationTable = Dict<string>

  /** `[details['id'] for details in bible_data.values()]`. */
  function Ids(bibles: BibleTable): seq<string>
  {
    seq(|bibles|, i requires 0 <= i < |bibles| => bibles[i].1.id)
  }

  lemma IdOfEntryIsAnId(bibles: BibleTable, name: string)
    requires Get(bibles, name).Some?
    ensures Get(bibles, name).value.id in Ids(bibles)
  {
    var t := Get(bibles, name).value;
    var i :| 0 <= i < |bibles| && bibles[i] == (name, t);
    assert Ids(bibles)[i] == t.id;
  }

  // ---- Books.

  /** Some entry of the abbreviation table has `id` equal to `name`. */
  predicate IsBookId(abbrs: AbbreviationTable, name: string)
  {
    exists i :: 0 <= i < |abbrs| && abbrs[i].1 == name
  }

  /**
   * What `normalize_book_name` returns: the `id` of the book's own entry when
   * it is non-empty; otherwise the name itself when it is an `id` of some
   * entry; otherwise what the first lookup gave (`None`, or an empty `id`).
   */
  function BookAbbreviation(abbrs: AbbreviationTable, bookName: string): (r: Option<string>)
    ensures r.Some? ==> IsBookId(abbrs, r.value)
  {
    var direct := Get(abbrs, bookName);
    if direct.Some? && direct.value != "" then direct
    else if IsBookId(abbrs, bookName) then Some(bookName)
    else direct
  }

  /** `normalize_book_name`: a dictionary lookup, then a scan for an entry whose `id` is the name. */
  method NormalizeBookName(abbrs: AbbreviationTable, bookName: string) returns (bookAbbr: Option<string>)
    ensures Get(abbrs, bookName).Some? && Get(abbrs, bookName).value != "" ==> bookAbbr == Get(abbrs, bookName)
    ensures (Get(abbrs, bookName).None? || Get(abbrs, bookName).value == "") && IsBookId(abbrs, bookName)
        ==> bookAbbr == Some(bookName)
    ensures (Get(abbrs, bookName).None? || Get(abbrs, bookName).value == "") && !IsBookId(abbrs, bookName)
        ==> bookAbbr == Get(abbrs, bookName)
    ensures bookAbbr.Some? ==> IsBookId(abbrs, bookAbbr.value)
    ensures bookAbbr == BookAbbreviation(abbrs, bookName)
  {
    bookAbbr := Get(abbrs, bookName);
    if bookAbbr.None? || bookAbbr.value == "" {
      var i := 0;
      while i < |abbrs|
        invariant 0 <= i <= |abbrs|
        invariant forall j :: 0 <= j < i ==> abbrs[j].1 != bookName
        invariant bookAbbr == Get(abbrs, bookName)
      {
        if abbrs[i].1 == bookName {
          bookAbbr := Some(bookName);
          break;
        }
        i := i + 1;
      }
    }
  }

  // ---- Translations.

  const UnknownBible := "Invalid input. Neither a valid Bible ID nor a full name."
  const UnknownBibleId := "Invalid Bible ID provided."

  /**
   * `get_bible_id`: an exact ID is returned unchanged; a full name gives its
   * entry's ID; otherwise the matcher's closest name gives that entry's ID;
   * with no close name the `ValueError` is raised.
   */
  function GetBibleId(bibles: BibleTable, closest: Matcher, input: string): (r: Result<string, string>)
    ensures input in Ids(bibles) ==> r == Success(input)
    ensures input !in Ids(bibles) && Get(bibles, input).Some? ==> r == Success(Get(bibles, input).value.id)
    ensures input !in Ids(bibles) && Get(bibles, input).None? && closest(input, Keys(bibles)).Some?
        ==> r == Success(Get(bibles, closest(input, Keys(bibles)).value).value.id)
    ensures r.Success? ==> r.value in Ids(bibles)
    ensures r.Failure? <==> input !in Ids(bibles) && Get(bibles, input).None? && closest(input, Keys(bibles)).None?
    ensures r.Failure? ==> r.error == UnknownBible
  {
    if input in Ids(bibles) then Success(input)
    else match Get(bibles, input)
      case Some(details) =>
        IdOfEntryIsAnId(bibles, input);
        Success(details.id)
      case None =>
        match closest(input, Keys(bibles))
        case Some(name) =>
          IdOfEntryIsAnId(bibles, name);
          Success(Get(bibles, name).value.id)
        case None => Failure(UnknownBible)
  }

  /**
   * `auto_correct_bible_id`: an exact ID is returned unchanged; otherwise the
   * matcher's closest ID; with none the `ValueError` is raised.
   */
  function AutoCorrectBibleId(bibles: BibleTable, closest: Matcher, bibleId: string): (r: Result<string, string>)
    ensures bibleId in Ids(bibles) ==> r == Success(bibleId)
    ensures bibleId !in Ids(bibles) && closest(bibleId, Ids(bibles)).Some? ==> r == Success(closest(bibleId, Ids(bibles)).value)
    ensures r.Success? ==> r.value in Ids(bibles)
    ensures r.Failure? <==> bibleId !in Ids(bibles) && closest(bibleId, Ids(bibles)).None?
    ensures r.Failure? ==> r.error == UnknownBibleId
  {
    if bibleId in Ids(bibles) then Success(bibleId)
    else match closest(bibleId, Ids(bibles))
      case Some(id) => Success(id)
      case None => Failure(UnknownBibleId)
  }

  // ---- Chapter and verse numbers.

  /** The outcome of `validate_chapter_and_verse_format`: `(True, chapter)`, `(True, (chapter, verse))` or `(False, message)`. */
  datatype Validation =
    | ChapterOnly(chapter: string)
    | ChapterAndVerse(chapter: string, verse: string)
    | Invalid(message: string)

  const InvalidFormat := "Invalid chapter or verse format."

  /** Python's truth value of the `verse` argument: neither `None` nor empty. */
  predicate Truthy(verse: Option<string>)
  {
    verse.Some? && verse.value != ""
  }

  /**
   * `validate_chapter_and_verse_format`: both numbers are put in canonical
   * form by `str(int(...))`; the verse is checked and returned only when it
   * is truthy; a non-numeric value gives the format message.
   */
  function ValidateChapterAndVerse(chapter: string, verse: Option<string>): (r: Validation)
    ensures r.Invalid? <==> ParseInt(chapter).None? || (Truthy(verse) && ParseInt(verse.value).None?)
    ensures r.Invalid? ==> r.message == InvalidFormat
    ensures r.ChapterAndVerse? <==> !r.Invalid? && Truthy(verse)
    ensures !r.Invalid? ==> IsCanonicalNumeral(r.chapter) && ParseInt(r.chapter) == ParseInt(chapter)
    ensures r.ChapterAndVerse? ==> IsCanonicalNumeral(r.verse) && ParseInt(r.verse) == ParseInt(verse.value)
  {
    match ParseInt(chapter)
    case None => Invalid(InvalidFormat)
    case Some(c) =>
      NatToStringRoundTrip(c);
      NatToStringCanonical(c);
      if Truthy(verse) then
        match ParseInt(verse.value)
        case None => Invalid(InvalidFormat)
        case Some(v) =>
          NatToStringRoundTrip(v);
          NatToStringCanonical(v);
          ChapterAndVerse(NatToString(c), NatToString(v))
      else ChapterOnly(NatToString(c))
  }

  /** Validating an accepted result again gives the same result. */
  lemma ValidateIdempotent(chapter: string, verse: Option<string>)
    requires !ValidateChapterAndVerse(chapter, verse).Invalid?
    ensures var r := ValidateChapterAndVerse(chapter, verse);
      ValidateChapterAndVerse(r.chapter, if r.ChapterAndVerse? then Some(r.verse) else None) == r
  {
  }

  lemma ValidateStripsLeadingZeros()
    ensures ValidateChapterAndVerse("01", None) == ChapterOnly("1")
    ensures ValidateChapterAndVerse("007", Some("010")) == ChapterAndVerse("7", "10")
  {
    assert NumeralValue("01") == 1 by { assert "01"[..1] == "0"; assert "0"[..0] == ""; }
    assert NumeralValue("007") == 7 by { assert "007"[..2] == "00"; assert "00"[..1] == "0"; assert "0"[..0] == ""; }
    assert NumeralValue("010") == 10 by { assert "010"[..2] == "01"; assert "01"[..1] == "0"; assert "0"[..0] == ""; }
    assert NatToString(10) == NatToString(1) + [DigitChar(0)];
  }

  lemma ValidateEmptyVerseAndNonNumeral()
    ensures ValidateChapterAndVerse("3", Some("")) == ChapterOnly("3")
    ensures ValidateChapterAndVerse("x1", Some("1")) == Invalid(InvalidFormat)
  {
    assert NumeralValue("3") == 3 by { assert "3"[..0] == ""; }
    assert !IsDigit("x1"[0]);
  }
}
