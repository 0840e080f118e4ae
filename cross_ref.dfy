/**
 * The table logic of the viewer's page (main.py): the cross-reference lookup
 * for a chapter, the verse search box, the three-wide button grid, and the
 * `_`-separated verse token passed from a grid button to the verse display.
 */
module CrossRef {
  import opened Wrappers
  import opened Tables
  import opened Seqs
  import opened Text

  /** The cross-reference index: verse key `"{bookId}.{chapter}.{verse}"` to related verse keys. */
  type CrossRefIndex = Dict<seq<string>>

  function ChapterPrefix(bookId: string, chapter: string): string
  {
    bookId + "." + chapter + "."
  }

  /** `custom_search_cross_ref`: the items of the index whose key starts with `"{bookId}.{chapter}."`. */
  function SearchCrossRef(bookId: string, chapter: string, index: CrossRefIndex): (r: CrossRefIndex)
    ensures |r| <= |index|
    ensures forall i :: 0 <= i < |r| ==> r[i] in index && StartsWith(r[i].0, ChapterPrefix(bookId, chapter))
    ensures forall i :: 0 <= i < |index| && StartsWith(index[i].0, ChapterPrefix(bookId, chapter)) ==> index[i] in r
  {
    Filter(index, (e: (string, seq<string>)) => StartsWith(e.0, ChapterPrefix(bookId, chapter)))
  }

  /** Looking a key up in the chapter's result gives the index's own refs for keys with the prefix, and nothing for any other key. */
  lemma {:induction false} SearchCrossRefLookup(bookId: string, chapter: string, index: CrossRefIndex, key: string)
    ensures Get(SearchCrossRef(bookId, chapter, index), key)
         == if StartsWith(key, ChapterPrefix(bookId, chapter)) then Get(index, key) else None
  {
    if |index| > 0 {
      SearchCrossRefLookup(bookId, chapter, index[1..], key);
      var r := SearchCrossRef(bookId, chapter, index);
      var rest := SearchCrossRef(bookId, chapter, index[1..]);
      if StartsWith(index[0].0, ChapterPrefix(bookId, chapter)) {
        assert r == [index[0]] + rest;
        assert r[1..] == rest;
      } else {
        assert r == rest;
      }
    }
  }

  /** The result keeps the index's order: searching a concatenation concatenates the searches. */
  lemma SearchCrossRefOrder(bookId: string, chapter: string, a: CrossRefIndex, b: CrossRefIndex)
    ensures SearchCrossRef(bookId, chapter, a + b) == SearchCrossRef(bookId, chapter, a) + SearchCrossRef(bookId, chapter, b)
  {
    FilterConcat(a, b, (e: (string, seq<string>)) => StartsWith(e.0, ChapterPrefix(bookId, chapter)));
  }

  /** The trailing dot of the prefix keeps chapter 10 out of a search for chapter 1. */
  lemma SearchCrossRefExample()
    ensures SearchCrossRef("GEN", "1", [("GEN.1.1", ["EXO.1.1"]), ("GEN.1.2", []), ("GEN.10.1", []), ("GEN.2.1", [])])
         == [("GEN.1.1", ["EXO.1.1"]), ("GEN.1.2", [])]
  {
    var index: CrossRefIndex := [("GEN.1.1", ["EXO.1.1"]), ("GEN.1.2", []), ("GEN.10.1", []), ("GEN.2.1", [])];
    var keep := (e: (string, seq<string>)) => StartsWith(e.0, ChapterPrefix("GEN", "1"));
    assert ChapterPrefix("GEN", "1") == "GEN.1.";
    assert keep(index[0]) && keep(index[1]);
    assert !keep(index[2]) by { assert index[2].0[5] != '.'; }
    assert !keep(index[3]) by { assert index[3].0[4] != '1'; }
    assert index[1..][1..][1..][1..] == [];
  }

  /**
   * The verse search box: the keys containing `term`, ignoring case with
   * ASCII case mapping, in their original order and each at most as often
   * as in the chapter.
   */
  function FilterVerses(verses: seq<string>, term: string): (r: seq<string>)
    ensures |r| <= |verses| && multiset(r) <= multiset(verses)
    ensures forall i :: 0 <= i < |r| ==> r[i] in verses && ContainsIgnoringCase(r[i], term)
    ensures forall i :: 0 <= i < |verses| && ContainsIgnoringCase(verses[i], term) ==> verses[i] in r
  {
    FilterSubMultiset(verses, (v: string) => ContainsIgnoringCase(v, term));
    Filter(verses, (v: string) => ContainsIgnoringCase(v, term))
  }

  /** An empty search term keeps every key. */
  lemma FilterVersesEmptyTerm(verses: seq<string>)
    ensures FilterVerses(verses, "") == verses
  {
    var keep := (v: string) => ContainsIgnoringCase(v, "");
    forall v | v in verses ensures keep(v) {
      assert Lower("") == "";
      ContainsEmpty(Lower(v));
    }
    FilterKeepsAll(verses, keep);
  }

  /** The filter keeps the keys' order. */
  lemma FilterVersesOrder(a: seq<string>, b: seq<string>, term: string)
    ensures FilterVerses(a + b, term) == FilterVerses(a, term) + FilterVerses(b, term)
  {
    FilterConcat(a, b, (v: string) => ContainsIgnoringCase(v, term));
  }

  lemma LowerIdempotent(s: string)
    ensures Lower(Lower(s)) == Lower(s)
  {
  }

  /** The case of the search term does not matter, with ASCII case mapping. */
  lemma FilterVersesIgnoresTermCase(verses: seq<string>, term: string)
    ensures FilterVerses(verses, Lower(term)) == FilterVerses(verses, term)
    ensures FilterVerses(verses, Upper(term)) == FilterVerses(verses, term)
  {
    LowerIdempotent(term);
    FilterSameTest(verses, (v: string) => ContainsIgnoringCase(v, Lower(term)), (v: string) => ContainsIgnoringCase(v, term));
    assert Lower(Upper(term)) == Lower(term);
    FilterSameTest(verses, (v: string) => ContainsIgnoringCase(v, Upper(term)), (v: string) => ContainsIgnoringCase(v, term));
  }

  lemma FilterVersesExample()
    ensures FilterVerses(["GEN.1.1", "EXO.1.1"], "gen") == ["GEN.1.1"]
  {
    assert Lower("GEN.1.1") == "gen.1.1";
    assert Lower("gen") == "gen";
    assert ContainsIgnoringCase("GEN.1.1", "gen") by { assert "gen" <= Lower("GEN.1.1")[0..]; }
    assert !ContainsIgnoringCase("EXO.1.1", "gen") by {
      assert Lower("EXO.1.1") == "exo.1.1";
      forall i | 0 <= i <= 7 ensures !("gen" <= "exo.1.1"[i..]) {
        if i <= 4 { assert "exo.1.1"[i..][0] != 'g'; }
      }
    }
    var keep := (v: string) => ContainsIgnoringCase(v, "gen");
    assert ["GEN.1.1", "EXO.1.1"][1..][1..] == [];
  }

  /**
   * The grid of buttons: `for i in range(0, len(items), 3): row = items[i:i+3]`.
   * Used for the filtered verse keys and for a verse's refs.
   */
  method GridRows<T>(items: seq<T>) returns (rows: seq<seq<T>>)
    ensures |rows| == (|items| + 2) / 3
    ensures forall k :: 0 <= k < |rows| ==> rows[k] == items[3 * k .. Min(3 * k + 3, |items|)]
    ensures forall k :: 0 <= k < |rows| ==> 1 <= |rows[k]| <= 3
    ensures forall k :: 0 <= k < |rows| - 1 ==> |rows[k]| == 3
    ensures Flatten(rows) == items
  {
    rows := [];
    var i := 0;
    while i < |items|
      invariant i == 3 * |rows|
      invariant i <= |items| + 2
      invariant forall k :: 0 <= k < |rows| ==> rows[k] == items[3 * k .. Min(3 * k + 3, |items|)]
      invariant Flatten(rows) == items[..Min(i, |items|)]
    {
      var row := items[i .. Min(i + 3, |items|)];
      FlattenSnoc(rows, row);
      assert items[..Min(i + 3, |items|)] == items[..i] + row;
      rows := rows + [row];
      i := i + 3;
    }
    assert items[..|items|] == items;
  }

  /** A verse reference: translation, book, chapter and verse. */
  datatype VerseRef = VerseRef(bibleId: string, book: string, chapter: string, verse: string)

  /** The token `"{bibleId}_{book}_{chapter}_{verse}"`. */
  function RefToken(r: VerseRef): string
  {
    Join([r.bibleId, r.book, r.chapter, r.verse], '_')
  }

  /**
   * The token a grid button builds: the verse is the last dot-separated part
   * of the verse key. The verse display recovers the four fields from it
   * whenever none of them contains `_`.
   */
  function GridRefToken(bibleId: string, book: string, chapter: string, verseKey: string): (token: string)
    ensures FreeOfUnderscore(VerseRef(bibleId, book, chapter, LastPart(verseKey, '.')))
        ==> SplitRefToken(token) == Some(VerseRef(bibleId, book, chapter, LastPart(verseKey, '.')))
  {
    var r := VerseRef(bibleId, book, chapter, LastPart(verseKey, '.'));
    RefTokenRoundTrip(r);
    RefToken(r)
  }

  /** `ref_bible_id, ref_book, ref_chapter, ref_verse = ref.split('_')`; `None` is the `ValueError` of a wrong part count. */
  function SplitRefToken(token: string): (r: Option<VerseRef>)
    ensures r.Some? <==> |Split(token, '_')| == 4
  {
    var parts := Split(token, '_');
    if |parts| == 4 then Some(VerseRef(parts[0], parts[1], parts[2], parts[3])) else None
  }

  predicate FreeOfUnderscore(r: VerseRef)
  {
    '_' !in r.bibleId && '_' !in r.book && '_' !in r.chapter && '_' !in r.verse
  }

  /** A token splits back into its four fields exactly when no field contains `_`. */
  lemma RefTokenRoundTrip(r: VerseRef)
    ensures SplitRefToken(RefToken(r)) == Some(r) <==> FreeOfUnderscore(r)
  {
    var parts := [r.bibleId, r.book, r.chapter, r.verse];
    if FreeOfUnderscore(r) {
      SplitJoin(parts, '_');
    } else if SplitRefToken(RefToken(r)) == Some(r) {
      assert Split(Join(parts, '_'), '_') == parts;
      SplitJoinNeedsSeparatorFreeParts(parts, '_');
      assert false;
    }
  }

  /**
   * A cross-reference button passes one of the index's refs, a verse key
   * such as `"EXO.1.1"`, straight to the verse display, which splits it on
   * `_`: a key without `_` never splits into four fields.
   */
  lemma CrossRefButtonRefIsRejected(ref: string)
    requires '_' !in ref
    ensures SplitRefToken(ref) == None
  {
    SplitWithoutSeparator(ref, '_');
  }

  /** The token a cross-reference button evidently means: the translation and the ref's three dot-separated fields. */
  function CrossRefToken(bibleId: string, ref: string): Option<string>
  {
    var p := Split(ref, '.');
    if |p| == 3 then Some(RefToken(VerseRef(bibleId, p[0], p[1], p[2]))) else None
  }

  /** The corrected token of a ref `"{book}.{chapter}.{verse}"` splits into the translation, book, chapter and verse. */
  lemma CrossRefTokenRoundTrip(bibleId: string, book: string, chapter: string, verse: string)
    requires '.' !in book && '.' !in chapter && '.' !in verse
    requires FreeOfUnderscore(VerseRef(bibleId, book, chapter, verse))
    ensures CrossRefToken(bibleId, Join([book, chapter, verse], '.')).Some?
    ensures SplitRefToken(CrossRefToken(bibleId, Join([book, chapter, verse], '.')).value)
         == Some(VerseRef(bibleId, book, chapter, verse))
  {
    SplitJoin([book, chapter, verse], '.');
    RefTokenRoundTrip(VerseRef(bibleId, book, chapter, verse));
  }
}
