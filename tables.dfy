/**
 * Ordered dictionaries and the fuzzy matcher.
 *
 * The JSON tables the viewer loads (the translation directory, the book
 * abbreviation table, the cross-reference index) are Python dictionaries,
 * which keep insertion order. A dictionary is modelled as the sequence of its
 * (key, value) items in that order.
 */
module Tables {
  import opened Wrappers

  type Dict<V> = seq<(string, V)>

  /** The keys of a dictionary, in iteration order. */
  function Keys<V>(d: Dict<V>): seq<string>
  {
    if |d| == 0 then [] else [d[0].0] + Keys(d[1..])
  }

  /** `d.get(k)`: the value of the first item whose key is `k`. */
  function Get<V>(d: Dict<V>, k: string): (r: Option<V>)
    ensures r.Some? <==> k in Keys(d)
    ensures r.Some? ==> (k, r.value) in d
  {
    if |d| == 0 then None
    else if d[0].0 == k then Some(d[0].1)
    else Get(d[1..], k)
  }

  /**
   * `difflib.get_close_matches(word, possibilities, n=1)`: either no match or
   * one of the possibilities. How the match is chosen (a similarity ratio with
   * a 0.6 cutoff) is left abstract; only this guarantee is kept.
   */
  type Matcher = f: (string, seq<string>) -> Option<string>
    | forall word, possibilities :: f(word, possibilities).Some? ==> f(word, possibilities).value in possibilities
    witness (word: string, possibilities: seq<string>) => None
}
