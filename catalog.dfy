/**
 * The hero, item and ability name catalogs and the substring search over
 * them. `load_set_from_csv` reads each catalog from a CSV file into a Python
 * set of stripped, lower-cased names; here the catalogs are parameters, and the
 * set's iteration order is the order of the sequence.
 */
module Catalog {
  import opened Text
  import opened Wrappers

  datatype Catalogs = Catalogs(heroes: seq<string>, items: seq<string>, abilities: seq<string>)

  /** `names[k]` occurs in `text` and no earlier name does. */
  predicate IsFirstMatch(names: seq<string>, text: string, k: int) {
    0 <= k < |names| && Contains(text, names[k])
    && forall j :: 0 <= j < k ==> !Contains(text, names[j])
  }

  /**
   * `next((n for n in names if n in text), None)`: the first name in iteration
   * order that is a substring of `text`. There are no word boundaries, so a
   * short name matches inside a longer word.
   */
  function FirstMatch(names: seq<string>, text: string): (r: Option<string>)
    ensures r.None? <==> forall k :: 0 <= k < |names| ==> !Contains(text, names[k])
    ensures r.Some? ==> exists k :: IsFirstMatch(names, text, k) && names[k] == r.value
  {
    if names == [] then None
    else if Contains(text, names[0]) then
      assert IsFirstMatch(names, text, 0);
      Some(names[0])
    else
      var r := FirstMatch(names[1..], text);
      assert forall k :: 0 < k < |names| ==> names[k] == names[1..][k - 1];
      assert r.Some? ==> exists k :: IsFirstMatch(names[1..], text, k) && names[1..][k] == r.value;
      assert forall k :: IsFirstMatch(names[1..], text, k) ==> IsFirstMatch(names, text, k + 1);
      r
  }

  /** The first name that occurs is the one `FirstMatch` returns (names may repeat). */
  lemma {:induction false} FirstMatchIsFirst(names: seq<string>, text: string, k: int)
    requires IsFirstMatch(names, text, k)
    ensures FirstMatch(names, text) == Some(names[k])
  {
    if k > 0 {
      assert IsFirstMatch(names[1..], text, k - 1);
      FirstMatchIsFirst(names[1..], text, k - 1);
    }
  }

  /** `any(n in text for n in names)`. */
  predicate AnyMatch(names: seq<string>, text: string) {
    FirstMatch(names, text).Some?
  }

  /**
   * Every string contains the empty string, and the empty string contains no
   * other: so a catalog that matches nothing in a query matches nothing in the
   * empty previous query either.
   */
  lemma {:induction false} NoMatchInEmpty(names: seq<string>, text: string)
    requires FirstMatch(names, text).None?
    ensures FirstMatch(names, "").None?
  {
    assert OccursAt(text, "", 0);
    forall k | 0 <= k < |names|
      ensures !Contains("", names[k])
    {
      assert !Contains(text, names[k]);
    }
  }
}
