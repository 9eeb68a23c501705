/**
 * The passage filter that `get_filtered_docs` applies to the retrieved
 * documents: the nested `matches_criteria` and the list comprehension around
 * it. The three copies (in `strainer.py`, `retriever.py` and `test.py`) are
 * the same code and are modelled once.
 */
module PassageFilter {
  import opened Text
  import opened Values
  import opened Documents

  /** A value of the filter dict: a single string or a list of strings. */
  datatype FilterValue = One(value: string) | Many(values: seq<string>)

  /** The filter dict that the classifiers build. */
  type Criteria = map<string, FilterValue>

  /** `[values]` for a scalar, then `[str(val).lower() for val in values]`. */
  function AllowedValues(v: FilterValue): seq<string> {
    match v
    case One(s) => [Lower(s)]
    case Many(vs) => seq(|vs|, i requires 0 <= i < |vs| => Lower(vs[i]))
  }

  /** `str(doc.metadata.get(key, '')).lower()`: a missing key reads as the empty string. */
  function DocValue(metadata: Metadata, key: string): string {
    Lower(if key in metadata then PyStr(metadata[key]) else "")
  }

  /**
   * The test for one key. The source has a `category` branch and an
   * "other fields" branch, but both test `doc_value not in values`.
   */
  predicate AcceptsKey(criteria: Criteria, metadata: Metadata, key: string)
    requires key in criteria
  {
    DocValue(metadata, key) in AllowedValues(criteria[key])
  }

  /** `matches_criteria(doc)`: every key of the criteria accepts the document. */
  predicate Matches(criteria: Criteria, metadata: Metadata) {
    forall key :: key in criteria ==> AcceptsKey(criteria, metadata, key)
  }

  /**
   * `matches_criteria`: a loop over the criteria that returns `False` at the
   * first key whose value the document does not have, and `True` after the last.
   */
  method MatchesCriteria(criteria: Criteria, metadata: Metadata) returns (ok: bool)
    ensures ok == Matches(criteria, metadata)
  {
    var pending := criteria.Keys;
    while pending != {}
      invariant pending <= criteria.Keys
      invariant forall key :: key in criteria && key !in pending ==> AcceptsKey(criteria, metadata, key)
      decreases pending
    {
      var key :| key in pending;
      var values := AllowedValues(criteria[key]);
      var docValue := DocValue(metadata, key);
      if docValue !in values {
        return false;
      }
      pending := pending - {key};
    }
    return true;
  }

  /** `[doc for doc in retrieved_docs if matches_criteria(doc)]`. */
  function FilterDocs(criteria: Criteria, docs: seq<Document>): (r: seq<Document>)
    reads docs
  {
    if docs == [] then []
    else Kept(criteria, docs[0]) + FilterDocs(criteria, docs[1..])
  }

  /**
   * `[doc for doc in retrieved_docs if matches_criteria(doc)]`, run: one
   * `matches_criteria` call per document, in list order.
   */
  method FilterByCriteria(criteria: Criteria, docs: seq<Document>) returns (kept: seq<Document>)
    ensures kept == FilterDocs(criteria, docs)
  {
    kept := [];
    for i := 0 to |docs|
      invariant kept == FilterDocs(criteria, docs[..i])
    {
      var ok := MatchesCriteria(criteria, docs[i].metadata);
      FilterPrefixStep(criteria, docs, i);
      if ok {
        kept := kept + [docs[i]];
      }
    }
    assert docs[..|docs|] == docs;
  }

  /** Taking one more document of the prefix extends the filtered list by that document iff it matches. */
  lemma FilterPrefixStep(criteria: Criteria, docs: seq<Document>, i: nat)
    requires i < |docs|
    ensures FilterDocs(criteria, docs[..i + 1]) == FilterDocs(criteria, docs[..i]) + Kept(criteria, docs[i])
  {
    FilterAppend(criteria, docs[..i], [docs[i]]);
    assert docs[..i + 1] == docs[..i] + [docs[i]];
    assert FilterDocs(criteria, [docs[i]]) == Kept(criteria, docs[i]) + FilterDocs(criteria, []);
  }

  /** The one-document step of the comprehension. */
  function Kept(criteria: Criteria, doc: Document): seq<Document>
    reads doc
  {
    if Matches(criteria, doc.metadata) then [doc] else []
  }

  /** The subsequence of `s` at the positions where `keep` is true. */
  function Select<T>(s: seq<T>, keep: seq<bool>): seq<T>
    requires |keep| == |s|
  {
    if s == [] then [] else (if keep[0] then [s[0]] else []) + Select(s[1..], keep[1..])
  }

  /** `r` is `s` read at the increasing positions `idx`, which are exactly the positions `keep` marks. */
  ghost predicate PicksMarked<T>(s: seq<T>, keep: seq<bool>, r: seq<T>, idx: seq<int>)
    requires |keep| == |s|
  {
    |idx| == |r|
    && (forall k :: 0 <= k < |idx| ==> 0 <= idx[k] < |s| && r[k] == s[idx[k]])
    && (forall k, l :: 0 <= k < l < |idx| ==> idx[k] < idx[l])
    && (forall i :: 0 <= i < |s| ==> (i in idx <==> keep[i]))
  }

  /** Extending a selection by one element extends its result by that element iff it is marked. */
  lemma {:induction false} SelectAppend<T>(s: seq<T>, keep: seq<bool>, x: T, b: bool)
    requires |keep| == |s|
    ensures Select(s + [x], keep + [b]) == Select(s, keep) + (if b then [x] else [])
  {
    if s == [] {
      assert Select([x], [b]) == (if b then [x] else []) + Select([], []);
    } else {
      assert (s + [x])[1..] == s[1..] + [x];
      assert (keep + [b])[1..] == keep[1..] + [b];
      SelectAppend(s[1..], keep[1..], x, b);
    }
  }

  /** Taking one more element of both prefixes extends the selection by that element iff it is marked. */
  lemma SelectPrefixStep<T>(s: seq<T>, keep: seq<bool>, i: nat)
    requires |keep| == |s| && i < |s|
    ensures Select(s[..i + 1], keep[..i + 1]) == Select(s[..i], keep[..i]) + (if keep[i] then [s[i]] else [])
  {
    assert s[..i + 1] == s[..i] + [s[i]];
    assert keep[..i + 1] == keep[..i] + [keep[i]];
    SelectAppend(s[..i], keep[..i], s[i], keep[i]);
  }

  /** Every position moved one to the right, past a new first element. */
  function Shift(idx: seq<int>): (r: seq<int>)
    ensures |r| == |idx| && forall k :: 0 <= k < |idx| ==> r[k] == idx[k] + 1
  {
    seq(|idx|, k requires 0 <= k < |idx| => idx[k] + 1)
  }

  lemma ShiftMarks<T>(s: seq<T>, keep: seq<bool>, r: seq<T>, idx: seq<int>)
    requires |keep| == |s| > 0 && PicksMarked(s[1..], keep[1..], r, idx)
    ensures forall i :: 1 <= i < |s| ==> (i in Shift(idx) <==> keep[i])
    ensures forall k :: 0 <= k < |idx| ==> 1 <= Shift(idx)[k] < |s| && r[k] == s[Shift(idx)[k]]
    ensures 0 !in Shift(idx)
  {
    var sh := Shift(idx);
    forall i | 1 <= i < |s|
      ensures i in sh <==> keep[i]
    {
      assert keep[i] == keep[1..][i - 1];
      if i - 1 in idx {
        var k :| 0 <= k < |idx| && idx[k] == i - 1;
        assert sh[k] == i;
      }
    }
  }

  lemma DropHead<T>(s: seq<T>, keep: seq<bool>, r: seq<T>, idx: seq<int>)
    requires |keep| == |s| > 0 && !keep[0] && PicksMarked(s[1..], keep[1..], r, idx)
    ensures PicksMarked(s, keep, r, Shift(idx))
  {
    ShiftMarks(s, keep, r, idx);
  }

  lemma KeepHead<T>(s: seq<T>, keep: seq<bool>, r: seq<T>, idx: seq<int>)
    requires |keep| == |s| > 0 && keep[0] && PicksMarked(s[1..], keep[1..], r, idx)
    ensures PicksMarked(s, keep, [s[0]] + r, [0] + Shift(idx))
  {
    ShiftMarks(s, keep, r, idx);
    var all := [0] + Shift(idx);
    assert forall k :: 0 < k < |all| ==> all[k] == Shift(idx)[k - 1];
    forall i | 0 <= i < |s|
      ensures i in all <==> keep[i]
    {
      if i > 0 {
        assert i in all <==> i in Shift(idx);
      }
    }
  }

  lemma {:induction false} SelectPicksMarked<T>(s: seq<T>, keep: seq<bool>)
    requires |keep| == |s|
    ensures exists idx :: PicksMarked(s, keep, Select(s, keep), idx)
  {
    if s == [] {
      assert Select(s, keep) == [];
      assert PicksMarked(s, keep, Select(s, keep), []);
    } else {
      SelectPicksMarked(s[1..], keep[1..]);
      var r := Select(s[1..], keep[1..]);
      var idx :| PicksMarked(s[1..], keep[1..], r, idx);
      if keep[0] {
        KeepHead(s, keep, r, idx);
        assert Select(s, keep) == [s[0]] + r;
      } else {
        DropHead(s, keep, r, idx);
        assert Select(s, keep) == r;
      }
    }
  }

  /** Which documents match, position by position. */
  ghost function MatchMask(criteria: Criteria, docs: seq<Document>): (m: seq<bool>)
    reads docs
    ensures |m| == |docs|
  {
    seq(|docs|, i reads docs requires 0 <= i < |docs| => Matches(criteria, docs[i].metadata))
  }

  lemma {:induction false} FilterIsSelect(criteria: Criteria, docs: seq<Document>)
    ensures FilterDocs(criteria, docs) == Select(docs, MatchMask(criteria, docs))
  {
    if docs != [] {
      var m := MatchMask(criteria, docs);
      assert m[1..] == MatchMask(criteria, docs[1..]);
      FilterIsSelect(criteria, docs[1..]);
      assert Kept(criteria, docs[0]) == if m[0] then [docs[0]] else [];
      assert Select(docs, m) == (if m[0] then [docs[0]] else []) + Select(docs[1..], m[1..]);
    }
  }

  /**
   * The filter keeps, in their original order, exactly the documents that
   * match: the result is `docs` read at increasing positions `idx`, and a
   * position is in `idx` iff the document there matches.
   */
  lemma FilterIsOrderedSelection(criteria: Criteria, docs: seq<Document>)
    ensures exists idx :: PicksMarked(docs, MatchMask(criteria, docs), FilterDocs(criteria, docs), idx)
    ensures forall i :: 0 <= i < |docs| ==> MatchMask(criteria, docs)[i] == Matches(criteria, docs[i].metadata)
  {
    FilterIsSelect(criteria, docs);
    SelectPicksMarked(docs, MatchMask(criteria, docs));
  }

  /** An empty filter dict keeps every document. */
  lemma {:induction false} EmptyCriteriaKeepsAll(docs: seq<Document>)
    ensures FilterDocs(map[], docs) == docs
  {
    if docs != [] {
      EmptyCriteriaKeepsAll(docs[1..]);
    }
  }

  /** `criteria` agrees with `more` on every key of `criteria`. */
  predicate SubCriteria(criteria: Criteria, more: Criteria) {
    forall key :: key in criteria ==> key in more && more[key] == criteria[key]
  }

  /**
   * Adding keys can only shrink the result: filtering by the larger dict is
   * the same as first filtering by the smaller one. Taking the two dicts equal
   * gives idempotence.
   */
  lemma {:induction false} MoreKeysFilterWithin(criteria: Criteria, more: Criteria, docs: seq<Document>)
    requires SubCriteria(criteria, more)
    ensures FilterDocs(more, FilterDocs(criteria, docs)) == FilterDocs(more, docs)
  {
    if docs != [] {
      MoreKeysFilterWithin(criteria, more, docs[1..]);
      FilterAppend(more, Kept(criteria, docs[0]), FilterDocs(criteria, docs[1..]));
      if !Matches(criteria, docs[0].metadata) {
        var key :| key in criteria && !AcceptsKey(criteria, docs[0].metadata, key);
        assert !AcceptsKey(more, docs[0].metadata, key);
      }
    }
  }

  lemma {:induction false} FilterAppend(criteria: Criteria, a: seq<Document>, b: seq<Document>)
    ensures FilterDocs(criteria, a + b) == FilterDocs(criteria, a) + FilterDocs(criteria, b)
  {
    if a != [] {
      var ab := a + b;
      assert ab[0] == a[0];
      assert ab[1..] == a[1..] + b;
      FilterAppend(criteria, a[1..], b);
      assert FilterDocs(criteria, ab) == Kept(criteria, a[0]) + FilterDocs(criteria, ab[1..]);
      assert FilterDocs(criteria, a) == Kept(criteria, a[0]) + FilterDocs(criteria, a[1..]);
    } else {
      assert a + b == b;
    }
  }

  /** Filtering twice with the same criteria is filtering once. */
  lemma FilterIsIdempotent(criteria: Criteria, docs: seq<Document>)
    ensures FilterDocs(criteria, FilterDocs(criteria, docs)) == FilterDocs(criteria, docs)
  {
    MoreKeysFilterWithin(criteria, criteria, docs);
  }

  /** A document matches iff it matches each key's one-key filter on its own (conjunction). */
  lemma MatchesIsConjunction(criteria: Criteria, metadata: Metadata)
    ensures Matches(criteria, metadata) <==>
              forall key :: key in criteria ==> Matches(map[key := criteria[key]], metadata)
  {
    if forall key :: key in criteria ==> Matches(map[key := criteria[key]], metadata) {
      forall key | key in criteria
        ensures AcceptsKey(criteria, metadata, key)
      {
        assert AcceptsKey(map[key := criteria[key]], metadata, key);
      }
    }
  }

  /**
   * A document without a filtered key is compared as `''`: it is kept only if
   * the empty string is among that key's allowed values.
   */
  lemma MissingKeyReadsEmpty(criteria: Criteria, metadata: Metadata, key: string)
    requires key in criteria && key !in metadata
    ensures Matches(criteria, metadata) ==> "" in AllowedValues(criteria[key])
  {
    if Matches(criteria, metadata) {
      assert AcceptsKey(criteria, metadata, key);
      assert DocValue(metadata, key) == "";
    }
  }
}
