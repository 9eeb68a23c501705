/**
 * `SanitizeDocuments.sanitize` of `storer.py`: `None` metadata values become
 * `"N/A"`, every passage gets a patch/category header, passages with a line
 * break tag are dropped, and the survivors lose their brackets, their
 * `indent-level` words and their outer whitespace.
 */
module Sanitizer {
  import opened Text
  import opened Values
  import opened Documents
  import opened PassageFilter

  /** `{key: (value if value is not None else "N/A") for key, value in metadata.items()}`. */
  function NoneToNA(metadata: Metadata): Metadata {
    map k | k in metadata :: if metadata[k] == Null then Str("N/A") else metadata[k]
  }

  /** `str(metadata.get(key, "N/A"))` as an f-string field formats it. */
  function GetOrNA(metadata: Metadata, key: string): string {
    if key in metadata then PyStr(metadata[key]) else "N/A"
  }

  const HeaderStart: string := "Patch-Version: "

  /** The header put in front of every passage (with the two spaces before `Patch-Timestamp`). */
  function Header(metadata: Metadata): string {
    HeaderStart + GetOrNA(metadata, "patch_version") + ". Category: " + GetOrNA(metadata, "category")
    + ".  Patch-Timestamp: " + GetOrNA(metadata, "patch_timestamp") + ". "
  }

  /** A character of the class `[\[\]<>]`. */
  predicate IsBracket(c: char) {
    c == '[' || c == ']' || c == '<' || c == '>'
  }

  /** `re.sub(r'[\[\]<>]', '', s)`. */
  function RemoveBrackets(s: string): string {
    if s == [] then [] else (if IsBracket(s[0]) then [] else [s[0]]) + RemoveBrackets(s[1..])
  }

  /** What `re.sub` leaves has no bracket, and nothing that was not there before. */
  lemma {:induction false} RemoveBracketsRemovesAll(s: string)
    ensures forall c :: c in RemoveBrackets(s) ==> c in s && !IsBracket(c)
  {
    if s != [] {
      RemoveBracketsRemovesAll(s[1..]);
    }
  }

  const IndentLevel: string := "indent-level"

  /** `\bindent-level\b` matches at index `i` of `s`: the word, with no word character just before or just after it. */
  predicate IndentLevelAt(s: string, i: nat) {
    OccursAt(s, IndentLevel, i)
    && (i == 0 || !IsWordChar(s[i - 1]))
    && (i + |IndentLevel| == |s| || !IsWordChar(s[i + |IndentLevel|]))
  }

  /** `re.sub(r'\bindent-level\b', '', ...)` from index `i` on: matches are found in the original string, left to right, without overlap. */
  function Scrub(s: string, i: nat): string
    requires i <= |s|
    decreases |s| - i
  {
    if i == |s| then []
    else if IndentLevelAt(s, i) then Scrub(s, i + |IndentLevel|)
    else [s[i]] + Scrub(s, i + 1)
  }

  /** The whole cleaning of a surviving passage's text. */
  function Clean(s: string): string {
    Strip(Scrub(RemoveBrackets(s), 0))
  }

  /** The first pass on one passage. */
  function NoneFreed(p: Passage): Passage {
    Passage(p.content, NoneToNA(p.metadata))
  }

  /** The second pass on one passage. */
  function WithHeader(p: Passage): Passage {
    Passage(Header(p.metadata) + p.content, p.metadata)
  }

  /** The third pass on one passage: a text with `<br>` is left alone, any other is cleaned. */
  function CleanedIfKept(p: Passage): Passage {
    if Contains(p.content, "<br>") then p else Passage(Clean(p.content), p.metadata)
  }

  /** The first two passes on one passage: metadata without `None`, text behind the header. */
  function Prefixed(p: Passage): Passage {
    WithHeader(NoneFreed(p))
  }

  /** Rule 1: a passage survives iff its prefixed text has no `<br>`. */
  predicate Survives(p: Passage) {
    !Contains(Prefixed(p).content, "<br>")
  }

  /** A passage after `sanitize`: a dropped one keeps its prefixed text, a survivor gets it cleaned. */
  function Sanitized(p: Passage): Passage {
    CleanedIfKept(Prefixed(p))
  }

  /** One pass applied to every passage, position by position. */
  function Each(f: Passage -> Passage, ps: seq<Passage>): (r: seq<Passage>)
    ensures |r| == |ps| && forall i :: 0 <= i < |ps| ==> r[i] == f(ps[i])
  {
    seq(|ps|, i requires 0 <= i < |ps| => f(ps[i]))
  }

  function SurvivorMask(ps: seq<Passage>): (m: seq<bool>)
    ensures |m| == |ps| && forall i :: 0 <= i < |ps| ==> m[i] == Survives(ps[i])
  {
    seq(|ps|, i requires 0 <= i < |ps| => Survives(ps[i]))
  }

  /** `None` becomes `"N/A"`: the keys stay, no value is `None` afterwards, and every other value is kept. */
  lemma NoneToNAReplacesOnlyNone(metadata: Metadata)
    ensures var r := NoneToNA(metadata);
      r.Keys == metadata.Keys
      && (forall k :: k in r ==> r[k] != Null)
      && (forall k :: k in metadata ==> r[k] == (if metadata[k] == Null then Str("N/A") else metadata[k]))
  {
  }

  lemma {:induction false} RemoveBracketsAppend(a: string, b: string)
    ensures RemoveBrackets(a + b) == RemoveBrackets(a) + RemoveBrackets(b)
  {
    if a != [] {
      assert (a + b)[1..] == a[1..] + b;
      RemoveBracketsAppend(a[1..], b);
    } else {
      assert a + b == b;
    }
  }

  /** The facts about the two literals that the proofs below use. */
  lemma LiteralFacts()
    ensures |HeaderStart| == 15 && HeaderStart[0] == 'P' && HeaderStart[14] == ' '
    ensures forall i :: 0 <= i < 14 ==> !(HeaderStart[i] == 'i' && HeaderStart[i + 1] == 'n')
    ensures forall i :: 0 <= i < |HeaderStart| ==> !IsBracket(HeaderStart[i])
    ensures |IndentLevel| == 12 && IndentLevel[0] == 'i' && IndentLevel[1] == 'n' && '.' !in IndentLevel
  {
  }

  lemma NoIndentLevelInHeaderStart(s: string, i: nat)
    requires i < |HeaderStart| <= |s| && s[..|HeaderStart|] == HeaderStart
    ensures !OccursAt(s, IndentLevel, i)
  {
    LiteralFacts();
    if i + |IndentLevel| <= |s| {
      var w := s[i..i + |IndentLevel|];
      assert w[0] == s[i] == HeaderStart[i];
      assert w[1] == s[i + 1];
      if i < 14 {
        assert s[i + 1] == HeaderStart[i + 1];
      }
      assert w[0] != IndentLevel[0] || w[1] != IndentLevel[1];
    }
  }

  /** A character where `indent-level` does not start is kept. */
  lemma ScrubKeepsFirst(s: string, i: nat)
    requires i < |s| && !OccursAt(s, IndentLevel, i)
    ensures Scrub(s, i) == [s[i]] + Scrub(s, i + 1)
  {
  }

  /** Scrubbing runs over a stretch where `indent-level` never starts without removing anything from it. */
  lemma {:induction false} ScrubKeepsStretch(s: string, i: nat, n: nat)
    requires i <= n <= |s| && forall j :: i <= j < n ==> !OccursAt(s, IndentLevel, j)
    ensures Scrub(s, i) == s[i..n] + Scrub(s, n)
    decreases n - i
  {
    if i < n {
      ScrubKeepsFirst(s, i);
      ScrubKeepsStretch(s, i + 1, n);
      calc {
        Scrub(s, i);
        [s[i]] + Scrub(s, i + 1);
        [s[i]] + (s[i + 1..n] + Scrub(s, n));
        { assert s[i..n] == [s[i]] + s[i + 1..n]; }
        s[i..n] + Scrub(s, n);
      }
    }
  }

  /** Every character of a match of `indent-level` is one of its letters. */
  lemma InsideMatch(s: string, i: nat, j: nat)
    requires OccursAt(s, IndentLevel, i) && i <= j < |s|
    ensures j < i + |IndentLevel| ==> s[j] in IndentLevel
  {
    if j < i + |IndentLevel| {
      assert s[j] == s[i..i + |IndentLevel|][j - i];
    }
  }

  /** A character that is not a letter of `indent-level` is never removed. */
  lemma {:induction false} ScrubKeepsChar(s: string, i: nat, j: nat)
    requires i <= j < |s| && s[j] !in IndentLevel
    ensures exists k :: 0 <= k < |Scrub(s, i)| && Scrub(s, i)[k] == s[j]
    decreases |s| - i
  {
    if IndentLevelAt(s, i) {
      InsideMatch(s, i, j);
      assert Scrub(s, i) == Scrub(s, i + |IndentLevel|);
      ScrubKeepsChar(s, i + |IndentLevel|, j);
    } else {
      var r := Scrub(s, i + 1);
      assert Scrub(s, i) == [s[i]] + r;
      if i < j {
        ScrubKeepsChar(s, i + 1, j);
        var k :| 0 <= k < |r| && r[k] == s[j];
        assert Scrub(s, i)[k + 1] == r[k];
      } else {
        assert Scrub(s, i)[0] == s[j];
      }
    }
  }

  /** Scrubbing only removes characters. */
  lemma {:induction false} ScrubOnlyRemoves(s: string, i: nat)
    requires i <= |s|
    ensures forall c :: c in Scrub(s, i) ==> c in s[i..]
    decreases |s| - i
  {
    if i < |s| {
      if IndentLevelAt(s, i) {
        ScrubOnlyRemoves(s, i + |IndentLevel|);
        assert forall c :: c in s[i + |IndentLevel|..] ==> c in s[i..];
      } else {
        ScrubOnlyRemoves(s, i + 1);
        assert forall c :: c in s[i + 1..] ==> c in s[i..];
      }
    }
  }

  /** The cleaned text has no `[`, `]`, `<` or `>`, and no whitespace at either end. */
  lemma CleanHasNoBracketsOrOuterSpace(s: string)
    ensures forall c :: c in Clean(s) ==> !IsBracket(c)
    ensures Clean(s) == [] || (!IsSpace(Clean(s)[0]) && !IsSpace(Clean(s)[|Clean(s)| - 1]))
  {
    var b := RemoveBrackets(s);
    RemoveBracketsRemovesAll(s);
    ScrubOnlyRemoves(b, 0);
    assert b[0..] == b;
    StripShape(Scrub(b, 0));
  }

  /** Stripping only removes characters, and leaves no whitespace at either end. */
  lemma StripShape(t: string)
    ensures forall c :: c in Strip(t) ==> c in t
    ensures Strip(t) == [] || (!IsSpace(Strip(t)[0]) && !IsSpace(Strip(t)[|Strip(t)| - 1]))
  {
    var u := StripStart(t);
    var r := StripEnd(u);
    forall c | c in r
      ensures c in t
    {
      var k :| 0 <= k < |r| && r[k] == c;
      assert c == u[k];
      assert c == t[|t| - |u| + k];
    }
    if r != [] {
      assert r[0] == u[0];
    }
  }

  lemma {:induction false} RemoveBracketsNoop(s: string)
    requires forall i :: 0 <= i < |s| ==> !IsBracket(s[i])
    ensures RemoveBrackets(s) == s
  {
    if s != [] {
      RemoveBracketsNoop(s[1..]);
      assert s == [s[0]] + s[1..];
    }
  }

  /** A text that opens with bracket-free words and has a `.` after them keeps both once its brackets are removed. */
  lemma BracketFreePrefix(h: string, t: string, n: nat) returns (m: nat)
    requires forall i :: 0 <= i < |h| ==> !IsBracket(h[i])
    requires |h| <= n < |t| && t[..|h|] == h && t[n] == '.'
    ensures var r := RemoveBrackets(t);
      |h| <= m < |r| && r[..|h|] == h && r[m] == '.'
  {
    var v, d := t[|h|..n], t[n..];
    assert t == h + (v + d);
    RemoveBracketsAppend(h, v + d);
    RemoveBracketsAppend(v, d);
    RemoveBracketsNoop(h);
    assert d == ['.'] + d[1..];
    var rd := RemoveBrackets(d);
    assert rd[0] == '.';
    var r := h + (RemoveBrackets(v) + rd);
    m := |h| + |RemoveBrackets(v)|;
    assert r[m] == rd[0];
  }

  /** Appending keeps the first `k` characters. */
  lemma AppendKeepsPrefix(x: string, y: string, k: nat)
    requires k <= |x|
    ensures (x + y)[..k] == x[..k]
  {
    assert forall j :: 0 <= j < k ==> (x + y)[..k][j] == x[..k][j];
  }

  /** A prefixed text opens with the header words and has the `.` after the version. */
  lemma PrefixedShape(p: Passage) returns (n: nat)
    ensures var c := Prefixed(p).content;
      |HeaderStart| <= n < |c| && c[..|HeaderStart|] == HeaderStart && c[n] == '.'
  {
    var md := NoneToNA(p.metadata);
    var a := HeaderStart + GetOrNA(md, "patch_version");
    var b := a + ". Category: ";
    var p1 := b + GetOrNA(md, "category");
    var p2 := p1 + ".  Patch-Timestamp: ";
    var p3 := p2 + GetOrNA(md, "patch_timestamp");
    var p4 := p3 + ". ";
    var c := p4 + p.content;
    assert Prefixed(p).content == c;
    n := |a|;
    var k := |HeaderStart|;
    AppendKeepsPrefix(HeaderStart, GetOrNA(md, "patch_version"), k);
    AppendKeepsPrefix(a, ". Category: ", k);
    AppendKeepsPrefix(b, GetOrNA(md, "category"), k);
    AppendKeepsPrefix(p1, ".  Patch-Timestamp: ", k);
    AppendKeepsPrefix(p2, GetOrNA(md, "patch_timestamp"), k);
    AppendKeepsPrefix(p3, ". ", k);
    AppendKeepsPrefix(p4, p.content, k);
    assert HeaderStart[..k] == HeaderStart;
    assert c[n] == p4[n] == p3[n] == p2[n] == p1[n] == b[n] == '.';
  }

  /** Stripping a text that opens with non-space words and has a `.` after them keeps those words. */
  lemma StripKeepsPrefix(h: string, rest: string, k: nat)
    requires h != [] && !IsSpace(h[0]) && k < |rest| && rest[k] == '.'
    ensures StartsWith(Strip(h + rest), h)
  {
    var t := h + rest;
    assert t[0] == h[0];
    assert StripStart(t) == t;
    var r := StripEnd(t);
    assert t[|h| + k] == '.';
    assert |r| > |h| + k;
    assert r[..|h|] == t[..|h|] == h;
  }

  /** Scrubbing and stripping a text that opens with the header words and has a `.` after them keeps those words. */
  lemma ScrubStripKeepsHeader(t: string, dot: nat)
    requires |HeaderStart| <= dot < |t| && t[..|HeaderStart|] == HeaderStart && t[dot] == '.'
    ensures StartsWith(Strip(Scrub(t, 0)), HeaderStart)
  {
    LiteralFacts();
    forall j | 0 <= j < |HeaderStart|
      ensures !OccursAt(t, IndentLevel, j)
    {
      NoIndentLevelInHeaderStart(t, j);
    }
    ScrubKeepsStretch(t, 0, |HeaderStart|);
    ScrubKeepsChar(t, |HeaderStart|, dot);
    var rest := Scrub(t, |HeaderStart|);
    var k :| 0 <= k < |rest| && rest[k] == '.';
    StripKeepsPrefix(HeaderStart, rest, k);
  }

  /**
   * A surviving passage still opens with `Patch-Version: `: no bracket or
   * `indent-level` match touches those words, and the `.` after the version
   * keeps the trailing strip from reaching them.
   */
  lemma SurvivorStartsWithHeader(p: Passage)
    requires Survives(p)
    ensures StartsWith(Sanitized(p).content, HeaderStart)
  {
    var n := PrefixedShape(p);
    LiteralFacts();
    var m := BracketFreePrefix(HeaderStart, Prefixed(p).content, n);
    ScrubStripKeepsHeader(RemoveBrackets(Prefixed(p).content), m);
  }

  lemma ContainsInSuffix(a: string, b: string, sub: string)
    requires Contains(b, sub)
    ensures Contains(a + b, sub)
  {
    var i :| OccursAt(b, sub, i);
    assert (a + b)[|a| + i..|a| + i + |sub|] == b[i..i + |sub|];
    assert OccursAt(a + b, sub, |a| + i);
  }

  /** Rule 1 cannot be escaped by the header: a passage whose own text has `<br>` is always dropped. */
  lemma BreakInTextIsDropped(p: Passage)
    requires Contains(p.content, "<br>")
    ensures !Survives(p)
  {
    ContainsInSuffix(Header(NoneToNA(p.metadata)), p.content, "<br>");
  }

  /** The first pass: every `None` metadata value becomes `"N/A"`. */
  method ReplaceNonePass(docs: seq<Document>)
    requires Distinct(docs)
    modifies docs
    ensures Snapshot(docs) == Each(NoneFreed, old(Snapshot(docs)))
  {
    ghost var before := Snapshot(docs);
    for i := 0 to |docs|
      invariant forall j :: 0 <= j < i ==> Snap(docs[j]) == NoneFreed(before[j])
      invariant forall j :: i <= j < |docs| ==> Snap(docs[j]) == before[j]
    {
      var doc := docs[i];
      doc.metadata := NoneToNA(doc.metadata);
    }
  }

  /** The second pass: every text gets the header built from its (already `None`-free) metadata. */
  method HeaderPass(docs: seq<Document>)
    requires Distinct(docs)
    modifies docs
    ensures Snapshot(docs) == Each(WithHeader, old(Snapshot(docs)))
  {
    ghost var before := Snapshot(docs);
    for i := 0 to |docs|
      invariant forall j :: 0 <= j < i ==> Snap(docs[j]) == WithHeader(before[j])
      invariant forall j :: i <= j < |docs| ==> Snap(docs[j]) == before[j]
    {
      var doc := docs[i];
      var category := GetOrNA(doc.metadata, "category");
      var patchVersion := GetOrNA(doc.metadata, "patch_version");
      var patchTimestamp := GetOrNA(doc.metadata, "patch_timestamp");
      doc.pageContent := "Patch-Version: " + patchVersion + ". Category: " + category + ".  Patch-Timestamp: "
                         + patchTimestamp + ". " + doc.pageContent;
    }
  }

  /** Which texts have no `<br>`, position by position. */
  function NoBreakMask(ps: seq<Passage>): (m: seq<bool>)
    ensures |m| == |ps| && forall i :: 0 <= i < |ps| ==> m[i] == !Contains(ps[i].content, "<br>")
  {
    seq(|ps|, i requires 0 <= i < |ps| => !Contains(ps[i].content, "<br>"))
  }

  /** The body of the third pass for one document: whether it is kept, and its text cleaned if so. */
  method CleanDocument(doc: Document) returns (keep: bool)
    modifies doc
    ensures keep == !Contains(old(doc.pageContent), "<br>")
    ensures Snap(doc) == CleanedIfKept(old(Snap(doc)))
  {
    var content := doc.pageContent;
    keep := !Contains(content, "<br>");
    if keep {
      var cleanContent := RemoveBrackets(content);
      cleanContent := Scrub(cleanContent, 0);
      assert Strip(cleanContent) == Clean(content);
      doc.pageContent := Strip(cleanContent);
    }
  }

  /** The third pass: drop texts with `<br>`, clean the rest, collect them in order. */
  method CleanPass(docs: seq<Document>) returns (kept: seq<Document>)
    requires Distinct(docs)
    modifies docs
    ensures Snapshot(docs) == Each(CleanedIfKept, old(Snapshot(docs)))
    ensures kept == Select(docs, NoBreakMask(old(Snapshot(docs))))
  {
    ghost var before := Snapshot(docs);
    ghost var mask := NoBreakMask(before);
    kept := [];
    for i := 0 to |docs|
      invariant forall j :: 0 <= j < i ==> Snap(docs[j]) == CleanedIfKept(before[j])
      invariant forall j :: i <= j < |docs| ==> Snap(docs[j]) == before[j]
      invariant kept == Select(docs[..i], mask[..i])
    {
      var doc := docs[i];
      SelectPrefixStep(docs, mask, i);
      assert Snap(doc) == before[i];
      var keep := CleanDocument(doc);
      if keep {
        kept := kept + [doc];
      }
    }
    assert docs[..|docs|] == docs;
    assert mask[..|docs|] == mask;
  }

  /** The three passes compose to `Sanitized`, and the third keeps exactly the survivors. */
  lemma PassesCompose(ps: seq<Passage>)
    ensures Each(WithHeader, Each(NoneFreed, ps)) == Each(Prefixed, ps)
    ensures Each(CleanedIfKept, Each(Prefixed, ps)) == Each(Sanitized, ps)
    ensures NoBreakMask(Each(Prefixed, ps)) == SurvivorMask(ps)
  {
    assert Each(WithHeader, Each(NoneFreed, ps)) == Each(Prefixed, ps);
  }

  class SanitizeDocuments {
    /** Set once by the constructor; `sanitize` changes the documents, never the list. */
    const documents: seq<Document>

    constructor (documents: seq<Document>)
      ensures this.documents == documents
    {
      this.documents := documents;
    }

    /**
     * `sanitize`: three passes over the documents, changing them in place,
     * and the survivors of the third returned in their original order.
     */
    method Sanitize() returns (sanitizedDocs: seq<Document>)
      requires Distinct(documents)
      modifies documents
      ensures Snapshot(documents) == Each(Sanitized, old(Snapshot(documents)))
      ensures sanitizedDocs == Select(documents, SurvivorMask(old(Snapshot(documents))))
    {
      var docs := documents;
      ghost var before := Snapshot(docs);
      ReplaceNonePass(docs);
      ghost var freed := Snapshot(docs);
      HeaderPass(docs);
      ghost var prefixed := Snapshot(docs);
      assert prefixed == Each(WithHeader, Each(NoneFreed, before));
      PassesCompose(before);
      sanitizedDocs := CleanPass(docs);
      assert Snapshot(docs) == Each(CleanedIfKept, prefixed);
    }
  }
}
