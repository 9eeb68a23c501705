/**
 * The patch-version pattern `7\.\d+[a-z]?` that all three classifiers compile,
 * written as a scanner over lower-cased ASCII text: `MatchAt` is `re.match` at
 * one position, `FindAll` is `re.findall`.
 */
module VersionPattern {
  import opened Text
  import opened Wrappers

  /** A string the pattern matches in full: `7`, `.`, one or more digits, at most one letter. */
  predicate IsVersionToken(v: string) {
    |v| >= 3 && v[0] == '7' && v[1] == '.' && IsDigit(v[2])
    && (AllDigits(v[2..]) || (AllDigits(v[2..|v| - 1]) && IsAsciiLower(v[|v| - 1])))
  }

  /** The end of the run of digits of `s` that starts at index `j` (what a greedy `\d*` consumes). */
  function DigitsEnd(s: string, j: nat): (e: nat)
    requires j <= |s|
    ensures j <= e <= |s|
    ensures forall k :: j <= k < e ==> IsDigit(s[k])
    ensures e == |s| || !IsDigit(s[e])
    decreases |s| - j
  {
    if j < |s| && IsDigit(s[j]) then DigitsEnd(s, j + 1) else j
  }

  /** The run of digits ends at `e` when everything before `e` is a digit and `e` is not. */
  lemma DigitsEndAt(s: string, j: nat, e: nat)
    requires j <= e <= |s| && (forall k :: j <= k < e ==> IsDigit(s[k])) && (e == |s| || !IsDigit(s[e]))
    ensures DigitsEnd(s, j) == e
  {
  }

  /**
   * `re.match` of the pattern at index `i` of `s`: the greedy digit run, then
   * the letter if one follows. A match is a version token read off `s` at `i`.
   */
  function MatchAt(s: string, i: nat): (r: Option<string>)
    ensures r.Some? ==> IsVersionToken(r.value) && OccursAt(s, r.value, i)
  {
    if i + 2 < |s| && s[i] == '7' && s[i + 1] == '.' && IsDigit(s[i + 2]) then
      var e := DigitsEnd(s, i + 2);
      if e < |s| && IsAsciiLower(s[e]) then
        LetterRunIsToken(s, i, e);
        Some(s[i..e + 1])
      else
        DigitRunIsToken(s, i, e);
        Some(s[i..e])
    else
      None
  }

  /** `7.` followed by a run of digits is a version token, read off `s` at `i`. */
  lemma DigitRunIsToken(s: string, i: nat, e: nat)
    requires i + 2 < e <= |s| && s[i] == '7' && s[i + 1] == '.'
    requires forall k :: i + 2 <= k < e ==> IsDigit(s[k])
    ensures IsVersionToken(s[i..e]) && OccursAt(s, s[i..e], i)
  {
    var v := s[i..e];
    SliceOfSlice(s, i, e, 2, e - i);
    assert v[0] == s[i] && v[1] == s[i + 1] && v[2] == s[i + 2];
    assert AllDigits(v[2..]);
  }

  /** The same run followed by a lower-case letter is a version token too. */
  lemma LetterRunIsToken(s: string, i: nat, e: nat)
    requires i + 2 < e < |s| && s[i] == '7' && s[i + 1] == '.' && IsAsciiLower(s[e])
    requires forall k :: i + 2 <= k < e ==> IsDigit(s[k])
    ensures IsVersionToken(s[i..e + 1]) && OccursAt(s, s[i..e + 1], i)
  {
    var v := s[i..e + 1];
    SliceOfSlice(s, i, e + 1, 2, e - i);
    assert v[0] == s[i] && v[1] == s[i + 1] && v[2] == s[i + 2];
    assert v[|v| - 1] == s[e];
    var w := v[2..|v| - 1];
    assert forall k :: 0 <= k < |w| ==> w[k] == s[i + 2 + k];
  }

  lemma SliceOfSlice(s: string, i: nat, j: nat, a: nat, b: nat)
    requires i <= j <= |s| && a <= b <= j - i
    ensures s[i..j][a..b] == s[i + a..i + b]
  {
    assert forall k :: 0 <= k < b - a ==> s[i..j][a..b][k] == s[i + a + k];
  }

  /**
   * The match at `i` is the longest version token that occurs at `i`: the
   * pattern matches wherever a token starts, and `\d+` and `[a-z]?` are greedy.
   */
  lemma MatchAtLongest(s: string, i: nat, v: string)
    requires IsVersionToken(v) && OccursAt(s, v, i)
    ensures MatchAt(s, i).Some? && |v| <= |MatchAt(s, i).value|
  {
    assert s[i..i + |v|] == v;
    assert s[i] == v[0] && s[i + 1] == v[1] && s[i + 2] == v[2];
    var e := DigitsEnd(s, i + 2);
    if !AllDigits(v[2..]) {
      forall k | i + 2 <= k < i + |v| - 1
        ensures IsDigit(s[k])
      {
        assert s[k] == v[2..|v| - 1][k - i - 2];
      }
      assert s[i + |v| - 1] == v[|v| - 1];
    }
  }

  /** The non-overlapping matches of `s` from index `i` on, left to right. */
  function FindAllFrom(s: string, i: nat): (r: seq<string>)
    requires i <= |s|
    ensures forall k :: 0 <= k < |r| ==> IsVersionToken(r[k])
    decreases |s| - i
  {
    if i == |s| then []
    else
      match MatchAt(s, i)
      case Some(v) => [v] + FindAllFrom(s, i + |v|)
      case None => FindAllFrom(s, i + 1)
  }

  /** `re.findall(pattern, s)`. */
  function FindAll(s: string): seq<string> {
    FindAllFrom(s, 0)
  }

  /** `findall(s)[0] if findall(s) else None`: the leftmost match, if any. */
  function FirstVersion(s: string): Option<string> {
    var all := FindAll(s);
    if all == [] then None else Some(all[0])
  }

  /** No match starts in `s` at or after index `i`. */
  predicate NoMatchFrom(s: string, i: nat) {
    forall j: nat :: i <= j < |s| ==> MatchAt(s, j).None?
  }

  /** `v` is the match at `i`, and no match starts in `s` between `from` and `i`. */
  predicate LeftmostFrom(s: string, from: nat, i: nat, v: string) {
    from <= i < |s| && MatchAt(s, i) == Some(v)
    && forall j: nat :: from <= j < i ==> MatchAt(s, j).None?
  }

  lemma FindAllFromAtMatch(s: string, from: nat)
    requires from < |s| && MatchAt(s, from).Some?
    ensures FindAllFrom(s, from) != [] && FindAllFrom(s, from)[0] == MatchAt(s, from).value
  {
  }

  lemma FindAllFromPastMiss(s: string, from: nat)
    requires from < |s| && MatchAt(s, from).None?
    ensures FindAllFrom(s, from) == FindAllFrom(s, from + 1)
  {
  }

  lemma {:induction false} FindAllFromHead(s: string, from: nat)
    requires from <= |s|
    ensures FindAllFrom(s, from) == [] <==> NoMatchFrom(s, from)
    ensures FindAllFrom(s, from) != [] ==> exists i: nat :: LeftmostFrom(s, from, i, FindAllFrom(s, from)[0])
    decreases |s| - from
  {
    if from < |s| {
      var m := MatchAt(s, from);
      var r := FindAllFrom(s, from);
      if m.Some? {
        FindAllFromAtMatch(s, from);
        assert LeftmostFrom(s, from, from, r[0]);
      } else {
        FindAllFromPastMiss(s, from);
        FindAllFromHead(s, from + 1);
        if r != [] {
          var i: nat :| LeftmostFrom(s, from + 1, i, r[0]);
          assert LeftmostFrom(s, from, i, r[0]);
        } else {
          assert NoMatchFrom(s, from + 1);
          forall j: nat | from <= j < |s|
            ensures MatchAt(s, j).None?
          {
          }
        }
      }
    }
  }

  /**
   * `FirstVersion(s)` is absent exactly when the pattern matches nowhere in
   * `s`; otherwise it is the match at the least index where one starts.
   */
  lemma FirstVersionIsLeftmost(s: string)
    ensures FirstVersion(s).None? <==> NoMatchFrom(s, 0)
    ensures FirstVersion(s).Some? ==> exists i: nat :: LeftmostFrom(s, 0, i, FirstVersion(s).value)
  {
    FindAllFromHead(s, 0);
  }
}
