/**
 * `FilterRetrievedDocuments.get_latest_patch_version`: the version tokens read
 * off the `.json` file names of the patch-note directory, ordered by the
 * split-digit sort key, and the greatest of them.
 */
module VersionResolver {
  import opened Text
  import opened Wrappers
  import opened VersionPattern

  /**
   * The sort key `tuple(int(p) if p.isdigit() else p for p in re.split('(\d+)', v))`
   * of a version token `7.<minor><letter>` is `('', 7, '.', minor, letter)`;
   * its first three parts are the same for every token, so tokens compare by
   * the numeric minor version and then by the (possibly empty) letter.
   */
  datatype VersionKey = VersionKey(minor: nat, letter: string)

  function Key(v: string): VersionKey
    requires IsVersionToken(v)
  {
    var e := DigitsEnd(v, 2);
    VersionKey(DecimalValue(v[2..e]), v[e..])
  }

  /** Python's `<` on strings: lexicographic by character, a proper prefix first. */
  predicate StringLess(a: string, b: string)
    decreases |a|
  {
    if a == [] then b != []
    else b != [] && (a[0] < b[0] || (a[0] == b[0] && StringLess(a[1..], b[1..])))
  }

  /** Python's `<` on two sort keys. */
  predicate KeyLess(a: VersionKey, b: VersionKey) {
    a.minor < b.minor || (a.minor == b.minor && StringLess(a.letter, b.letter))
  }

  lemma {:induction false} StringLessIsStrictTotal(a: string, b: string, c: string)
    ensures !(StringLess(a, b) && StringLess(b, a))
    ensures a != b ==> StringLess(a, b) || StringLess(b, a)
    ensures StringLess(a, b) && StringLess(b, c) ==> StringLess(a, c)
    decreases |a|
  {
    if a != [] && b != [] {
      StringLessIsStrictTotal(a[1..], b[1..], if c != [] then c[1..] else []);
      if a[0] == b[0] && a[1..] == b[1..] {
        assert a == [a[0]] + a[1..] && b == [b[0]] + b[1..];
      }
    }
  }

  lemma KeyLessIsStrictTotal(a: VersionKey, b: VersionKey, c: VersionKey)
    ensures !(KeyLess(a, b) && KeyLess(b, a))
    ensures a != b ==> KeyLess(a, b) || KeyLess(b, a)
    ensures KeyLess(a, b) && KeyLess(b, c) ==> KeyLess(a, c)
  {
    StringLessIsStrictTotal(a.letter, b.letter, c.letter);
  }

  /** Every element of `vs` is a version token. */
  predicate AllTokens(vs: seq<string>) {
    forall k :: 0 <= k < |vs| ==> IsVersionToken(vs[k])
  }

  /** The directory entry `f` contributes a version: it ends in `.json` and the pattern matches at its start. */
  predicate IsPatchFile(f: string) {
    EndsWith(f, ".json") && MatchAt(f, 0).Some?
  }

  /** The list `patch_versions` that the loop over the directory listing builds, in listing order. */
  function PatchVersions(filenames: seq<string>): (r: seq<string>)
    ensures AllTokens(r)
  {
    if filenames == [] then []
    else
      var f := filenames[|filenames| - 1];
      PatchVersions(filenames[..|filenames| - 1]) + (if IsPatchFile(f) then [MatchAt(f, 0).value] else [])
  }

  /**
   * The versions collected are exactly the leading matches of the `.json`
   * file names: none at all iff no file name qualifies, and each one read off
   * some qualifying file name.
   */
  lemma {:induction false} PatchVersionsFromFiles(filenames: seq<string>)
    ensures PatchVersions(filenames) == [] <==> forall f :: f in filenames ==> !IsPatchFile(f)
    ensures forall v :: v in PatchVersions(filenames) ==>
              exists f :: f in filenames && IsPatchFile(f) && MatchAt(f, 0) == Some(v)
  {
    if filenames != [] {
      var init := filenames[..|filenames| - 1];
      PatchVersionsFromFiles(init);
      assert filenames == init + [filenames[|filenames| - 1]];
    }
  }

  /**
   * `patch_versions[-1]` after the stable ascending sort, or `None` for an
   * empty list: scanning left to right, a later token replaces the current
   * candidate unless its key is smaller, so ties go to the later entry.
   */
  function Latest(vs: seq<string>): (r: Option<string>)
    requires AllTokens(vs)
    ensures r.Some? ==> IsVersionToken(r.value)
  {
    if vs == [] then None
    else
      var prev := Latest(vs[..|vs| - 1]);
      var last := vs[|vs| - 1];
      if prev.None? || !KeyLess(Key(last), Key(prev.value)) then Some(last) else prev
  }

  /** `vs[k]` is what a stable ascending sort puts last: no key exceeds its key, and every later entry's key is smaller. */
  predicate IsLastMaximum(vs: seq<string>, k: int)
    requires AllTokens(vs)
  {
    0 <= k < |vs|
    && (forall j :: 0 <= j < |vs| ==> !KeyLess(Key(vs[k]), Key(vs[j])))
    && (forall j :: k < j < |vs| ==> KeyLess(Key(vs[j]), Key(vs[k])))
  }

  /** Appending an entry whose key is not below the current last maximum makes the new entry the last maximum. */
  lemma LastMaximumMovesToNew(vs: seq<string>, k: int)
    requires |vs| > 0 && AllTokens(vs) && IsLastMaximum(vs[..|vs| - 1], k)
    requires !KeyLess(Key(vs[|vs| - 1]), Key(vs[k]))
    ensures IsLastMaximum(vs, |vs| - 1)
  {
    var n := |vs| - 1;
    var top := Key(vs[n]);
    forall j | 0 <= j < |vs|
      ensures !KeyLess(top, Key(vs[j]))
    {
      if j < n {
        assert vs[j] == vs[..n][j] && vs[k] == vs[..n][k];
        assert !KeyLess(Key(vs[k]), Key(vs[j]));
        KeyLessIsStrictTotal(top, Key(vs[j]), Key(vs[k]));
        KeyLessIsStrictTotal(Key(vs[j]), Key(vs[k]), top);
      } else {
        KeyLessIsStrictTotal(top, top, top);
      }
    }
  }

  /** Appending an entry whose key is below the current last maximum keeps that maximum. */
  lemma LastMaximumStays(vs: seq<string>, k: int)
    requires |vs| > 0 && AllTokens(vs) && IsLastMaximum(vs[..|vs| - 1], k)
    requires KeyLess(Key(vs[|vs| - 1]), Key(vs[k]))
    ensures IsLastMaximum(vs, k)
  {
    var n := |vs| - 1;
    var top := Key(vs[k]);
    assert vs[k] == vs[..n][k];
    forall j | 0 <= j < |vs|
      ensures !KeyLess(top, Key(vs[j]))
    {
      if j < n {
        assert vs[j] == vs[..n][j];
        assert !KeyLess(Key(vs[..n][k]), Key(vs[..n][j]));
      } else {
        KeyLessIsStrictTotal(Key(vs[n]), top, top);
      }
    }
    forall j | k < j < |vs|
      ensures KeyLess(Key(vs[j]), top)
    {
      if j < n {
        assert vs[j] == vs[..n][j];
      }
    }
  }

  /**
   * `Latest` is absent iff there are no versions; otherwise it is the entry a
   * stable sort by the key would put last, so it is maximal under the key.
   */
  lemma {:induction false} LatestIsLastMaximum(vs: seq<string>)
    requires AllTokens(vs)
    ensures Latest(vs).None? <==> vs == []
    ensures Latest(vs).Some? ==> exists k :: IsLastMaximum(vs, k) && vs[k] == Latest(vs).value
  {
    if vs != [] {
      var init := vs[..|vs| - 1];
      var n := |vs| - 1;
      LatestIsLastMaximum(init);
      if init == [] {
        KeyLessIsStrictTotal(Key(vs[n]), Key(vs[n]), Key(vs[n]));
        assert IsLastMaximum(vs, n);
      } else {
        var k :| IsLastMaximum(init, k) && init[k] == Latest(init).value;
        assert vs[k] == init[k];
        if !KeyLess(Key(vs[n]), Key(vs[k])) {
          LastMaximumMovesToNew(vs, k);
        } else {
          LastMaximumStays(vs, k);
        }
      }
    }
  }

  /**
   * The ordering the resolver relies on: the minor version compares as a
   * number (7.20 after 7.8), and a letter sorts after no letter (7.37 before
   * 7.37a before 7.37b).
   */
  lemma LatestOfSampleListing()
    ensures AllTokens(["7.37", "7.37a", "7.37b", "7.8", "7.20"])
         && Latest(["7.37", "7.37a", "7.37b", "7.8", "7.20"]) == Some("7.37b")
  {
    SampleKeys();
    SampleOrder();
    var vs := ["7.37", "7.37a", "7.37b", "7.8", "7.20"];
    assert vs[..4] == ["7.37", "7.37a", "7.37b", "7.8"];
    assert vs[..4][..3] == ["7.37", "7.37a", "7.37b"];
    assert vs[..4][..3][..2] == ["7.37", "7.37a"];
    assert vs[..4][..3][..2][..1] == ["7.37"];
    assert Latest(["7.37"]) == Some("7.37");
    assert Latest(["7.37", "7.37a"]) == Some("7.37a");
    assert Latest(["7.37", "7.37a", "7.37b"]) == Some("7.37b");
    assert Latest(["7.37", "7.37a", "7.37b", "7.8"]) == Some("7.37b");
  }

  /** How the sample keys compare: a letter after none, `b` after `a`, and 7.8 and 7.20 below 7.37b. */
  lemma SampleOrder()
    ensures !KeyLess(VersionKey(37, "a"), VersionKey(37, "")) && !KeyLess(VersionKey(37, "b"), VersionKey(37, "a"))
    ensures KeyLess(VersionKey(8, ""), VersionKey(37, "b")) && KeyLess(VersionKey(20, ""), VersionKey(37, "b"))
  {
    assert !StringLess("b", "a") by {
      assert "b"[0] == 'b' && "a"[0] == 'a';
    }
  }

  /** The sample strings are version tokens. */
  lemma SampleTokens()
    ensures IsVersionToken("7.37") && IsVersionToken("7.37a") && IsVersionToken("7.37b")
    ensures IsVersionToken("7.8") && IsVersionToken("7.20")
  {
    assert "7.37"[2..] == "37" && "7.37a"[2..4] == "37" && "7.37b"[2..4] == "37";
    assert "7.8"[2..] == "8" && "7.20"[2..] == "20";
  }

  /** The sort keys of the sample tokens. */
  lemma SampleKeys()
    ensures IsVersionToken("7.37") && IsVersionToken("7.37a") && IsVersionToken("7.37b")
    ensures IsVersionToken("7.8") && IsVersionToken("7.20")
    ensures Key("7.37") == VersionKey(37, "") && Key("7.37a") == VersionKey(37, "a")
    ensures Key("7.37b") == VersionKey(37, "b") && Key("7.8") == VersionKey(8, "")
    ensures Key("7.20") == VersionKey(20, "")
  {
    SampleTokens();
    SampleMinors();
    KeyAt("7.37", 4);
    KeyAt("7.37a", 4);
    KeyAt("7.37b", 4);
    KeyAt("7.8", 3);
    KeyAt("7.20", 4);
    assert "7.37"[2..4] == "7.37a"[2..4] == "7.37b"[2..4] == "37";
    assert "7.8"[2..3] == "8" && "7.20"[2..4] == "20";
  }

  /** The numeric values of the sample minor versions. */
  lemma SampleMinors()
    ensures DecimalValue("37") == 37 && DecimalValue("8") == 8 && DecimalValue("20") == 20
  {
    assert "37"[..1] == "3" && "20"[..1] == "2";
  }

  /** The key of a token whose digit run ends at `e`. */
  lemma KeyAt(v: string, e: nat)
    requires IsVersionToken(v) && 2 < e <= |v| && (forall k :: 2 <= k < e ==> IsDigit(v[k])) && (e == |v| || !IsDigit(v[e]))
    ensures AllDigits(v[2..e]) && Key(v) == VersionKey(DecimalValue(v[2..e]), v[e..])
  {
    DigitsEndAt(v, 2, e);
  }

  /** One more file name of the listing contributes its version iff it is a patch file. */
  lemma PatchVersionsStep(filenames: seq<string>, i: nat)
    requires i < |filenames|
    ensures PatchVersions(filenames[..i + 1])
         == PatchVersions(filenames[..i]) + (if IsPatchFile(filenames[i]) then [MatchAt(filenames[i], 0).value] else [])
  {
    assert filenames[..i + 1][..i] == filenames[..i];
  }

  /** One more token of the list takes over unless its key is below that of the current result. */
  lemma LatestStep(vs: seq<string>, j: nat)
    requires AllTokens(vs) && j < |vs|
    ensures AllTokens(vs[..j]) && AllTokens(vs[..j + 1])
    ensures var prev := Latest(vs[..j]);
      Latest(vs[..j + 1]) == if prev.None? || !KeyLess(Key(vs[j]), Key(prev.value)) then Some(vs[j]) else prev
  {
    assert vs[..j + 1][..j] == vs[..j];
  }

  /**
   * `get_latest_patch_version` over a directory listing (`os.listdir` is a
   * parameter): collect the versions of the `.json` files in a loop, then take
   * the last element of the sorted list.
   */
  method GetLatestPatchVersion(filenames: seq<string>) returns (latest: Option<string>)
    ensures latest == Latest(PatchVersions(filenames))
  {
    var patchVersions: seq<string> := [];
    for i := 0 to |filenames|
      invariant patchVersions == PatchVersions(filenames[..i])
    {
      var filename := filenames[i];
      PatchVersionsStep(filenames, i);
      if EndsWith(filename, ".json") {
        var m := MatchAt(filename, 0);
        if m.Some? {
          patchVersions := patchVersions + [m.value];
        }
      }
    }
    assert filenames[..|filenames|] == filenames;
    if patchVersions == [] {
      return None;
    }
    var best := 0;
    for j := 1 to |patchVersions|
      invariant 0 <= best < j
      invariant Latest(patchVersions[..j]) == Some(patchVersions[best])
    {
      LatestStep(patchVersions, j);
      if !KeyLess(Key(patchVersions[j]), Key(patchVersions[best])) {
        best := j;
      }
    }
    assert patchVersions[..|patchVersions|] == patchVersions;
    latest := Some(patchVersions[best]);
  }
}
