/**
 * Whitespace trimming and prefix tests, as the crawler uses them from Go's
 * `strings` package (`strings.TrimSpace`, `strings.HasPrefix`). Strings are
 * sequences of Unicode scalar values; whitespace is what Go's
 * `unicode.IsSpace` accepts.
 */
module TextUtil {

  /** Go's `unicode.IsSpace`: the Latin-1 spaces and the Unicode White_Space property. */
  predicate IsSpace(c: char)
    ensures c as int <= 0xFF ==>
      (IsSpace(c) <==> c in "\t\n\U{000B}\U{000C}\r \U{0085}\U{00A0}")
    ensures IsSpace(c) ==> c as int <= 0x3000
  {
    || c == ' ' || c == '\t' || c == '\n' || c == '\r'
    || c == '\U{000B}' || c == '\U{000C}' || c == '\U{0085}' || c == '\U{00A0}'
    || c == '\U{1680}' || ('\U{2000}' <= c <= '\U{200A}')
    || c == '\U{2028}' || c == '\U{2029}' || c == '\U{202F}' || c == '\U{205F}'
    || c == '\U{3000}'
  }

  predicate AllSpace(s: string) {
    forall i :: 0 <= i < |s| ==> IsSpace(s[i])
  }

  /** Neither the first nor the last character is whitespace. */
  predicate IsTrimmed(s: string) {
    s == [] || (!IsSpace(s[0]) && !IsSpace(s[|s| - 1]))
  }

  /** Go's `strings.HasPrefix`: a case-sensitive, character-by-character prefix test. */
  predicate HasPrefix(s: string, prefix: string) {
    prefix <= s
  }

  /** The first index at or after `i` that does not hold whitespace (`|s|` when there is none). */
  function SkipLeft(s: string, i: nat): (j: nat)
    requires i <= |s|
    ensures i <= j <= |s|
    ensures forall k :: i <= k < j ==> IsSpace(s[k])
    ensures j == |s| || !IsSpace(s[j])
    decreases |s| - i
  {
    if i < |s| && IsSpace(s[i]) then SkipLeft(s, i + 1) else i
  }

  /** The least `k` in [lo, j] such that s[k..j] is all whitespace. */
  function SkipRight(s: string, lo: nat, j: nat): (k: nat)
    requires lo <= j <= |s|
    ensures lo <= k <= j
    ensures forall m :: k <= m < j ==> IsSpace(s[m])
    ensures k == lo || !IsSpace(s[k - 1])
    decreases j
  {
    if j > lo && IsSpace(s[j - 1]) then SkipRight(s, lo, j - 1) else j
  }

  /**
   * Go's `strings.TrimSpace`: the slice of the input between the first and
   * the last character that are not whitespace. The result is trimmed, and
   * it sits in the input with only whitespace before and after it.
   */
  function TrimSpace(s: string): (r: string)
    ensures IsTrimmed(r)
    ensures exists i :: 0 <= i <= |s| - |r| && s[i..i + |r|] == r
                        && AllSpace(s[..i]) && AllSpace(s[i + |r|..])
  {
    var start := SkipLeft(s, 0);
    var stop := SkipRight(s, start, |s|);
    assert AllSpace(s[..start]) by {
      forall k | 0 <= k < start ensures IsSpace(s[..start][k]) {
        assert s[..start][k] == s[k];
      }
    }
    assert AllSpace(s[stop..]) by {
      forall k | 0 <= k < |s| - stop ensures IsSpace(s[stop..][k]) {
        assert s[stop..][k] == s[stop + k];
      }
    }
    assert s[start..start + (stop - start)] == s[start..stop];
    s[start..stop]
  }

  /** SkipLeft stops exactly at the first non-whitespace index. */
  lemma {:induction false} SkipLeftTo(s: string, i: nat, target: nat)
    requires i <= target <= |s|
    requires forall k :: i <= k < target ==> IsSpace(s[k])
    requires target == |s| || !IsSpace(s[target])
    ensures SkipLeft(s, i) == target
    decreases target - i
  {
    if i < target {
      SkipLeftTo(s, i + 1, target);
    }
  }

  /** SkipRight stops exactly after the last non-whitespace index above `lo`. */
  lemma {:induction false} SkipRightTo(s: string, lo: nat, j: nat, target: nat)
    requires lo <= target <= j <= |s|
    requires forall m :: target <= m < j ==> IsSpace(s[m])
    requires target == lo || !IsSpace(s[target - 1])
    ensures SkipRight(s, lo, j) == target
    decreases j
  {
    if target < j {
      SkipRightTo(s, lo, j - 1, target);
    }
  }

  /**
   * TrimSpace is determined by its meaning: whenever the input is a trimmed
   * core with only whitespace around it, TrimSpace returns that core.
   */
  lemma TrimSpaceUnique(s: string, pre: string, core: string, post: string)
    requires s == pre + core + post
    requires AllSpace(pre) && AllSpace(post) && IsTrimmed(core)
    ensures TrimSpace(s) == core
  {
    assert forall k :: 0 <= k < |pre| ==> s[k] == pre[k];
    assert forall k :: 0 <= k < |core| ==> s[|pre| + k] == core[k];
    assert forall k :: 0 <= k < |post| ==> s[|pre| + |core| + k] == post[k];
    if core == [] {
      assert forall k :: 0 <= k < |s| ==> IsSpace(s[k]) by {
        forall k | 0 <= k < |s| ensures IsSpace(s[k]) {
          if k >= |pre| { assert s[k] == post[k - |pre|]; }
        }
      }
      SkipLeftTo(s, 0, |s|);
      assert s[|s|..|s|] == [];
    } else {
      var start := |pre|;
      var stop := |pre| + |core|;
      assert s[start] == core[0];
      assert s[stop - 1] == core[|core| - 1];
      SkipLeftTo(s, 0, start);
      forall m | stop <= m < |s| ensures IsSpace(s[m]) {
        assert s[m] == post[m - stop];
      }
      SkipRightTo(s, start, |s|, stop);
      assert s[start..stop] == core;
    }
  }

  /** A trimmed text is its own trim. */
  lemma TrimSpaceOfTrimmed(s: string)
    requires IsTrimmed(s)
    ensures TrimSpace(s) == s
  {
    assert s == [] + s + [];
    TrimSpaceUnique(s, [], s, []);
  }

  /** A text of whitespace only trims to "". */
  lemma TrimSpaceOfBlank(s: string)
    requires AllSpace(s)
    ensures TrimSpace(s) == ""
  {
    assert s == s + "" + "";
    TrimSpaceUnique(s, s, "", "");
  }

  /** Trimming twice is trimming once. */
  lemma TrimSpaceIdempotent(s: string)
    ensures TrimSpace(TrimSpace(s)) == TrimSpace(s)
  {
    var t := TrimSpace(s);
    assert t == [] + t + [];
    TrimSpaceUnique(t, [], t, []);
  }
}
