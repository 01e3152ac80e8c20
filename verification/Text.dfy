/** Substrings, leftmost search and `strings.ReplaceAll`. */
module Text {

  predicate At(s: string, t: string, i: int) {
    0 <= i <= |s| - |t| && s[i..i + |t|] == t
  }

  predicate Contains(s: string, t: string) {
    exists i :: 0 <= i <= |s| && At(s, t, i)
  }

  /** `strings.Index`: the leftmost occurrence, or -1. */
  function Index(s: string, t: string): (r: int)
    ensures r == -1 ==> !Contains(s, t)
    ensures r != -1 ==> At(s, t, r) && forall j :: 0 <= j < r ==> !At(s, t, j)
  {
    IndexFrom(s, t, 0)
  }

  function IndexFrom(s: string, t: string, i: nat): (r: int)
    requires i <= |s|
    requires forall j :: 0 <= j < i ==> !At(s, t, j)
    ensures r == -1 ==> !Contains(s, t)
    ensures r != -1 ==> At(s, t, r) && forall j :: 0 <= j < r ==> !At(s, t, j)
    decreases |s| - i
  {
    if At(s, t, i) then i
    else if i == |s| then -1
    else IndexFrom(s, t, i + 1)
  }

  /** `strings.Cut(s, sep)` for a one-character separator: text before, text after, found. */
  function Cut(s: string, sep: char): (r: (string, string, bool))
    ensures r.2 <==> sep in s
    ensures r.2 ==> s == r.0 + [sep] + r.1 && sep !in r.0
    ensures !r.2 ==> r == (s, "", false)
  {
    if s == "" then ("", "", false)
    else if s[0] == sep then ("", s[1..], true)
    else
      var (before, after, found) := Cut(s[1..], sep);
      if found then ([s[0]] + before, after, true) else (s, "", false)
  }

  /** `strings.ReplaceAll` for a non-empty needle: left to right, without overlap. */
  function ReplaceAll(s: string, t: string, p: string): string
    requires t != ""
    decreases |s|
  {
    var i := Index(s, t);
    if i == -1 then s else s[..i] + p + ReplaceAll(s[i + |t|..], t, p)
  }

  lemma ReplaceNothing(s: string, t: string, p: string)
    requires t != "" && !Contains(s, t)
    ensures ReplaceAll(s, t, p) == s
  {
    assert Index(s, t) != -1 ==> At(s, t, Index(s, t));
  }

  lemma IndexAt(before: string, t: string, after: string)
    requires t != "" && forall j :: 0 <= j < |before| ==> !At(before + t + after, t, j)
    ensures Index(before + t + after, t) == |before|
  {
    var s := before + t + after;
    assert s[|before|..|before| + |t|] == t;
    assert At(s, t, |before|);
  }

  /** The leftmost occurrence is replaced, what precedes it is kept, and the rest is treated alike. */
  lemma ReplaceFirst(before: string, t: string, after: string, p: string)
    requires t != "" && forall j :: 0 <= j < |before| ==> !At(before + t + after, t, j)
    ensures ReplaceAll(before + t + after, t, p) == before + p + ReplaceAll(after, t, p)
  {
    var s := before + t + after;
    IndexAt(before, t, after);
    assert s[..|before|] == before && s[|before| + |t|..] == after;
  }

  /** `p` can be laid over `w`, starting at index `k` of `w`, so that they agree wherever both have a character. */
  ghost predicate Agree(w: string, p: string, k: int) {
    forall i {:trigger w[i]} :: 0 <= i < |w| && k <= i < k + |p| ==> w[i] == p[i - k]
  }

  /** `p` can be laid over `w` with at least one character in common. */
  ghost predicate Clash(w: string, p: string) {
    exists k :: -|p| < k < |w| && Agree(w, p, k)
  }

  lemma SliceAt(s: string, i: nat, j: nat, w: string, k: nat)
    requires i <= j <= |s|
    ensures At(s[i..j], w, k) ==> At(s, w, i + k)
  {
    if At(s[i..j], w, k) {
      var there, here := s[i + k..i + k + |w|], s[i..j][k..k + |w|];
      assert forall m :: 0 <= m < |w| ==> there[m] == here[m];
    }
  }

  lemma SliceContains(s: string, i: nat, j: nat, w: string)
    requires i <= j <= |s|
    ensures Contains(s[i..j], w) ==> Contains(s, w)
  {
    if k :| 0 <= k <= j - i && At(s[i..j], w, k) {
      SliceAt(s, i, j, w, k);
    }
  }

  /** An occurrence in `a + p + b` lies in `a`, in `b`, or over some character of `p`. */
  lemma OccurrenceSplit(a: string, p: string, b: string, w: string)
    requires w != "" && p != "" && Contains(a + p + b, w)
    ensures Contains(a, w) || Contains(b, w) || Clash(w, p)
  {
    var s := a + p + b;
    var j :| 0 <= j <= |s| && At(s, w, j);
    var k := |a| - j;
    if j + |w| <= |a| {
      assert a[j..j + |w|] == s[j..j + |w|];
      assert At(a, w, j);
    } else if j >= |a| + |p| {
      var o := j - |a| - |p|;
      assert b[o..o + |w|] == s[j..j + |w|];
      assert At(b, w, o);
    } else {
      forall i | 0 <= i < |w| && k <= i < k + |p| ensures w[i] == p[i - k] {
        assert w[i] == s[j..j + |w|][i] == s[j + i];
      }
      assert Agree(w, p, k);
    }
  }

  /** The text before the leftmost occurrence of `t` holds no `t`, and no needle that `s` does not hold. */
  lemma BeforeFirst(s: string, t: string, w: string)
    requires t != "" && Index(s, t) != -1
    requires w == t || !Contains(s, w)
    ensures !Contains(s[..Index(s, t)], w)
  {
    var i := Index(s, t);
    assert s[..i] == s[0..i];
    SliceContains(s, 0, i, w);
    forall j | 0 <= j <= i ensures At(s[..i], t, j) ==> At(s, t, j) {
      SliceAt(s, 0, i, t, j);
    }
  }

  lemma AfterFirst(s: string, t: string, w: string)
    requires t != "" && Index(s, t) != -1
    ensures var i := Index(s, t); Contains(s[i + |t|..], w) ==> Contains(s, w)
  {
    var i := Index(s, t);
    assert s[i + |t|..] == s[i + |t|..|s|];
    SliceContains(s, i + |t|, |s|, w);
  }

  /**
   * Replacing `t` keeps every needle that cannot touch the replacement text absent,
   * and removes `t` itself when `t` is such a needle.
   */
  lemma {:induction false} ReplaceAbsent(s: string, t: string, p: string, w: string)
    requires t != "" && p != "" && w != "" && !Clash(w, p)
    requires w == t || !Contains(s, w)
    ensures !Contains(ReplaceAll(s, t, p), w)
    decreases |s|
  {
    var i := Index(s, t);
    if i != -1 {
      var rest := s[i + |t|..];
      AfterFirst(s, t, w);
      ReplaceAbsent(rest, t, p, w);
      BeforeFirst(s, t, w);
      NotAcross(s[..i], p, ReplaceAll(rest, t, p), w);
    }
  }

  lemma NotAcross(a: string, p: string, b: string, w: string)
    requires w != "" && p != "" && !Clash(w, p) && !Contains(a, w) && !Contains(b, w)
    ensures !Contains(a + p + b, w)
  {
    if Contains(a + p + b, w) {
      OccurrenceSplit(a, p, b, w);
    }
  }
}
