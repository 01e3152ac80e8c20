/** First occurrences, membership tests and first-seen order, shared by every grouping loop. */
module Sequences {

  ghost predicate Distinct<T>(s: seq<T>) {
    forall i, j :: 0 <= i < j < |s| ==> s[i] != s[j]
  }

  /** The index of the first occurrence at or after `i`, or the length when there is none. */
  function FirstFrom<T(==)>(s: seq<T>, x: T, i: nat): (r: nat)
    requires i <= |s|
    ensures i <= r <= |s| && forall k :: i <= k < r ==> s[k] != x
    ensures r < |s| ==> s[r] == x
    decreases |s| - i
  {
    if i == |s| || s[i] == x then i else FirstFrom(s, x, i + 1)
  }

  /** The index of the first occurrence, or the length when there is none. */
  function First<T(==)>(s: seq<T>, x: T): (r: nat)
    ensures r <= |s| && forall k :: 0 <= k < r ==> s[k] != x
    ensures r < |s| ==> s[r] == x
    ensures r == |s| <==> x !in s
  {
    FirstFrom(s, x, 0)
  }

  /** The elements of `s` without repetition, in the order of their first occurrence. */
  function FirstSeen<T(==)>(s: seq<T>): seq<T> {
    if s == [] then []
    else
      var front, last := FirstSeen(s[..|s| - 1]), s[|s| - 1];
      if last in front then front else front + [last]
  }

  lemma {:induction false} FirstSeenMembers<T>(s: seq<T>, x: T)
    ensures x in FirstSeen(s) <==> x in s
  {
    if s != [] {
      var front := s[..|s| - 1];
      FirstSeenMembers(front, x);
      FirstSeenMembers(front, s[|s| - 1]);
      assert s == front + [s[|s| - 1]];
    }
  }

  lemma {:induction false} FirstSeenDistinct<T>(s: seq<T>)
    ensures Distinct(FirstSeen(s))
  {
    if s != [] {
      FirstSeenDistinct(s[..|s| - 1]);
    }
  }

  lemma FirstPrefix<T>(s: seq<T>, n: nat, x: T)
    requires n <= |s| && x in s[..n]
    ensures First(s, x) == First(s[..n], x) < n
  {
    assert forall k :: 0 <= k < n ==> s[..n][k] == s[k];
  }

  /** First-seen order is the order of first occurrences. */
  lemma {:induction false} FirstSeenOrdered<T>(s: seq<T>, i: nat, j: nat)
    requires i < j < |FirstSeen(s)|
    ensures First(s, FirstSeen(s)[i]) < First(s, FirstSeen(s)[j]) < |s|
  {
    var m := |s| - 1;
    var front, last := FirstSeen(s[..m]), s[m];
    FirstSeenMembers(s[..m], front[i]);
    FirstPrefix(s, m, front[i]);
    if j < |front| {
      FirstSeenMembers(s[..m], front[j]);
      FirstPrefix(s, m, front[j]);
      FirstSeenOrdered(s[..m], i, j);
    } else {
      FirstSeenMembers(s[..m], last);
      assert forall k :: 0 <= k < m ==> s[..m][k] == s[k];
    }
  }

  lemma SplitLast<T>(a: seq<T>, b: seq<T>)
    requires b != []
    ensures b == b[..|b| - 1] + [b[|b| - 1]]
    ensures a + b == a + b[..|b| - 1] + [b[|b| - 1]]
  {
  }

  lemma SplitFirst<T>(s: seq<T>)
    requires s != []
    ensures s == [s[0]] + s[1..]
  {
  }

  lemma PrefixPush<T>(s: seq<T>, i: nat)
    requires i < |s|
    ensures s[..i + 1] == s[..i] + [s[i]]
  {
  }

  lemma Associates<T>(a: seq<T>, b: seq<T>, c: seq<T>)
    ensures a + b + c == a + (b + c)
  {
  }

  lemma InsertMembers<T>(s: seq<T>, x: T, i: nat, y: T)
    requires i <= |s|
    ensures y in s[..i] + [x] + s[i..] <==> y == x || y in s
  {
    assert s == s[..i] + s[i..];
  }

  /** A new element put into a sequence without repetition. */
  lemma InsertDistinct<T>(s: seq<T>, x: T, i: nat)
    requires Distinct(s) && x !in s && i <= |s|
    ensures Distinct(s[..i] + [x] + s[i..]) && First(s[..i] + [x] + s[i..], x) == i
  {
    var t := s[..i] + [x] + s[i..];
    forall j, k | 0 <= j < k < |t| ensures t[j] != t[k] {
      assert j != i ==> t[j] == s[if j < i then j else j - 1];
      assert k != i ==> t[k] == s[if k < i then k else k - 1];
    }
    assert t[i] == x;
    assert t[First(t, x)] == x;
  }

  /** Two sequences agree on their first `n` elements; said one element at a time to keep it out of the solver's way. */
  ghost predicate SameUpTo<T>(a: seq<T>, b: seq<T>, n: nat)
    requires n <= |a| && n <= |b|
  {
    n > 0 ==> SameUpTo(a, b, n - 1) && a[n - 1] == b[n - 1]
  }

  lemma {:induction false} SameAt<T>(a: seq<T>, b: seq<T>, n: nat, i: nat)
    requires i < n <= |a| && n <= |b| && SameUpTo(a, b, n)
    ensures a[i] == b[i]
  {
    if i < n - 1 {
      SameAt(a, b, n - 1, i);
    }
  }

  lemma {:induction false} SameItself<T>(a: seq<T>, n: nat)
    requires n <= |a|
    ensures SameUpTo(a, a, n)
  {
    if n > 0 {
      SameItself(a, n - 1);
    }
  }
}
