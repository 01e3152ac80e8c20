/** Pages of a log: the byte budget and its greedy cut, unmatched names, and following next_skip to the end. */
module Paging {
  import opened Wrappers
  import opened Sequences

  const MAX_LOG_COUNT := 500
  const LOG_RESULT_BUDGET := 262144

  // ----- Sizes in bytes -----

  /** The bytes of a character in UTF-8. */
  function Utf8Width(c: char): (n: nat)
    ensures 1 <= n <= 4
  {
    if c as int < 0x80 then 1 else if c as int < 0x800 then 2 else if c as int < 0x10000 then 3 else 4
  }

  /** How many bits `n` bytes of UTF-8 can carry: seven in one, and else five and six for each byte. */
  function Payload(n: nat): nat {
    if n == 1 then 7 else 5 * n + 1
  }

  function PowerOfTwo(n: nat): nat {
    if n == 0 then 1 else 2 * PowerOfTwo(n - 1)
  }

  lemma Powers()
    ensures PowerOfTwo(7) == 0x80 && PowerOfTwo(11) == 0x800 && PowerOfTwo(16) == 0x10000
    ensures PowerOfTwo(21) == 0x200000
  {
    assert PowerOfTwo(4) == 16 && PowerOfTwo(7) == 128;
    assert PowerOfTwo(9) == 512 && PowerOfTwo(11) == 2048;
    assert PowerOfTwo(13) == 8192 && PowerOfTwo(16) == 65536;
    assert PowerOfTwo(18) == 262144 && PowerOfTwo(21) == 2097152;
  }

  /** A character takes the fewest bytes that can carry it. */
  lemma WidthIsLeast(c: char, n: nat)
    requires 1 <= n <= 4
    ensures c as int < PowerOfTwo(Payload(n)) <==> Utf8Width(c) <= n
  {
    Powers();
  }

  function BytesOfFirst(s: string, n: nat): nat
    requires n <= |s|
  {
    if n == 0 then 0 else BytesOfFirst(s, n - 1) + Utf8Width(s[n - 1])
  }

  /** The length of a text in UTF-8. */
  function Bytes(s: string): nat {
    BytesOfFirst(s, |s|)
  }

  /** The bytes of the first `n` texts. */
  function Size(texts: seq<string>, n: nat): nat
    requires n <= |texts|
  {
    if n == 0 then 0 else Size(texts, n - 1) + Bytes(texts[n - 1])
  }

  lemma {:induction false} BytesAppend(s: string, t: string, n: nat)
    requires n <= |t|
    ensures BytesOfFirst(s + t, |s| + n) == Bytes(s) + BytesOfFirst(t, n)
  {
    if n == 0 {
      BytesOfPrefix(s, t, |s|);
    } else {
      BytesAppend(s, t, n - 1);
    }
  }

  lemma {:induction false} BytesOfPrefix(s: string, t: string, n: nat)
    requires n <= |s|
    ensures BytesOfFirst(s + t, n) == BytesOfFirst(s, n)
  {
    if n > 0 {
      BytesOfPrefix(s, t, n - 1);
    }
  }

  /** The texts one after another. */
  function Concat(texts: seq<string>, n: nat): string
    requires n <= |texts|
  {
    if n == 0 then "" else Concat(texts, n - 1) + texts[n - 1]
  }

  /** The size of some texts is the length in bytes of all of them together; an empty text has none. */
  lemma {:induction false} SizeIsLength(texts: seq<string>, n: nat)
    requires n <= |texts|
    ensures Size(texts, n) == Bytes(Concat(texts, n))
    ensures Size(texts, 0) == Bytes("") == 0
  {
    if n > 0 {
      SizeIsLength(texts, n - 1);
      BytesAppend(Concat(texts, n - 1), texts[n - 1], |texts[n - 1]|);
    }
  }

  // ----- The cut -----

  /** How many of the first `n` texts make the page: all of them, or as many as fit, but never none of some. */
  function Fit(texts: seq<string>, n: nat): (k: nat)
    requires n <= |texts|
    ensures k <= n && (n > 0 ==> k > 0)
  {
    if n <= 1 then n
    else
      var k := Fit(texts, n - 1);
      if k == n - 1 && Size(texts, n) <= LOG_RESULT_BUDGET then n else k
  }

  lemma {:induction false} SizeMonotone(texts: seq<string>, k: nat, n: nat)
    requires k <= n <= |texts|
    ensures Size(texts, k) <= Size(texts, n)
  {
    if k < n {
      SizeMonotone(texts, k, n - 1);
    }
  }

  /** The cut is greedy: a page of several entries fits the budget, and no longer page would. */
  lemma {:induction false} FitIsGreedy(texts: seq<string>, n: nat)
    requires n <= |texts|
    ensures Fit(texts, n) > 1 ==> Size(texts, Fit(texts, n)) <= 256 * 1024
    ensures forall k :: Fit(texts, n) < k <= n ==> Size(texts, k) > 256 * 1024
  {
    if n > 1 {
      FitIsGreedy(texts, n - 1);
      SizeMonotone(texts, n - 1, n);
    }
  }

  /** The state of the encoding loop after the first `i` texts. */
  predicate CutSoFar(texts: seq<string>, i: nat, out: seq<string>, size: nat, truncated: bool)
    requires i <= |texts|
  {
    out == texts[..Fit(texts, i)] && size == Size(texts, |out|) && (truncated <==> |out| < i)
  }

  /** One more text, when the page is not cut yet. */
  lemma CutStep(texts: seq<string>, i: nat, out: seq<string>, size: nat)
    requires i < |texts| && CutSoFar(texts, i, out, size, false)
    ensures if i > 0 && size + Bytes(texts[i]) > LOG_RESULT_BUDGET then CutSoFar(texts, i + 1, out, size, true)
            else CutSoFar(texts, i + 1, out + [texts[i]], size + Bytes(texts[i]), false)
  {
    assert texts[..i + 1] == texts[..i] + [texts[i]];
  }

  lemma CutStays(texts: seq<string>, i: nat, out: seq<string>, size: nat)
    requires i < |texts| && CutSoFar(texts, i, out, size, true)
    ensures CutSoFar(texts, i + 1, out, size, true)
  {
  }

  // ----- Unmatched names -----

  /** The requested names nothing matched, each once, in request order. */
  function Missing(names: seq<string>, keys: set<string>): seq<string> {
    if names == [] then []
    else
      var last := names[|names| - 1];
      Missing(names[..|names| - 1], keys) + if last in keys then [] else [last]
  }

  lemma {:induction false} MissingMembers(names: seq<string>, keys: set<string>, f: string)
    ensures f in Missing(names, keys) <==> f in names && f !in keys
  {
    if names != [] {
      MissingMembers(names[..|names| - 1], keys, f);
      assert names == names[..|names| - 1] + [names[|names| - 1]];
    }
  }

  method UnmatchedFields(fields: seq<string>, matched: set<string>) returns (unmatched: seq<string>)
    ensures unmatched == Missing(FirstSeen(fields), matched)
  {
    unmatched := [];
    for i := 0 to |fields|
      invariant unmatched == Missing(FirstSeen(fields[..i]), matched)
    {
      var f := fields[i];
      var seen := FirstSeen(fields[..i]);
      assert fields[..i + 1][..i] == fields[..i];
      assert (seen + [f])[..|seen|] == seen;
      MissingMembers(seen, matched, f);
      if f !in matched && f !in unmatched {
        unmatched := unmatched + [f];
      }
    }
    assert fields[..|fields|] == fields;
  }

  lemma {:induction false} SameMissing(names: seq<string>, a: set<string>, b: set<string>)
    requires forall f :: f in names ==> (f in a <==> f in b)
    ensures Missing(names, a) == Missing(names, b)
  {
    if names != [] {
      assert names[|names| - 1] in names;
      SameMissing(names[..|names| - 1], a, b);
    }
  }

  /** Taking the matched names out keeps the rest without repetition and in request order. */
  lemma {:induction false} MissingOrdered(names: seq<string>, keys: set<string>, i: nat, j: nat)
    requires Distinct(names) && i < j < |Missing(names, keys)|
    ensures First(names, Missing(names, keys)[i]) < First(names, Missing(names, keys)[j])
  {
    var m := |names| - 1;
    var front := Missing(names[..m], keys);
    MissingMembers(names[..m], keys, front[i]);
    FirstPrefix(names, m, front[i]);
    if j < |front| {
      MissingMembers(names[..m], keys, front[j]);
      FirstPrefix(names, m, front[j]);
      MissingOrdered(names[..m], keys, i, j);
    } else {
      assert names[m] == Missing(names, keys)[j];
      assert First(names, names[m]) == m;
    }
  }

  // ----- One page -----

  /** The keys found in the first `n` entries. */
  function AllKeys(keys: seq<set<string>>, n: nat): set<string>
    requires n <= |keys|
  {
    if n == 0 then {} else AllKeys(keys, n - 1) + keys[n - 1]
  }

  lemma {:induction false} KeyInSome(keys: seq<set<string>>, n: nat, k: string)
    requires n <= |keys|
    ensures k in AllKeys(keys, n) <==> exists i :: 0 <= i < n && k in keys[i]
  {
    if n > 0 {
      KeyInSome(keys, n - 1, k);
    }
  }

  datatype Page = Page(
    skip: int, entries: seq<string>, nextSkip: Option<int>, truncated: bool, unmatched: seq<string>)

  /** The entries of a page: the greedy prefix of what the device returned. */
  function PageTexts(texts: seq<string>): (page: seq<string>)
    ensures page <= texts && (texts != [] ==> page != [])
  {
    texts[..Fit(texts, |texts|)]
  }

  /** Where to go on after a page of `n` of the device's `total` entries, if it was cut or is full. */
  function NextSkip(skip: int, n: nat, total: nat, nlogs: nat): Option<int> {
    if n < total || total >= nlogs then Some(skip + n) else None
  }

  /** The page there should be for the device's entries, given their texts and their keys. */
  function PageOf(skip: int, nlogs: nat, fields: seq<string>, texts: seq<string>, keys: seq<set<string>>): Page {
    var page := PageTexts(texts);
    Page(skip, page, NextSkip(skip, |page|, |texts|, nlogs), |page| < |texts|,
         if texts == [] then [] else Missing(FirstSeen(fields), AllKeys(keys, |keys|)))
  }

  /** The response, once its parts are known. */
  method Assemble(
      skip: int, nlogs: nat, total: nat, out: seq<string>, truncated: bool, unmatched: seq<string>,
      ghost fields: seq<string>, ghost texts: seq<string>, ghost keys: seq<set<string>>)
    returns (page: Page)
    requires total == |texts| && out == PageTexts(texts) && (truncated <==> |out| < total)
    requires unmatched == if texts == [] then [] else Missing(FirstSeen(fields), AllKeys(keys, |keys|))
    ensures page == PageOf(skip, nlogs, fields, texts, keys)
  {
    var next := None;
    if truncated || total >= nlogs {
      next := Some(skip + |out|);
    }
    page := Page(skip, out, next, truncated, unmatched);
  }

  /**
   * The unmatched names are exactly the requested ones that are a key of no device entry, cut ones included, without
   * repetition.
   */
  lemma UnmatchedExact(
      skip: int, nlogs: nat, fields: seq<string>, texts: seq<string>, keys: seq<set<string>>, f: string)
    requires texts != []
    ensures f in PageOf(skip, nlogs, fields, texts, keys).unmatched
            <==> f in fields && forall i :: 0 <= i < |keys| ==> f !in keys[i]
  {
    FirstSeenMembers(fields, f);
    MissingMembers(FirstSeen(fields), AllKeys(keys, |keys|), f);
    KeyInSome(keys, |keys|, f);
  }

  lemma UnmatchedOrdered(
      skip: int, nlogs: nat, fields: seq<string>, texts: seq<string>, keys: seq<set<string>>, i: nat, j: nat)
    requires texts != [] && i < j < |PageOf(skip, nlogs, fields, texts, keys).unmatched|
    ensures var unmatched := PageOf(skip, nlogs, fields, texts, keys).unmatched;
            First(fields, unmatched[i]) < First(fields, unmatched[j])
  {
    var seen, all := FirstSeen(fields), AllKeys(keys, |keys|);
    var unmatched := Missing(seen, all);
    FirstSeenDistinct(fields);
    MissingOrdered(seen, all, i, j);
    MissingMembers(seen, all, unmatched[i]);
    MissingMembers(seen, all, unmatched[j]);
    FirstSeenOrdered(fields, First(seen, unmatched[i]), First(seen, unmatched[j]));
  }

  /** What a page says of itself: whether it was cut, and where to go on if it was or if it is full. */
  lemma PageSays(skip: int, nlogs: nat, fields: seq<string>, texts: seq<string>, keys: seq<set<string>>)
    ensures var page := PageOf(skip, nlogs, fields, texts, keys);
            && page.skip == skip && page.entries <= texts
            && (page.truncated <==> |page.entries| < |texts|)
            && (page.nextSkip == if |page.entries| < |texts| || |texts| >= nlogs then Some(skip + |page.entries|)
                                 else None)
            && (texts == [] ==> page.unmatched == [])
  {
  }

  // ----- Following next_skip -----

  /** What the device returns of a log that does not change. */
  function Window<E>(log: seq<E>, skip: nat, nlogs: nat): seq<E> {
    if skip >= |log| then [] else if |log| - skip <= nlogs then log[skip..] else log[skip..skip + nlogs]
  }

  function Left<E>(log: seq<E>, skip: nat): nat {
    if skip < |log| then |log| - skip else 0
  }

  /** Every request asks for a number of entries the tool accepts. */
  ghost predicate Asks(ask: nat -> nat) {
    forall k :: 1 <= ask(k) <= MAX_LOG_COUNT
  }

  /** What a client collects that follows next_skip, asking for as many entries as it likes each time. */
  function Follow(log: seq<string>, skip: nat, ask: nat -> nat): seq<string>
    requires Asks(ask)
    decreases Left(log, skip)
  {
    var texts := Window(log, skip, ask(skip));
    var page := PageTexts(texts);
    var next := NextSkip(skip, |page|, |texts|, ask(skip));
    page + if next.Some? then Follow(log, next.value, ask) else []
  }

  /** The texts from `skip` on. */
  function From(log: seq<string>, skip: nat): seq<string> {
    if skip < |log| then log[skip..] else []
  }

  lemma FirstPage(log: seq<string>, skip: nat, nlogs: nat)
    requires nlogs > 0
    ensures var texts := Window(log, skip, nlogs);
            var page := PageTexts(texts);
            && From(log, skip) == page + From(log, skip + |page|)
            && match NextSkip(skip, |page|, |texts|, nlogs)
               case Some(next) => skip < next == skip + |page| <= |log|
               case None => From(log, skip + |page|) == []
  {
    var texts := Window(log, skip, nlogs);
    var page := PageTexts(texts);
    assert skip < |log| ==> page == log[skip..][..|page|];
  }

  /** Following next_skip ends, and the pages put together are every entry from the start, once each and in order. */
  lemma {:induction false} PagingLosesNothing(log: seq<string>, skip: nat, ask: nat -> nat)
    requires Asks(ask)
    ensures Follow(log, skip, ask) == From(log, skip)
    decreases Left(log, skip)
  {
    var texts := Window(log, skip, ask(skip));
    var next := NextSkip(skip, |PageTexts(texts)|, |texts|, ask(skip));
    FirstPage(log, skip, ask(skip));
    if next.Some? {
      PagingLosesNothing(log, next.value, ask);
    }
  }
}
