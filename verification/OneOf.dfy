/**
 * The law behind every exactly-one-of container: choosing a branch clears the others, seeds the branch from what
 * was stored under it, and overwrites only the provided fields. A container is viewed as a map from the branches
 * present to the fields each one carries; unmodeled XML counts as a field nobody provides.
 */
module OneOf {
  import opened Wrappers

  function Get<F, V>(fields: map<F, V>, f: F): Option<V> {
    if f in fields then Some(fields[f]) else None
  }

  lemma SameFields<F, V>(a: map<F, V>, b: map<F, V>)
    requires forall f :: Get(a, f) == Get(b, f)
    ensures a == b
  {
    forall f ensures f in a <==> f in b {
      assert Get(a, f) == Get(b, f);
    }
    forall f | f in a ensures a[f] == b[f] {
      assert Get(a, f) == Get(b, f);
    }
  }

  /** A field map with one optional field added. */
  function Put<F, V>(fields: map<F, V>, f: F, v: Option<V>): map<F, V> {
    if v.Some? then fields[f := v.value] else fields
  }

  function Stored<K, F, V>(m: map<K, map<F, V>>, k: K): map<F, V> {
    if k in m then m[k] else map[]
  }

  /** Capture, clear, seed, overwrite. */
  function Select<K, F, V>(m: map<K, map<F, V>>, k: K, provided: map<F, V>): map<K, map<F, V>> {
    map[k := Stored(m, k) + provided]
  }

  /** One successful update: it leaves the choice alone, or makes it. */
  datatype Edit<K, F, V> = Keep | Choose(key: K, provided: map<F, V>)

  function Step<K, F, V>(m: map<K, map<F, V>>, e: Edit<K, F, V>): map<K, map<F, V>> {
    match e
    case Keep => m
    case Choose(k, provided) => Select(m, k, provided)
  }

  function Run<K, F, V>(m: map<K, map<F, V>>, edits: seq<Edit<K, F, V>>): map<K, map<F, V>> {
    if edits == [] then m else Step(Run(m, edits[..|edits| - 1]), edits[|edits| - 1])
  }

  ghost predicate AtMostOne<K, F, V>(m: map<K, map<F, V>>) {
    forall a, b :: a in m && b in m ==> a == b
  }

  function LastChoice<K, F, V>(edits: seq<Edit<K, F, V>>): Option<K> {
    if edits == [] then None
    else if edits[|edits| - 1].Choose? then Some(edits[|edits| - 1].key)
    else LastChoice(edits[..|edits| - 1])
  }

  /** The position just past the last edit that chose a branch other than `k`; 0 when there is none. */
  function AfterLastOther<K(==), F, V>(edits: seq<Edit<K, F, V>>, k: K): (n: nat)
    ensures n <= |edits|
  {
    if edits == [] then 0
    else if edits[|edits| - 1].Choose? && edits[|edits| - 1].key != k then |edits|
    else AfterLastOther(edits[..|edits| - 1], k)
  }

  /** The value of `f` in the last edit from position `from` on that provides it. */
  function LastSupplied<K, F, V>(edits: seq<Edit<K, F, V>>, from: nat, f: F): Option<V> {
    if |edits| <= from then None
    else
      var e := edits[|edits| - 1];
      if e.Choose? && f in e.provided then Some(e.provided[f]) else LastSupplied(edits[..|edits| - 1], from, f)
  }

  lemma {:induction false} RunConcat<K, F, V>(m: map<K, map<F, V>>, a: seq<Edit<K, F, V>>, b: seq<Edit<K, F, V>>)
    ensures Run(m, a + b) == Run(Run(m, a), b)
  {
    if b == [] {
      assert a + b == a;
    } else {
      var front := b[..|b| - 1];
      assert (a + b)[..|a + b| - 1] == a + front;
      RunConcat(m, a, front);
    }
  }

  /** Starting from at most one branch, every run ends with at most one: the last one chosen, if any was. */
  lemma {:induction false} RunKeepsOne<K, F, V>(m: map<K, map<F, V>>, edits: seq<Edit<K, F, V>>)
    ensures AtMostOne(m) ==> AtMostOne(Run(m, edits))
    ensures LastChoice(edits).Some? ==> Run(m, edits).Keys == {LastChoice(edits).value}
    ensures LastChoice(edits).None? ==> Run(m, edits) == m
  {
    if edits != [] {
      RunKeepsOne(m, edits[..|edits| - 1]);
    }
  }

  /**
   * Every field of a surviving branch is the last value supplied since that branch was last switched to; when it
   * was never switched away from, an unsupplied field is the one stored at the start.
   */
  lemma {:induction false} RunHistory<K, F, V>(m: map<K, map<F, V>>, edits: seq<Edit<K, F, V>>, k: K, f: F)
    requires k in Run(m, edits)
    ensures var since := AfterLastOther(edits, k);
            var supplied := LastSupplied(edits, since, f);
            Get(Run(m, edits)[k], f)
            == if supplied.Some? then supplied else if since == 0 then Get(Stored(m, k), f) else None
  {
    if edits != [] {
      var front, last := edits[..|edits| - 1], edits[|edits| - 1];
      if k in Run(m, front) {
        RunHistory(m, front, k, f);
      } else {
        AbsentMeansSwitchedAway(m, front, k);
        assert last.Choose? && last.key == k;
        NothingSuppliedAfter(front, |front|, f);
      }
    }
  }

  lemma NothingSuppliedAfter<K, F, V>(edits: seq<Edit<K, F, V>>, from: nat, f: F)
    requires |edits| <= from
    ensures LastSupplied(edits, from, f) == None
  {
  }

  /** A branch is absent only when the last choice was another one, or when it was never stored or chosen. */
  lemma {:induction false} AbsentMeansSwitchedAway<K, F, V>(m: map<K, map<F, V>>, edits: seq<Edit<K, F, V>>, k: K)
    requires k !in Run(m, edits)
    ensures LastChoice(edits).Some? ==> LastChoice(edits).value != k
    ensures LastChoice(edits).Some? ==> 0 < AfterLastOther(edits, k)
    ensures forall f :: LastSupplied(edits, AfterLastOther(edits, k), f) == None
    ensures LastChoice(edits).None? ==> k !in m && AfterLastOther(edits, k) == 0
  {
    if edits != [] && edits[|edits| - 1].Keep? {
      AbsentMeansSwitchedAway(m, edits[..|edits| - 1], k);
    }
  }

  /** The same choice made twice is the choice made once. */
  lemma SelectIdempotent<K, F, V>(m: map<K, map<F, V>>, k: K, provided: map<F, V>)
    ensures Select(Select(m, k, provided), k, provided) == Select(m, k, provided)
  {
    var once := Stored(m, k) + provided;
    assert once + provided == once;
  }
}
