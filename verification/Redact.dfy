/**
 * Scrubbing of device error messages (`redactSecrets`): every known secret is replaced in turn, and the
 * raw-response fallback is collapsed. The main theorem says for exactly which secrets the replacement is a
 * guarantee, whatever the message and whatever the other secrets.
 */
module Redact {
  import opened Text

  const PLACEHOLDER := "[REDACTED]"
  const MARKER := "(raw response:"
  const COLLAPSE_TAIL := MARKER + " [redacted])"

  /** The replacements alone, one secret after the other; an empty secret is skipped. */
  function Scrub(msg: string, secrets: seq<string>): string
    decreases |secrets|
  {
    if secrets == [] then msg
    else Scrub(if secrets[0] == "" then msg else ReplaceAll(msg, secrets[0], PLACEHOLDER), secrets[1..])
  }

  /** The scrubbed message; with `collapse`, cut at the first marker, which is located before any replacement. */
  function Redacted(msg: string, secrets: seq<string>, collapse: bool): string {
    var i := Index(msg, MARKER);
    if collapse && i != -1 then Scrub(msg[..i], secrets) + COLLAPSE_TAIL else Scrub(msg, secrets)
  }

  method RedactSecrets(message: string, secrets: seq<string>, collapse: bool) returns (out: string)
    ensures out == Redacted(message, secrets, collapse)
  {
    var msg, tail := message, "";
    if collapse {
      var i := Index(msg, MARKER);
      if i >= 0 {
        msg, tail := msg[..i], COLLAPSE_TAIL;
      }
    }
    ghost var prefix := msg;
    for n := 0 to |secrets|
      invariant Scrub(prefix, secrets) == Scrub(msg, secrets[n..])
    {
      if secrets[n] != "" {
        msg := ReplaceAll(msg, secrets[n], PLACEHOLDER);
      }
      assert secrets[n..][1..] == secrets[n + 1..];
    }
    out := msg + tail;
    assert tail == "" ==> out == msg;
  }

  // ----- What the replacements guarantee -----

  lemma {:induction false} ScrubKeepsAbsent(msg: string, secrets: seq<string>, w: string)
    requires w != "" && !Clash(w, PLACEHOLDER) && !Contains(msg, w)
    ensures !Contains(Scrub(msg, secrets), w)
    decreases |secrets|
  {
    if secrets != [] {
      if secrets[0] == "" {
        ScrubKeepsAbsent(msg, secrets[1..], w);
      } else {
        ReplaceAbsent(msg, secrets[0], PLACEHOLDER, w);
        ScrubKeepsAbsent(ReplaceAll(msg, secrets[0], PLACEHOLDER), secrets[1..], w);
      }
    }
  }

  lemma {:induction false} ScrubRemoves(msg: string, secrets: seq<string>, w: string)
    requires w != "" && !Clash(w, PLACEHOLDER) && w in secrets
    ensures !Contains(Scrub(msg, secrets), w)
    decreases |secrets|
  {
    var next := if secrets[0] == "" then msg else ReplaceAll(msg, secrets[0], PLACEHOLDER);
    if secrets[0] == w {
      ReplaceAbsent(msg, w, PLACEHOLDER, w);
      ScrubKeepsAbsent(next, secrets[1..], w);
    } else {
      ScrubRemoves(next, secrets[1..], w);
    }
  }

  lemma DisjointNoClash(w: string, p: string)
    requires w != "" && p != "" && forall i :: 0 <= i < |w| ==> w[i] !in p
    ensures !Clash(w, p)
  {
    forall k | -|p| < k < |w| ensures !Agree(w, p, k) {
      var i := if k < 0 then 0 else k;
      assert w[i] != p[i - k];
    }
  }

  lemma MarkerAloof()
    ensures !Clash(MARKER, PLACEHOLDER)
  {
    DisjointNoClash(MARKER, PLACEHOLDER);
  }

  // ----- Exactly which secrets are guaranteed to disappear -----

  /** The collapse tail can follow a marker-free text so that the secret ends inside it. */
  ghost predicate TailClash(s: string) {
    exists k :: |s| - |COLLAPSE_TAIL| <= k < |s| && Agree(s, COLLAPSE_TAIL, k) && !Contains(Before(s, k), MARKER)
  }

  function Floor(k: int): (n: nat) {
    if k < 0 then 0 else k
  }

  /** A check on the secret alone, before any message exists. */
  ghost predicate Scrubbable(s: string, collapse: bool) {
    && (Clash(s, PLACEHOLDER) ==> collapse && Contains(s, MARKER))
    && (collapse ==> !TailClash(s))
  }

  /** Listed as a secret, `s` is absent from every redacted message, whatever else is listed, in any order. */
  ghost predicate AlwaysScrubbed(s: string, collapse: bool) {
    forall msg, secrets :: s in secrets ==> !Contains(Redacted(msg, secrets, collapse), s)
  }

  lemma TailOccurrence(r: string, s: string)
    requires s != "" && !Contains(r, s) && !Contains(r, MARKER) && !TailClash(s)
    ensures !Contains(r + COLLAPSE_TAIL, s)
  {
    var out := r + COLLAPSE_TAIL;
    if Contains(out, s) {
      var j :| 0 <= j <= |out| && At(out, s, j);
      var k := |r| - j;
      if j + |s| <= |r| {
        assert r[j..j + |s|] == out[j..j + |s|];
        assert At(r, s, j);
      } else {
        forall i | 0 <= i < |s| && k <= i < k + |COLLAPSE_TAIL| ensures s[i] == COLLAPSE_TAIL[i - k] {
          assert s[i] == out[j..j + |s|][i] == out[j + i];
        }
        assert Agree(s, COLLAPSE_TAIL, k);
        if k > 0 {
          var here := r[j..];
          assert forall m :: 0 <= m < k ==> here[m] == out[j + m] == out[j..j + |s|][m];
          assert s[..k] == here == r[j..|r|];
          SliceContains(r, j, |r|, MARKER);
        }
      }
    }
  }

  lemma ScrubbableIsScrubbed(msg: string, secrets: seq<string>, s: string, collapse: bool)
    requires s != "" && s in secrets && Scrubbable(s, collapse)
    ensures !Contains(Redacted(msg, secrets, collapse), s)
  {
    var i := Index(msg, MARKER);
    MarkerAloof();
    if collapse {
      var prefix := if i != -1 then msg[..i] else msg;
      if i != -1 {
        BeforeFirst(msg, MARKER, MARKER);
      }
      ScrubKeepsAbsent(prefix, secrets, MARKER);
      var r := Scrub(prefix, secrets);
      if Clash(s, PLACEHOLDER) {
        HoldsMarker(r, s);
      } else {
        ScrubRemoves(prefix, secrets, s);
      }
      TailOccurrence(r, s);
    } else {
      ScrubRemoves(msg, secrets, s);
    }
  }

  lemma HoldsMarker(r: string, s: string)
    requires Contains(s, MARKER) && !Contains(r, MARKER)
    ensures !Contains(r, s)
  {
    if j :| 0 <= j <= |r| && At(r, s, j) {
      SliceContains(r, j, j + |s|, MARKER);
    }
  }

  // ----- The other half: a message that leaks any other secret -----

  function Ones(n: nat): (s: string)
    ensures |s| == n && forall i :: 0 <= i < n ==> s[i] == '1'
  {
    seq(n, i => '1')
  }

  /** A second secret longer than `s` and free of overlaps with itself. */
  function Filler(s: string): string {
    "0" + Ones(|s|)
  }

  /** What precedes and what follows `p` when it is laid over `s` at `k`. */
  function Before(s: string, k: int): string
    requires k < |s|
  {
    s[..Floor(k)]
  }

  function After(s: string, p: string, k: int): string
    requires -|p| < k
  {
    if k + |p| < |s| then s[k + |p|..] else ""
  }

  lemma Stitched(s: string, p: string, k: int)
    requires s != "" && -|p| < k < |s| && Agree(s, p, k)
    ensures Contains(Before(s, k) + p + After(s, p, k), s)
  {
    var out := Before(s, k) + p + After(s, p, k);
    var j := Floor(-k);
    forall i | 0 <= i < |s| ensures out[j + i] == s[i] {
      if k <= i < k + |p| {
        assert out[j + i] == p[i - k];
      }
    }
    assert out[j..j + |s|] == s;
    assert At(out, s, j);
  }

  /** Listed before a filler, `s` is gone when the filler's placeholder puts it together again. */
  lemma LeakThroughPlaceholder(s: string, k: int)
    requires s != "" && -|PLACEHOLDER| < k < |s| && Agree(s, PLACEHOLDER, k)
    ensures Contains(Scrub(Before(s, k) + Filler(s) + After(s, PLACEHOLDER, k), [s, Filler(s)]), s)
  {
    var x, b, y := Before(s, k), Filler(s), After(s, PLACEHOLDER, k);
    var m := x + b + y;
    FillerHidesSecret(s, k);
    assert ReplaceAll(m, s, PLACEHOLDER) == m;
    FillerReplaced(x, y, s);
    assert [s, b][1..] == [b] && [b][1..] == [];
    assert Scrub(m, [s, b]) == Scrub(m, [b]) == x + PLACEHOLDER + y;
    Stitched(s, PLACEHOLDER, k);
  }

  lemma FillerAddsNoMarker(s: string, k: int)
    requires s != "" && -|PLACEHOLDER| < k < |s| && !Contains(s, MARKER)
    ensures !Contains(Before(s, k) + Filler(s) + After(s, PLACEHOLDER, k), MARKER)
  {
    var e := if k + |PLACEHOLDER| < |s| then k + |PLACEHOLDER| else |s|;
    assert Before(s, k) == s[0..Floor(k)] && After(s, PLACEHOLDER, k) == s[e..|s|];
    SliceContains(s, 0, Floor(k), MARKER);
    SliceContains(s, e, |s|, MARKER);
    DisjointNoClash(MARKER, Filler(s));
    NotAcross(Before(s, k), Filler(s), After(s, PLACEHOLDER, k), MARKER);
  }

  lemma FillerHidesSecret(s: string, k: int)
    requires s != "" && -|PLACEHOLDER| < k < |s| && Agree(s, PLACEHOLDER, k)
    ensures !Contains(Before(s, k) + Filler(s) + After(s, PLACEHOLDER, k), s)
  {
    var e := if k + |PLACEHOLDER| < |s| then k + |PLACEHOLDER| else |s|;
    var x, b, y := Before(s, k), Filler(s), After(s, PLACEHOLDER, k);
    var m := x + b + y;
    assert forall i :: 0 <= i < |PLACEHOLDER| ==> PLACEHOLDER[i] != '0' && PLACEHOLDER[i] != '1';
    forall j | 0 <= j <= |m| - |s| ensures !At(m, s, j) {
      // One end of the overlap with the placeholder would have to fall inside the filler.
      var i := if j < |b| then |x| else e - 1;
      assert s[i] == PLACEHOLDER[i - k];
      assert m[j + i] == b[j + i - |x|];
      assert m[j..j + |s|][i] == m[j + i];
    }
  }

  lemma FillerReplaced(x: string, y: string, s: string)
    requires |x| <= |s| && |y| <= |s|
    ensures ReplaceAll(x + Filler(s) + y, Filler(s), PLACEHOLDER) == x + PLACEHOLDER + y
  {
    var b := Filler(s);
    var m := x + b + y;
    assert m[|x|..|x| + |b|] == b;
    assert At(m, b, |x|);
    forall j | 0 <= j < |x| ensures !At(m, b, j) {
      assert m[|x|] == '0' && b[|x| - j] == '1';
      assert j + |b| <= |m| ==> m[j..j + |b|][|x| - j] == m[|x|];
    }
    assert Index(m, b) == |x|;
    assert m[..|x|] == x && m[|x| + |b|..] == y;
    assert ReplaceAll(y, b, PLACEHOLDER) == y;
  }

  lemma LeakThroughTail(s: string, k: int)
    requires s != "" && |s| - |COLLAPSE_TAIL| <= k < |s| && Agree(s, COLLAPSE_TAIL, k)
    requires !Contains(Before(s, k), MARKER)
    ensures Contains(Redacted(Before(s, k) + MARKER, [s], true), s)
  {
    var x := Before(s, k);
    MarkerFirstAt(x, "");
    assert x + MARKER + "" == x + MARKER && (x + MARKER)[..|x|] == x;
    assert !Contains(x, s) && [s][1..] == [];
    assert Scrub(x, [s]) == Scrub(x, []) == x;
    Stitched(s, COLLAPSE_TAIL, k);
    assert x + COLLAPSE_TAIL + "" == x + COLLAPSE_TAIL;
  }

  lemma MarkerFirstAt(x: string, body: string)
    requires !Contains(x, MARKER)
    ensures Index(x + MARKER + body, MARKER) == |x|
  {
    var m := x + MARKER + body;
    assert m[|x|..|x| + |MARKER|] == MARKER;
    assert At(m, MARKER, |x|);
    forall j | 0 <= j < |x| ensures !At(m, MARKER, j) {
      if j + |MARKER| <= |x| {
        assert m[j..j + |MARKER|] == x[j..j + |MARKER|];
        assert !At(x, MARKER, j);
      } else {
        assert j + |MARKER| <= |m| ==> m[j..j + |MARKER|][|x| - j] == m[|x|] == '(';
        assert MARKER[|x| - j] != '(';
      }
    }
  }

  /** The replacement is a guarantee for exactly the secrets that cannot be stitched together from its own output. */
  lemma ScrubGuarantee(s: string, collapse: bool)
    requires s != ""
    ensures AlwaysScrubbed(s, collapse) <==> Scrubbable(s, collapse)
  {
    if Scrubbable(s, collapse) {
      forall msg, secrets | s in secrets ensures !Contains(Redacted(msg, secrets, collapse), s) {
        ScrubbableIsScrubbed(msg, secrets, s, collapse);
      }
    } else if Clash(s, PLACEHOLDER) && !(collapse && Contains(s, MARKER)) {
      var k :| -|PLACEHOLDER| < k < |s| && Agree(s, PLACEHOLDER, k);
      LeakThroughPlaceholder(s, k);
      if collapse {
        FillerAddsNoMarker(s, k);
      }
      var msg := Before(s, k) + Filler(s) + After(s, PLACEHOLDER, k);
      assert Contains(Redacted(msg, [s, Filler(s)], collapse), s);
    } else {
      var k :| |s| - |COLLAPSE_TAIL| <= k < |s| && Agree(s, COLLAPSE_TAIL, k) && !Contains(Before(s, k), MARKER);
      LeakThroughTail(s, k);
    }
  }

  /** A secret with none of `[`, `]`, `(` that is no part of the placeholder or the tail is always scrubbed. */
  lemma PlainSecretScrubbed(s: string, collapse: bool)
    requires s != "" && '[' !in s && ']' !in s && '(' !in s
    requires !Contains(PLACEHOLDER, s) && !Contains(COLLAPSE_TAIL, s)
    ensures AlwaysScrubbed(s, collapse)
  {
    forall k | -|PLACEHOLDER| < k < |s| ensures !Agree(s, PLACEHOLDER, k) {
      LaidOverInside(s, PLACEHOLDER, k);
    }
    forall k | |s| - |COLLAPSE_TAIL| <= k < |s| ensures !Agree(s, COLLAPSE_TAIL, k) {
      LaidOverInside(s, COLLAPSE_TAIL, k);
    }
    ScrubGuarantee(s, collapse);
  }

  /** Laying `p` over `s` exposes the first or last character of `p`, unless `s` is part of `p`. */
  lemma LaidOverInside(s: string, p: string, k: int)
    requires s != "" && p != "" && -|p| < k < |s| && !Contains(p, s)
    requires p[0] !in s && (p[|p| - 1] !in s || |s| <= k + |p|)
    ensures !Agree(s, p, k)
  {
    if k >= 0 {
      assert s[k] in s;
    } else if k + |p| < |s| {
      assert s[k + |p| - 1] in s;
    } else if Agree(s, p, k) {
      assert p[-k..-k + |s|] == s;
      assert At(p, s, -k);
    }
  }

  // ----- What is left of the message -----

  /** A message that holds none of the secrets comes out as it is. */
  lemma {:induction false} NothingToScrub(msg: string, secrets: seq<string>)
    requires forall i :: 0 <= i < |secrets| ==> secrets[i] == "" || !Contains(msg, secrets[i])
    ensures Scrub(msg, secrets) == msg
    decreases |secrets|
  {
    if secrets != [] {
      if secrets[0] != "" {
        ReplaceNothing(msg, secrets[0], PLACEHOLDER);
      }
      assert forall i :: 0 <= i < |secrets[1..]| ==> secrets[1..][i] == secrets[i + 1];
      NothingToScrub(msg, secrets[1..]);
    }
  }

  /** Where the secret occurs there is the placeholder instead, and the text around it is as it was. */
  lemma OnlySecretReplaced(before: string, s: string, after: string)
    requires s != "" && forall j :: 0 <= j < |before| ==> !At(before + s + after, s, j)
    ensures Redacted(before + s + after, [s], false) == before + "[REDACTED]" + Redacted(after, [s], false)
  {
    ReplaceFirst(before, s, after, PLACEHOLDER);
    ScrubsOne(before + s + after, s);
    ScrubsOne(after, s);
  }

  lemma ScrubsOne(msg: string, s: string)
    requires s != ""
    ensures Scrub(msg, [s]) == ReplaceAll(msg, s, PLACEHOLDER)
  {
    assert [s][1..] == [];
    assert Scrub(msg, [s]) == Scrub(ReplaceAll(msg, s, PLACEHOLDER), []);
  }

  // ----- The collapse -----

  /** An armed collapse lets nothing after the first marker through, whatever the secrets are. */
  lemma CollapseHidesBody(x: string, body: string, secrets: seq<string>)
    requires !Contains(x, MARKER)
    ensures Redacted(x + MARKER + body, secrets, true) == Scrub(x, secrets) + "(raw response: [redacted])"
  {
    MarkerFirstAt(x, body);
    TailInWords();
    assert (x + MARKER + body)[..|x|] == x;
  }

  lemma TailInWords()
    ensures COLLAPSE_TAIL == "(raw response: [redacted])"
  {
  }

  /** The marker is in the output exactly when it was in the message, even when a secret is or holds the marker. */
  lemma MarkerSurvives(msg: string, secrets: seq<string>)
    ensures Contains(Redacted(msg, secrets, true), MARKER) <==> Contains(msg, MARKER)
  {
    var i := Index(msg, MARKER);
    MarkerAloof();
    if i == -1 {
      ScrubKeepsAbsent(msg, secrets, MARKER);
    } else {
      var r := Scrub(msg[..i], secrets);
      var out := r + COLLAPSE_TAIL;
      assert out[|r|..|r| + |MARKER|] == MARKER;
      assert At(out, MARKER, |r|);
      assert At(msg, MARKER, i);
    }
  }
}
