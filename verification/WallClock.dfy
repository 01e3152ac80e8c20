/** Wall-clock times of daily and weekly schedules (`parseWallClock`). */
module WallClock {
  import opened Wrappers
  import opened Decimal
  import opened Text

  const CLOCK_HOUR_MAX := 23
  const CLOCK_MINUTE_MAX := 59

  /** `%02d` for a number below 100. */
  function Pad2(n: nat): (s: string)
    requires n < 100
    ensures |s| == 2 && Digits(s) && Value(s) == n
  {
    var s := [DigitChar(n / 10), DigitChar(n % 10)];
    assert s[..1] == [DigitChar(n / 10)] && s[..1][..0] == "";
    assert Value(s[..1]) == n / 10;
    s
  }

  function ParseWallClock(at: string): Option<string> {
    var (hh, mm, found) := Cut(at, ':');
    var h, m := Atoi(hh), Atoi(mm);
    if !found || !AllDigits(hh) || !AllDigits(mm) || h.None? || m.None?
       || h.value > CLOCK_HOUR_MAX || m.value > CLOCK_MINUTE_MAX
    then None
    else Some(Pad2(h.value) + ":" + Pad2(m.value))
  }

  /** `at` reads as digits, a colon and digits, for hour `h` and minute `m` of a day. */
  ghost predicate Denotes(at: string, h: nat, m: nat) {
    exists i :: 0 <= i < |at| && DenotesAt(at, i, h, m)
  }

  ghost predicate DenotesAt(at: string, i: int, h: nat, m: nat)
    requires 0 <= i < |at|
  {
    && at[i] == ':' && AllDigits(at[..i]) && AllDigits(at[i + 1..])
    && Value(at[..i]) == h <= 23 && Value(at[i + 1..]) == m <= 59
  }

  lemma PlainDigits(s: string)
    requires AllDigits(s)
    ensures Atoi(s) == if Value(s) <= INT64_MAX then Some(Value(s)) else None
  {
    assert IsDigit(s[0]);
  }

  lemma {:induction false} CutAtColon(at: string, i: nat)
    requires i < |at| && at[i] == ':' && Digits(at[..i])
    ensures Cut(at, ':') == (at[..i], at[i + 1..], true)
  {
    if i == 0 {
      assert at[..0] == "";
    } else {
      assert at[0] == at[..i][0];
      assert at[1..][..i - 1] == at[..i][1..];
      CutAtColon(at[1..], i - 1);
      assert at[..i] == [at[0]] + at[1..][..i - 1];
    }
  }

  lemma TimesAccepted(at: string, h: nat, m: nat)
    requires Denotes(at, h, m)
    ensures ParseWallClock(at) == Some(Pad2(h) + ":" + Pad2(m))
  {
    var i :| 0 <= i < |at| && DenotesAt(at, i, h, m);
    CutAtColon(at, i);
    PlainDigits(at[..i]);
    PlainDigits(at[i + 1..]);
  }

  /** A parse succeeds only on a time of day, and its result is the canonical form of that time. */
  lemma AcceptedIsTime(at: string) returns (h: nat, m: nat)
    requires ParseWallClock(at).Some?
    ensures Denotes(at, h, m) && ParseWallClock(at) == Some(Pad2(h) + ":" + Pad2(m))
  {
    var (hh, mm, found) := Cut(at, ':');
    PlainDigits(hh);
    PlainDigits(mm);
    h, m := Value(hh), Value(mm);
    assert at[..|hh|] == hh && at[|hh| + 1..] == mm;
    assert DenotesAt(at, |hh|, h, m);
  }

  /** A parse succeeds exactly on the times of day, with the canonical form of that time as its result. */
  lemma AcceptsExactlyTimes(at: string, h: nat, m: nat)
    requires h <= CLOCK_HOUR_MAX && m <= CLOCK_MINUTE_MAX
    ensures Denotes(at, h, m) <==> ParseWallClock(at) == Some(Pad2(h) + ":" + Pad2(m))
    ensures ParseWallClock(at).Some? <==> exists h', m' :: Denotes(at, h', m')
  {
    if Denotes(at, h, m) {
      TimesAccepted(at, h, m);
    }
    if ParseWallClock(at).Some? {
      var h', m' := AcceptedIsTime(at);
      if ParseWallClock(at) == Some(Pad2(h) + ":" + Pad2(m)) {
        Pad2Injective(h, m, h', m');
      }
    }
    if h', m' :| Denotes(at, h', m') {
      TimesAccepted(at, h', m');
    }
  }

  lemma Pad2Injective(h: nat, m: nat, h': nat, m': nat)
    requires h < 100 && m < 100 && h' < 100 && m' < 100
    requires Pad2(h) + ":" + Pad2(m) == Pad2(h') + ":" + Pad2(m')
    ensures h == h' && m == m'
  {
    var s := Pad2(h) + ":" + Pad2(m);
    assert Pad2(h) == s[..2] == Pad2(h') && Pad2(m) == s[3..] == Pad2(m');
  }

  /** What a parse returns is five characters long and is itself accepted, unchanged. */
  lemma CanonicalIsFixed(at: string)
    requires ParseWallClock(at).Some?
    ensures var r := ParseWallClock(at).value;
            |r| == 5 && r[2] == ':' && Digits(r[..2]) && Digits(r[3..]) && ParseWallClock(r) == Some(r)
  {
    var h, m := AcceptedIsTime(at);
    var r := Pad2(h) + ":" + Pad2(m);
    PaddedDenotes(h, m);
    TimesAccepted(r, h, m);
  }

  lemma PaddedDenotes(h: nat, m: nat)
    requires h <= CLOCK_HOUR_MAX && m <= CLOCK_MINUTE_MAX
    ensures var r := Pad2(h) + ":" + Pad2(m);
            |r| == 5 && r[2] == ':' && Digits(r[..2]) && Digits(r[3..]) && Denotes(r, h, m)
  {
    var r := Pad2(h) + ":" + Pad2(m);
    assert r[..2] == Pad2(h) && r[3..] == Pad2(m) && r[2 + 1..] == r[3..];
    assert DenotesAt(r, 2, h, m);
  }
}
