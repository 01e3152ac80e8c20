/** PANOS_JOB_WAIT: which values are accepted, and the nanosecond arithmetic done with them. */
module JobWait {
  import opened Wrappers
  import opened Decimal

  const SECOND := 1000000000
  const DEFAULT_JOB_WAIT_SEC := 120
  const MAX_JOB_WAIT_SEC := 86400
  const JOB_POLL_INTERVAL := 2 * SECOND
  const POLLS_PER_BUDGET := 2

  datatype EnvError = NotAnInteger(text: string) | OutOfRange(n: int)

  /** `intEnv`. */
  function IntEnv(value: string, default: int): Result<int, EnvError> {
    var s := TrimSpace(value);
    if s == "" then Ok(default)
    else
      var n := Atoi(s);
      if n.None? then Err(NotAnInteger(s)) else Ok(n.value)
  }

  /** Two's complement: what an int64 holds after a computation that may overflow. */
  function Wrap64(n: int): (w: int)
    ensures INT64_MIN <= w <= INT64_MAX
  {
    (n - INT64_MIN) % 0x1_0000_0000_0000_0000 + INT64_MIN
  }

  /** `time.Duration(n) * time.Second`. */
  function Seconds(n: int): int {
    Wrap64(n * SECOND)
  }

  /** `LoadConfig`, as far as the job wait goes: the budget in nanoseconds. */
  function LoadJobWait(value: string): (r: Result<int, EnvError>)
    ensures r.Ok? ==> SECOND <= r.value <= MAX_JOB_WAIT_SEC * SECOND
  {
    var n := IntEnv(value, DEFAULT_JOB_WAIT_SEC);
    if n.Err? then Err(n.error)
    else if n.value < 1 || n.value > MAX_JOB_WAIT_SEC then Err(OutOfRange(n.value))
    else Ok(Seconds(n.value))
  }

  /** The wait between two log polls; durations divide truncating, and the budget is not negative. */
  function PollInterval(budget: nat): nat {
    if JOB_POLL_INTERVAL < budget / POLLS_PER_BUDGET then JOB_POLL_INTERVAL else budget / POLLS_PER_BUDGET
  }

  /**
   * The conversion is exact up to the bound the source names, and wraps for every larger number of seconds; just past
   * the bound the duration comes out negative, which no check on the seconds would see.
   */
  lemma SecondsExact(n: int)
    requires 0 <= n <= INT64_MAX
    ensures Seconds(n) == n * SECOND <==> n <= 9223372036
    ensures Seconds(9223372037) < 0
  {
    if n <= 9223372036 {
      assert 0 <= n * SECOND <= INT64_MAX;
    } else {
      assert n * SECOND > INT64_MAX;
    }
  }

  /**
   * Whatever the variable holds, an accepted budget is the whole number of seconds it says, or the default, between a
   * second and a day; the poll interval is two seconds, or half the budget if that is less.
   */
  lemma JobWaitFits(value: string)
    ensures var r := LoadJobWait(value);
            r.Ok? ==>
              && SECOND <= r.value <= MAX_JOB_WAIT_SEC * SECOND < INT64_MAX
              && Ok(r.value / SECOND) == IntEnv(value, DEFAULT_JOB_WAIT_SEC) && r.value % SECOND == 0
              && PollInterval(r.value) == (if r.value < 4000000000 then r.value / 2 else 2000000000)
              && 0 < PollInterval(r.value) <= r.value / 2
  {
    var n := IntEnv(value, DEFAULT_JOB_WAIT_SEC);
    if n.Ok? && 1 <= n.value <= MAX_JOB_WAIT_SEC {
      SecondsExact(n.value);
    }
  }

  /** What every value of the variable means: white space around it is ignored, and blank is two minutes. */
  lemma JobWaitExactly(value: string)
    ensures LoadJobWait(value)
            == if TrimSpace(value) == "" then Ok(120 * 1000000000)
               else
                 match Atoi(TrimSpace(value))
                 case None => Err(NotAnInteger(TrimSpace(value)))
                 case Some(n) => if 1 <= n <= 86400 then Ok(n * 1000000000) else Err(OutOfRange(n))
  {
    SecondsExact(DEFAULT_JOB_WAIT_SEC);
    var n := Atoi(TrimSpace(value));
    if n.Some? && 1 <= n.value <= 86400 {
      SecondsExact(n.value);
    }
  }

  /** A number of seconds is accepted as written from one second to a day, and refused otherwise. */
  lemma JobWaitAccepts(n: int)
    requires INT64_MIN <= n <= INT64_MAX
    ensures LoadJobWait(Itoa(n)) == if 1 <= n <= 86400 then Ok(n * 1000000000) else Err(OutOfRange(n))
    ensures LoadJobWait("") == Ok(120 * 1000000000)
  {
    ItoaTrimmed(n);
    AtoiItoa(n);
    JobWaitExactly(Itoa(n));
    JobWaitExactly("");
  }
}
