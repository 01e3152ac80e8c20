/**
 * Waiting for a log job: the poll loop against a device and a clock, and the request that drops an abandoned job. Time
 * is in nanoseconds from when the query's context was made.
 */
module LogJob {
  import opened Wrappers
  import J = JobWait

  /** What a poll reports, when its request succeeds. */
  datatype Job = Job(status: string, result: string, details: string, body: string)

  /** How the device answers one request, and how long it takes. */
  datatype Answer = Answer(job: Option<Job>, takes: nat)

  /** The world of one wait: the answers to its polls, how late each timer fires, and how a tie of the select falls. */
  datatype World = World(answer: nat -> Answer, late: nat -> nat, stops: nat -> bool)

  datatype WaitError = RequestFailed | JobFailed(message: string) | NoStatus | ContextDone

  predicate Pending(job: Job) {
    job.status != "FIN" && job.status != ""
  }

  /** When poll `k` is sent, if the wait lasts so long: an interval after the poll before it answered. */
  function SentAt(w: World, start: nat, interval: nat, k: nat): nat {
    if k == 0 then start else SentAt(w, start, interval, k - 1) + w.answer(k - 1).takes + interval + w.late(k - 1)
  }

  /** When its answer is there. */
  function ArrivesAt(w: World, start: nat, interval: nat, k: nat): nat {
    SentAt(w, start, interval, k) + w.answer(k).takes
  }

  /** What an answer that is not pending makes of the wait. */
  function Verdict(answer: Option<Job>): (r: Result<string, WaitError>)
    requires answer.None? || !Pending(answer.value)
    ensures r.Ok? <==> answer.Some? && answer.value.status == "FIN" && answer.value.result != "FAIL"
  {
    if answer.None? then Err(RequestFailed)
    else if answer.value.status == "" then Err(NoStatus)
    else if answer.value.result == "FAIL" then
      Err(JobFailed(if answer.value.details != "" then answer.value.details else "log job failed"))
    else Ok(answer.value.body)
  }

  /** The answers before poll `k` were pending, and each poll up to it was sent before the context was done. */
  predicate Polled(w: World, start: nat, interval: nat, done: nat, k: nat) {
    && SentAt(w, start, interval, k) < done
    && forall j :: 0 <= j < k ==> w.answer(j).job.Some? && w.answer(j).job.value.status !in {"FIN", ""}
  }

  /**
   * How a wait that ends at time `end` after `polls` polls ended: with the verdict of the last one, when it came, or
   * with the context. The context ends it only when the wait begins too late, when an answer comes too late, or when
   * a timer fires too late: at the end of the context if the select sees that, or else when the timer fires.
   */
  predicate WaitEnded(
      w: World, start: nat, interval: nat, done: nat, polls: nat, end: nat, r: Result<string, WaitError>)
  {
    if polls == 0 then start >= done && r == Err(ContextDone) && end == start
    else
      var answer, arrives := w.answer(polls - 1).job, ArrivesAt(w, start, interval, polls - 1);
      && Polled(w, start, interval, done, polls - 1)
      && if arrives >= done then r == Err(ContextDone) && end == done
         else if answer.None? || !Pending(answer.value) then r == Verdict(answer) && end == arrives
         else
           var fires := SentAt(w, start, interval, polls);
           fires >= done && r == Err(ContextDone) && end == if w.stops(polls - 1) then done else fires
  }

  /**
   * `waitLogJob`. A request in a context that is done fails at once, and one cut short by it fails then; a poll is a
   * request sent while the context lasts. When both the timer and the context are ready, the select may take either.
   */
  method WaitLogJob(w: World, start: nat, done: nat, budget: nat)
    returns (r: Result<string, WaitError>, polls: nat, end: nat)
    requires J.PollInterval(budget) > 0
    ensures WaitEnded(w, start, J.PollInterval(budget), done, polls, end, r)
  {
    var interval := J.PollInterval(budget);
    var now := start;
    polls, end := 0, start;
    while true
      invariant now == SentAt(w, start, interval, polls)
      invariant polls > 0 ==> Polled(w, start, interval, done, polls - 1)
      invariant polls > 0 ==> ArrivesAt(w, start, interval, polls - 1) < done
      invariant polls > 0 ==> (now >= done ==> !w.stops(polls - 1))
      invariant forall k :: 0 <= k < polls ==> w.answer(k).job.Some? && Pending(w.answer(k).job.value)
      decreases if now < done then done - now else 0
    {
      if now >= done {
        return Err(ContextDone), polls, now;
      }
      var answer := w.answer(polls);
      polls := polls + 1;
      if now + answer.takes >= done {
        return Err(ContextDone), polls, done;
      }
      now := now + answer.takes;
      if answer.job.None? {
        return Err(RequestFailed), polls, now;
      }
      var job := answer.job.value;
      if job.status == "FIN" {
        if job.result == "FAIL" {
          return Err(JobFailed(if job.details != "" then job.details else "log job failed")), polls, now;
        }
        return Ok(job.body), polls, now;
      }
      if job.status == "" {
        return Err(NoStatus), polls, now;
      }
      var fire := now + interval + w.late(polls - 1);
      if fire >= done && w.stops(polls - 1) {
        return Err(ContextDone), polls, done;
      }
      now := fire;
    }
  }

  /** Polls are at least an interval apart. */
  lemma {:induction false} SentApart(w: World, start: nat, interval: nat, k: nat)
    ensures SentAt(w, start, interval, k) >= start + k * interval
  {
    if k > 0 {
      SentApart(w, start, interval, k - 1);
    }
  }

  lemma {:induction false} SentInOrder(w: World, start: nat, interval: nat, j: nat, k: nat)
    requires j <= k
    ensures SentAt(w, start, interval, j) <= SentAt(w, start, interval, k)
  {
    if j < k {
      SentInOrder(w, start, interval, j, k - 1);
    }
  }

  /** Poll `k` answers in time, after answers that were all pending, and is not pending itself. */
  predicate AnsweredAt(w: World, start: nat, interval: nat, done: nat, k: nat) {
    && Polled(w, start, interval, done, k) && ArrivesAt(w, start, interval, k) < done
    && (w.answer(k).job.None? || w.answer(k).job.value.status in {"FIN", ""})
  }

  /** Such an answer is what the wait ends with, when it comes: no other end is possible. */
  lemma AnswerEndsWait(w: World, start: nat, interval: nat, done: nat, polls: nat, end: nat,
                       r: Result<string, WaitError>, k: nat)
    requires WaitEnded(w, start, interval, done, polls, end, r) && AnsweredAt(w, start, interval, done, k)
    ensures polls == k + 1 && end == ArrivesAt(w, start, interval, k) && r == Verdict(w.answer(k).job)
  {
    if polls <= k {
      SentInOrder(w, start, interval, polls, k);
    }
  }

  /** A wait within a budget makes at most this many polls. */
  lemma PollBound(budget: nat, start: nat, done: nat, interval: nat, polls: nat)
    requires interval > 0 && done <= budget
    requires polls > 0 ==> start + (polls - 1) * interval < done
    ensures polls <= budget / interval + 1
  {
    var q := budget / interval;
    assert budget < (q + 1) * interval;
    assert q + 1 <= polls - 1 ==> (q + 1) * interval <= (polls - 1) * interval;
  }

  lemma Twice(n: nat)
    requires n > 0
    ensures (2 * n) / n == 2
  {
  }

  lemma IntervalsPerBudget(value: string)
    requires J.LoadJobWait(value).Ok?
    ensures var budget := J.LoadJobWait(value).value;
            budget >= 0 && J.PollInterval(budget) > 0 && budget / J.PollInterval(budget) <= 43200
  {
    J.JobWaitFits(value);
    var budget := J.LoadJobWait(value).value;
    var interval := J.PollInterval(budget);
    if interval == J.JOB_POLL_INTERVAL {
      assert budget / J.JOB_POLL_INTERVAL <= 43200;
    } else {
      assert budget == 2 * (budget / J.SECOND * 500000000);
      Twice(interval);
    }
  }

  // ----- The whole query -----

  datatype Sent = Submit | Poll | Drop

  function Repeat(x: Sent, n: nat): (s: seq<Sent>)
    ensures |s| == n && forall i :: 0 <= i < n ==> s[i] == x
  {
    seq(n, _ => x)
  }

  /** How the device answers the submit: a failure, or a job id, which may be 0. */
  datatype Submitted = Submitted(id: Option<nat>, takes: nat)

  datatype QueryError = SubmitFailed | NoJobId | WaitFailed(error: WaitError)

  function Lift(r: Result<string, WaitError>): Result<string, QueryError> {
    match r
    case Ok(body) => Ok(body)
    case Err(e) => Err(WaitFailed(e))
  }

  /** The requests of a query: the submit, its polls, and the one that drops the job if there is one. */
  function Trace(polls: nat, dropped: bool): seq<Sent> {
    [Submit] + Repeat(Poll, polls) + (if dropped then [Drop] else [])
  }

  /**
   * `runLogJob`, against a context done at `done` and with JobWait at `budget`; `lag` is how much later than the end
   * of the wait the context is looked at. Besides its results it gives the requests it sent, and how the wait went.
   */
  method RunLogJob(submitted: Submitted, w: World, done: nat, budget: nat, lag: nat)
    returns (body: Result<string, QueryError>, id: nat, sent: seq<Sent>, polls: nat, end: nat,
             ghost waited: Result<string, WaitError>)
    requires J.PollInterval(budget) > 0
    ensures id == if submitted.takes < done then submitted.id.GetOr(0) else 0
    ensures sent == Trace(polls, id != 0 && body.Err? && end + lag >= done)
    ensures id == 0 ==>
              polls == 0 && body == Err(if submitted.takes >= done || submitted.id.None? then SubmitFailed else NoJobId)
    ensures id != 0 ==>
              && body == Lift(waited)
              && WaitEnded(w, submitted.takes, J.PollInterval(budget), done, polls, end, waited)
  {
    sent, polls, end, waited := [Submit], 0, 0, Err(ContextDone);
    assert sent == Trace(0, false);
    if submitted.takes >= done || submitted.id.None? {
      return Err(SubmitFailed), 0, sent, polls, end, waited;
    }
    id := submitted.id.value;
    if id == 0 {
      return Err(NoJobId), 0, sent, polls, end, waited;
    }
    var r;
    r, polls, end := WaitLogJob(w, submitted.takes, done, budget);
    waited := r;
    sent := sent + Repeat(Poll, polls);
    assert sent == Trace(polls, false);
    body := match r
      case Ok(b) => Ok(b)
      case Err(e) => Err(WaitFailed(e));
    if body.Err? && end + lag >= done {
      sent := sent + [Drop];
    }
  }

  /** How often a request was sent. */
  function Count(sent: seq<Sent>, x: Sent): nat {
    multiset(sent)[x]
  }

  lemma {:induction false} RepeatCounts(x: Sent, n: nat, y: Sent)
    ensures Count(Repeat(x, n), y) == if x == y then n else 0
  {
    if n > 0 {
      RepeatCounts(x, n - 1, y);
      assert Repeat(x, n) == Repeat(x, n - 1) + [x];
    }
  }

  lemma TraceCounts(polls: nat, dropped: bool)
    ensures Count(Trace(polls, dropped), Submit) == 1 && Count(Trace(polls, dropped), Poll) == polls
    ensures Count(Trace(polls, dropped), Drop) == if dropped then 1 else 0
  {
    RepeatCounts(Poll, polls, Submit);
    RepeatCounts(Poll, polls, Poll);
    RepeatCounts(Poll, polls, Drop);
  }

  /** What the query makes of an answer that ends it. */
  ghost predicate Reports(answer: Option<Job>, body: Result<string, QueryError>) {
    && (answer.None? ==> body == Err(WaitFailed(RequestFailed)))
    && (answer.Some? ==> answer.value.status == "FIN" || answer.value.status == "")
    && (answer.Some? && answer.value.status == "" ==> body == Err(WaitFailed(NoStatus)))
    && (answer.Some? && answer.value.status == "FIN" && answer.value.result != "FAIL" ==> body == Ok(answer.value.body))
    && (answer.Some? && answer.value.status == "FIN" && answer.value.result == "FAIL" ==>
          body == Err(WaitFailed(JobFailed(
            if answer.value.details != "" then answer.value.details else "log job failed"))))
  }

  lemma AnswerReported(w: World, start: nat, interval: nat, done: nat, polls: nat, end: nat,
                       r: Result<string, WaitError>, k: nat)
    requires WaitEnded(w, start, interval, done, polls, end, r) && AnsweredAt(w, start, interval, done, k)
    ensures polls == k + 1 && end == ArrivesAt(w, start, interval, k) && Reports(w.answer(k).job, Lift(r))
  {
    AnswerEndsWait(w, start, interval, done, polls, end, r, k);
  }

  /** The context can have ended the wait after this many polls: the last answer, or the timer after it, is too late. */
  predicate TooLate(w: World, start: nat, interval: nat, done: nat, polls: nat) {
    polls > 0 && (ArrivesAt(w, start, interval, polls - 1) >= done || SentAt(w, start, interval, polls) >= done)
  }

  /** A wait that began in time ends with an answer, or with the context that really was done. */
  lemma EndsForAReason(w: World, start: nat, interval: nat, done: nat, polls: nat, end: nat,
                       r: Result<string, WaitError>)
    requires WaitEnded(w, start, interval, done, polls, end, r) && start < done
    ensures polls > 0
    ensures r == Err(ContextDone) ==> end >= done && TooLate(w, start, interval, done, polls)
    ensures r != Err(ContextDone) ==> AnsweredAt(w, start, interval, done, polls - 1)
  {
  }

  /** The last poll was sent before the context was done, and time does not run backwards. */
  lemma PollsInTime(w: World, start: nat, interval: nat, done: nat, polls: nat, end: nat, r: Result<string, WaitError>)
    requires WaitEnded(w, start, interval, done, polls, end, r)
    ensures start <= end
    ensures polls > 0 ==> start + (polls - 1) * interval < done
  {
    if polls > 0 {
      SentApart(w, start, interval, polls - 1);
      SentInOrder(w, start, interval, 0, polls - 1);
      SentInOrder(w, start, interval, 0, polls);
    }
  }

  /**
   * The log query under the configured wait: the server is started with the variable at `value`, and the query's
   * context is done when that budget is over or earlier. Whatever the device answers and however long it takes, one
   * submit is sent, at most budget/interval + 1 polls and never over 43201, and one drop exactly for a job whose wait
   * failed with the context done. The first answer that is not pending, if it comes in time, is what the query
   * reports, and when; otherwise the query reports the end of the context, and only if an answer or a timer really
   * came after it.
   */
  method QueryUnderJobWait(value: string, submitted: Submitted, w: World, done: nat, lag: nat)
    returns (body: Result<string, QueryError>, id: nat, sent: seq<Sent>, polls: nat, end: nat)
    requires J.LoadJobWait(value).Ok? && done <= J.LoadJobWait(value).value
    ensures id == if submitted.takes < done then submitted.id.GetOr(0) else 0
    ensures sent == Trace(polls, id != 0 && body.Err? && end + lag >= done)
    ensures Count(sent, Submit) == 1 && Count(sent, Poll) == polls
    ensures polls <= J.LoadJobWait(value).value / J.PollInterval(J.LoadJobWait(value).value) + 1 <= 43201
    ensures Count(sent, Drop) == if id != 0 && body.Err? && end + lag >= done then 1 else 0
    ensures id == 0 ==>
              polls == 0 && body == Err(if submitted.takes >= done || submitted.id.None? then SubmitFailed else NoJobId)
    ensures id != 0 ==>
              var start, interval := submitted.takes, J.PollInterval(J.LoadJobWait(value).value);
              && (forall k: nat :: AnsweredAt(w, start, interval, done, k) ==>
                    polls == k + 1 && end == ArrivesAt(w, start, interval, k) && Reports(w.answer(k).job, body))
              && (body == Err(WaitFailed(ContextDone)) ==> end >= done && TooLate(w, start, interval, done, polls))
              && (body != Err(WaitFailed(ContextDone)) ==>
                    polls > 0 && AnsweredAt(w, start, interval, done, polls - 1))
  {
    IntervalsPerBudget(value);
    var budget := J.LoadJobWait(value).value;
    ghost var waited;
    body, id, sent, polls, end, waited := RunLogJob(submitted, w, done, budget, lag);
    TraceCounts(polls, id != 0 && body.Err? && end + lag >= done);
    ghost var interval := J.PollInterval(budget);
    if id != 0 {
      EndsForAReason(w, submitted.takes, interval, done, polls, end, waited);
      PollsInTime(w, submitted.takes, interval, done, polls, end, waited);
      forall k: nat | AnsweredAt(w, submitted.takes, interval, done, k)
        ensures polls == k + 1 && end == ArrivesAt(w, submitted.takes, interval, k) && Reports(w.answer(k).job, body)
      {
        AnswerReported(w, submitted.takes, interval, done, polls, end, waited, k);
      }
    }
    PollBound(budget, submitted.takes, done, interval, polls);
  }
}
