/**
 * Any number of handlers in flight at once, their device requests interleaved under the readers-writer lock. Every
 * behaviour is equivalent to running the writers one after another in the order in which they got the lock.
 */
module Protocol {
  import opened Wrappers
  import opened Sequences
  import opened Handlers

  type Id = nat

  /** What each call asks, and how the device treats its requests. */
  type Calls = Id -> Job

  datatype Local = Idle | Running(hist: seq<Response>) | Finished(reply: Reply)

  /**
   * The device and the server. `order` lists the writers by when they got the lock, and `turn` notes for each caller
   * how many writers had got it before; both only record, nothing depends on them.
   */
  datatype Sys = Sys(
    cfg: Config, writer: Option<Id>, readers: set<Id>, local: map<Id, Local>, order: seq<Id>, turn: map<Id, nat>)

  datatype Event = Reject(i: Id) | Acquire(i: Id) | Send(i: Id) | Release(i: Id)

  function At(s: Sys, i: Id): Local {
    if i in s.local then s.local[i] else Idle
  }

  function Init(cfg: Config): Sys {
    Sys(cfg, None, {}, map[], [], map[])
  }

  predicate Enabled(calls: Calls, s: Sys, e: Event) {
    var op := calls(e.i).op;
    match e
    case Reject(i) => At(s, i).Idle? && !Valid(op)
    case Acquire(i) => At(s, i).Idle? && Valid(op) && s.writer.None? && (Lock(op).Exclusive? ==> s.readers == {})
    case Send(i) => At(s, i).Running? && Valid(op) && Decide(op, At(s, i).hist).Issue?
    case Release(i) => At(s, i).Running? && Valid(op) && Decide(op, At(s, i).hist).Return?
  }

  function Step(calls: Calls, s: Sys, e: Event): Sys
    requires Enabled(calls, s, e)
  {
    var i, job := e.i, calls(e.i);
    match e
    case Reject(_) => s.(local := s.local[i := Finished(Rejected)])
    case Acquire(_) =>
      var s' := s.(local := s.local[i := Running([])], turn := s.turn[i := |s.order|]);
      if Lock(job.op).Exclusive? then s'.(writer := Some(i), order := s.order + [i])
      else s'.(readers := s.readers + {i})
    case Send(_) =>
      var hist := At(s, i).hist;
      var (resp, cfg') := Exec(s.cfg, Decide(job.op, hist).q, FaultAt(job.faults, |hist|));
      s.(cfg := cfg', local := s.local[i := Running(hist + [resp])])
    case Release(_) =>
      var s' := s.(local := s.local[i := Finished(Decide(job.op, At(s, i).hist).reply)]);
      if Lock(job.op).Exclusive? then s'.(writer := None) else s'.(readers := s.readers - {i})
  }

  /** The state after a sequence of events, if each of them was possible when it came. */
  function Run(calls: Calls, s: Sys, events: seq<Event>): Option<Sys> {
    if events == [] then Some(s)
    else
      var n := |events| - 1;
      var before := Run(calls, s, events[..n]);
      if before.Some? && Enabled(calls, before.value, events[n]) then Some(Step(calls, before.value, events[n]))
      else None
  }

  /** The writers run alone, one after another. */
  function Serial(calls: Calls, cfg: Config, order: seq<Id>): Config {
    if order == [] then cfg
    else
      var n := |order| - 1;
      Effect(calls(order[n]), Serial(calls, cfg, order[..n])).0
  }

  /** The serial state a caller got the lock in. */
  function Seen(calls: Calls, c0: Config, s: Sys, i: Id): Config {
    if i in s.turn && s.turn[i] <= |s.order| then Serial(calls, c0, s.order[..s.turn[i]]) else c0
  }

  predicate HasTurn(calls: Calls, s: Sys, i: Id) {
    && i in s.turn && s.turn[i] <= |s.order|
    && (if Lock(calls(i).op).Exclusive? then s.turn[i] < |s.order| && s.order[s.turn[i]] == i else i !in s.order)
  }

  /** The replies a caller has, and the configuration, are what its requests so far make of what it saw. */
  predicate OnItsWay(calls: Calls, c0: Config, s: Sys, i: Id)
    requires Valid(calls(i).op)
  {
    At(s, i).Running? && (At(s, i).hist, s.cfg) == Requests(calls(i), Seen(calls, c0, s, i), |At(s, i).hist|)
  }

  /** What holds of one caller: its own run, finished or with the rest imagined, is its run alone on what it saw. */
  predicate Told(calls: Calls, c0: Config, s: Sys, i: Id) {
    var job := calls(i);
    match At(s, i)
    case Idle => i !in s.order
    case Running(hist) =>
      && Valid(job.op) && HasTurn(calls, s, i)
      && (if Lock(job.op).Exclusive? then s.writer == Some(i) && s.turn[i] + 1 == |s.order|
          else i in s.readers && s.turn[i] == |s.order|)
      && OnItsWay(calls, c0, s, i)
      && RunFrom(job.op, hist, s.cfg, job.faults) == Effect(job, Seen(calls, c0, s, i))
    case Finished(reply) =>
      if Valid(job.op) then HasTurn(calls, s, i) && reply == Effect(job, Seen(calls, c0, s, i)).1
      else reply == Rejected && i !in s.order
  }

  ghost predicate Inv(calls: Calls, c0: Config, s: Sys) {
    && Distinct(s.order)
    && (forall i :: Told(calls, c0, s, i))
    && (forall i :: i in s.readers ==> At(s, i).Running? && Lock(calls(i).op).Shared? && s.writer.None?)
    && (s.writer.Some? ==> At(s, s.writer.value).Running? && Lock(calls(s.writer.value).op).Exclusive?)
    && (s.writer.None? ==> s.cfg == Serial(calls, c0, s.order))
  }

  // ----- Every event keeps the invariant -----

  lemma RejectKeeps(calls: Calls, c0: Config, s: Sys, e: Event)
    requires Inv(calls, c0, s) && e.Reject? && Enabled(calls, s, e)
    ensures Inv(calls, c0, Step(calls, s, e))
  {
    var s' := Step(calls, s, e);
    forall i ensures Told(calls, c0, s', i) {
      assert Told(calls, c0, s, i);
    }
  }

  lemma AcquireTells(calls: Calls, c0: Config, s: Sys, e: Event, i: Id)
    requires Inv(calls, c0, s) && e.Acquire? && Enabled(calls, s, e)
    ensures Told(calls, c0, Step(calls, s, e), i)
  {
    var s' := Step(calls, s, e);
    assert Told(calls, c0, s, e.i) && Told(calls, c0, s, i);
    assert s'.order[..|s.order|] == s.order;
    if i != e.i && i in s.turn && s.turn[i] <= |s.order| {
      assert s'.order[..s.turn[i]] == s.order[..s.turn[i]];
    }
  }

  lemma AcquireKeeps(calls: Calls, c0: Config, s: Sys, e: Event)
    requires Inv(calls, c0, s) && e.Acquire? && Enabled(calls, s, e)
    ensures Inv(calls, c0, Step(calls, s, e))
  {
    assert Told(calls, c0, s, e.i);
    forall i ensures Told(calls, c0, Step(calls, s, e), i) {
      AcquireTells(calls, c0, s, e, i);
    }
  }

  /** The caller that sends is one request further on its way, with as much of it left as before. */
  lemma SenderTells(calls: Calls, c0: Config, s: Sys, e: Event)
    requires Inv(calls, c0, s) && e.Send? && Enabled(calls, s, e)
    ensures Told(calls, c0, Step(calls, s, e), e.i)
  {
    var s', job := Step(calls, s, e), calls(e.i);
    assert Told(calls, c0, s, e.i);
    var hist := At(s, e.i).hist;
    NextRequest(job.op, hist, s.cfg, job.faults);
    OneMoreRequest(job, Seen(calls, c0, s, e.i), |hist|);
    assert Seen(calls, c0, s', e.i) == Seen(calls, c0, s, e.i);
  }

  /** No one else is on the way while a writer sends, and a reader's request changes nothing. */
  lemma OthersTell(calls: Calls, c0: Config, s: Sys, e: Event, i: Id)
    requires Inv(calls, c0, s) && e.Send? && Enabled(calls, s, e) && i != e.i
    ensures Told(calls, c0, Step(calls, s, e), i)
  {
    var s' := Step(calls, s, e);
    assert Told(calls, c0, s, e.i) && Told(calls, c0, s, i);
    assert Seen(calls, c0, s', i) == Seen(calls, c0, s, i) && At(s', i) == At(s, i);
    if Lock(calls(e.i).op).Shared? {
      assert s'.cfg == s.cfg;
    }
  }

  lemma SendKeeps(calls: Calls, c0: Config, s: Sys, e: Event)
    requires Inv(calls, c0, s) && e.Send? && Enabled(calls, s, e)
    ensures Inv(calls, c0, Step(calls, s, e))
  {
    var s' := Step(calls, s, e);
    assert Told(calls, c0, s, e.i);
    assert Lock(calls(e.i).op).Shared? ==> s'.cfg == s.cfg;
    forall i ensures Told(calls, c0, s', i) {
      if i == e.i {
        SenderTells(calls, c0, s, e);
      } else {
        OthersTell(calls, c0, s, e, i);
      }
    }
  }

  lemma ReleaseKeeps(calls: Calls, c0: Config, s: Sys, e: Event)
    requires Inv(calls, c0, s) && e.Release? && Enabled(calls, s, e)
    ensures Inv(calls, c0, Step(calls, s, e))
  {
    var s' := Step(calls, s, e);
    assert Told(calls, c0, s, e.i);
    forall i ensures Told(calls, c0, s', i) {
      assert Told(calls, c0, s, i);
      assert Seen(calls, c0, s', i) == Seen(calls, c0, s, i);
    }
  }

  lemma {:induction false} InvHolds(calls: Calls, c0: Config, events: seq<Event>)
    requires Run(calls, Init(c0), events).Some?
    ensures Inv(calls, c0, Run(calls, Init(c0), events).value)
  {
    if events != [] {
      var n := |events| - 1;
      InvHolds(calls, c0, events[..n]);
      var s, e := Run(calls, Init(c0), events[..n]).value, events[n];
      match e
      case Reject(_) => RejectKeeps(calls, c0, s, e);
      case Acquire(_) => AcquireKeeps(calls, c0, s, e);
      case Send(_) => SendKeeps(calls, c0, s, e);
      case Release(_) => ReleaseKeeps(calls, c0, s, e);
    }
  }

  // ----- Serializability -----

  /**
   * The writer in the middle of its requests is the last of the order: the configuration is what these requests make of
   * the serial state before it, and with the rest of them it would be the serial state after it.
   */
  predicate WriterIsLast(calls: Calls, c0: Config, s: Sys) {
    && |s.order| > 0 && s.writer == Some(s.order[|s.order| - 1])
    && var w := s.order[|s.order| - 1];
       && At(s, w).Running? && Valid(calls(w).op)
       && s.cfg == Requests(calls(w), Serial(calls, c0, s.order[..|s.order| - 1]), |At(s, w).hist|).1
       && RunFrom(calls(w).op, At(s, w).hist, s.cfg, calls(w).faults).0 == Serial(calls, c0, s.order)
  }

  /** A finished call answered as if run alone at its turn of the serial order; an invalid one was rejected. */
  predicate AnsweredInTurn(calls: Calls, c0: Config, s: Sys, i: Id)
    requires At(s, i).Finished?
  {
    if Valid(calls(i).op) then
      && HasTurn(calls, s, i)
      && At(s, i).reply == Effect(calls(i), Serial(calls, c0, s.order[..s.turn[i]])).1
    else At(s, i).reply == Rejected
  }

  lemma WriterLast(calls: Calls, c0: Config, s: Sys)
    requires Inv(calls, c0, s) && s.writer.Some?
    ensures WriterIsLast(calls, c0, s)
  {
    assert Told(calls, c0, s, s.writer.value);
  }

  /**
   * In every state of every behaviour: the writers that got the lock, each once, are the serial order; while no one
   * writes the configuration is the serial one, and while someone does, finishing that call alone would make it so;
   * and every finished call has the reply it would have had alone, at its turn in that order.
   */
  lemma Serializable(calls: Calls, c0: Config, events: seq<Event>)
    requires Run(calls, Init(c0), events).Some?
    ensures var s := Run(calls, Init(c0), events).value;
            && Distinct(s.order)
            && (forall i :: i in s.order <==> Valid(calls(i).op) && Lock(calls(i).op).Exclusive? && !At(s, i).Idle?)
            && (if s.writer.None? then s.cfg == Serial(calls, c0, s.order) else WriterIsLast(calls, c0, s))
            && (forall i :: At(s, i).Finished? ==> AnsweredInTurn(calls, c0, s, i))
  {
    InvHolds(calls, c0, events);
    var s := Run(calls, Init(c0), events).value;
    if s.writer.Some? {
      WriterLast(calls, c0, s);
    }
    forall i ensures i in s.order <==> Valid(calls(i).op) && Lock(calls(i).op).Exclusive? && !At(s, i).Idle? {
      assert Told(calls, c0, s, i);
    }
    forall i | At(s, i).Finished? ensures AnsweredInTurn(calls, c0, s, i) {
      assert Told(calls, c0, s, i);
    }
  }

  // ----- Progress -----

  /** A caller on its way can go on, whatever the others do. */
  lemma RunningGoesOn(calls: Calls, c0: Config, s: Sys, i: Id)
    requires Inv(calls, c0, s) && At(s, i).Running?
    ensures Enabled(calls, s, Send(i)) || Enabled(calls, s, Release(i))
  {
    assert Told(calls, c0, s, i);
  }

  /** Someone who has the lock that a caller waits for: a writer, or a reader if the caller is to write. */
  predicate HoldsUp(calls: Calls, s: Sys, w: Id, i: Id) {
    At(s, w).Running? && (s.writer == Some(w) || (w in s.readers && Lock(calls(i).op).Exclusive?))
  }

  /**
   * No behaviour gets stuck: a call that is not finished can make its next step, or it waits for the lock and someone
   * who holds it can make theirs. Steps run out only by calls finishing, since no handler makes more than four
   * requests.
   */
  lemma NoDeadlock(calls: Calls, c0: Config, events: seq<Event>, i: Id)
    requires Run(calls, Init(c0), events).Some? && !At(Run(calls, Init(c0), events).value, i).Finished?
    ensures var s := Run(calls, Init(c0), events).value;
            if At(s, i).Running? then Enabled(calls, s, Send(i)) || Enabled(calls, s, Release(i))
            else if !Valid(calls(i).op) then Enabled(calls, s, Reject(i))
            else
              || Enabled(calls, s, Acquire(i))
              || exists w: Id ::
                   HoldsUp(calls, s, w, i) && (Enabled(calls, s, Send(w)) || Enabled(calls, s, Release(w)))
  {
    InvHolds(calls, c0, events);
    var s := Run(calls, Init(c0), events).value;
    if At(s, i).Running? {
      RunningGoesOn(calls, c0, s, i);
    } else if Valid(calls(i).op) && !Enabled(calls, s, Acquire(i)) {
      var w := if s.writer.Some? then s.writer.value else var j :| j in s.readers; j;
      RunningGoesOn(calls, c0, s, w);
      assert HoldsUp(calls, s, w, i);
    }
  }

  /** A caller that goes on has at most four requests to make. */
  lemma RequestsRunOut(calls: Calls, s: Sys, i: Id)
    requires Enabled(calls, s, Send(i))
    ensures At(s, i).Running? && |At(s, i).hist| < 4
    ensures At(Step(calls, s, Send(i)), i).Running?
    ensures |At(Step(calls, s, Send(i)), i).hist| == |At(s, i).hist| + 1
  {
  }

  /** From one state to a later one: the order only grows, what is finished stays, and new turns come after it. */
  ghost predicate Later(calls: Calls, s: Sys, s': Sys) {
    && s.order <= s'.order
    && (forall i :: At(s, i).Finished? ==> At(s', i) == At(s, i))
    && (forall i :: !At(s, i).Idle? ==> !At(s', i).Idle?)
    && (forall i :: !At(s, i).Idle? && i in s.turn ==> i in s'.turn && s'.turn[i] == s.turn[i])
    && (forall i :: At(s, i).Idle? && !At(s', i).Idle? && Valid(calls(i).op) ==>
          i in s'.turn && |s.order| <= s'.turn[i])
  }

  lemma StepIsLater(calls: Calls, s: Sys, e: Event)
    requires Enabled(calls, s, e)
    ensures Later(calls, s, Step(calls, s, e))
  {
  }

  lemma LaterIsTransitive(calls: Calls, a: Sys, b: Sys, c: Sys)
    requires Later(calls, a, b) && Later(calls, b, c)
    ensures Later(calls, a, c)
  {
    forall i | At(a, i).Idle? && !At(c, i).Idle? && Valid(calls(i).op) ensures i in c.turn && |a.order| <= c.turn[i] {
      if !At(b, i).Idle? {
        assert i in b.turn && c.turn[i] == b.turn[i];
      }
    }
  }

  /** The rest of a behaviour comes later. */
  lemma {:induction false} OrderGrows(calls: Calls, c0: Config, events: seq<Event>, n: nat)
    requires n <= |events| && Run(calls, Init(c0), events).Some?
    ensures Run(calls, Init(c0), events[..n]).Some?
    ensures Later(calls, Run(calls, Init(c0), events[..n]).value, Run(calls, Init(c0), events).value)
  {
    if n == |events| {
      assert events[..n] == events;
    } else {
      var m := |events| - 1;
      OrderGrows(calls, c0, events[..m], n);
      assert events[..m][..n] == events[..n];
      var a, b := Run(calls, Init(c0), events[..n]).value, Run(calls, Init(c0), events[..m]).value;
      StepIsLater(calls, b, events[m]);
      LaterIsTransitive(calls, a, b, Step(calls, b, events[m]));
    }
  }

  /** A call made after another has finished comes after it: a finished writer is in what the later one sees. */
  lemma RealTimeOrder(calls: Calls, c0: Config, events: seq<Event>, n: nat, i: Id, j: Id)
    requires n <= |events| && Run(calls, Init(c0), events).Some? && Run(calls, Init(c0), events[..n]).Some?
    requires Valid(calls(i).op) && Valid(calls(j).op)
    requires At(Run(calls, Init(c0), events[..n]).value, i).Finished?
    requires At(Run(calls, Init(c0), events[..n]).value, j).Idle?
    requires At(Run(calls, Init(c0), events).value, j).Finished?
    ensures var s := Run(calls, Init(c0), events).value;
            && i in s.turn && j in s.turn && s.turn[i] <= s.turn[j]
            && (Lock(calls(i).op).Exclusive? ==> s.turn[i] < s.turn[j])
  {
    OrderGrows(calls, c0, events, n);
    InvHolds(calls, c0, events[..n]);
    assert Told(calls, c0, Run(calls, Init(c0), events[..n]).value, i);
  }

  /** One more writer at the end of a prefix of the order. */
  lemma SerialStep(calls: Calls, c0: Config, order: seq<Id>, k: nat)
    requires k < |order|
    ensures Serial(calls, c0, order[..k + 1]) == Effect(calls(order[k]), Serial(calls, c0, order[..k])).0
  {
    assert order[..k + 1][..k] == order[..k];
  }

  /** The reply is what this call reads in this configuration, if it fails neither validation nor on the device. */
  predicate ReadIn(job: Job, c: Config, reply: Reply)
    requires Lock(job.op).Shared?
  {
    match reply
    case ZoneDoc(z) => job.op.ZoneGet? && job.op.name in c.zones && z == c.zones[job.op.name]
    case ZoneNames(names) => job.op.ZoneList? && names == c.zones.Keys
    case RuleDocs(rules) => job.op.RuleList? && rules == c.rules
    case Rejected => !job.op.locOk || (job.op.ZoneGet? && job.op.name == "")
    case Failed => 0 in job.faults || (job.op.ZoneGet? && job.op.name !in c.zones)
    case _ => false
  }

  lemma EffectIsRead(job: Job, c: Config)
    requires Lock(job.op).Shared?
    ensures ReadIn(job, c, Effect(job, c).1)
  {
    assert job == Job(job.op, job.faults);
    ReadEffect(job.op, job.faults, c);
  }

  /** A finished locked read answered from the state after some prefix of the serial order, never in between. */
  lemma ReadersSeePrefix(calls: Calls, c0: Config, events: seq<Event>, i: Id)
    requires Run(calls, Init(c0), events).Some?
    requires At(Run(calls, Init(c0), events).value, i).Finished? && Lock(calls(i).op).Shared?
    ensures var s := Run(calls, Init(c0), events).value;
            && i in s.turn && s.turn[i] <= |s.order|
            && ReadIn(calls(i), Serial(calls, c0, s.order[..s.turn[i]]), At(s, i).reply)
  {
    Serializable(calls, c0, events);
    var s := Run(calls, Init(c0), events).value;
    assert AnsweredInTurn(calls, c0, s, i);
    EffectIsRead(calls(i), Serial(calls, c0, s.order[..s.turn[i]]));
  }
}
