/**
 * Tool handlers as clients of the device: each one is the list of requests it makes, decided by the replies so far,
 * and the reply it ends with. Running one alone on a configuration gives its effect.
 */
module Handlers {
  import opened Wrappers
  import opened Rulebase
  import Z = Zone

  // ----- The device -----

  /** The candidate configuration, as far as these handlers see it. */
  datatype Config = Config(zones: map<string, Z.Zone>, rules: seq<Rule>)

  datatype Request =
    | ReadZone(name: string) | ListZones | SetZone(name: string, zone: Z.Zone) | EditZone(name: string, zone: Z.Zone)
    | DeleteZone(name: string)
    | ReadRule(name: string) | ListRules | SetRule(rule: Rule) | SendMove(name: string, pos: Position)

  datatype Response =
    | Error | GotZone(zone: Z.Zone) | GotZoneNames(names: set<string>)
    | GotRule(rule: Rule) | GotRules(rules: seq<Rule>) | Done

  /** The device may refuse a request, or carry it out and have its reply lost. */
  datatype Fault = Refuse | LoseReply

  predicate ReadOnly(q: Request) {
    q.ReadZone? || q.ListZones? || q.ReadRule? || q.ListRules?
  }

  /** The configuration after a rule was moved. */
  function Moved(cfg: Config, name: string, pos: Position): (r: Config)
    requires Placeable(cfg.rules, name, pos)
    ensures r.zones == cfg.zones
  {
    cfg.(rules := Placed(cfg.rules, name, pos))
  }

  /** The configuration after a rule was set. */
  function Stored(cfg: Config, r: Rule): Config {
    cfg.(rules := WithRule(cfg.rules, r))
  }

  /** A request the device carries out, atomically. */
  function Answer(cfg: Config, q: Request): (Response, Config) {
    match q
    case ReadZone(n) => (if n in cfg.zones then GotZone(cfg.zones[n]) else Error, cfg)
    case ListZones => (GotZoneNames(cfg.zones.Keys), cfg)
    case SetZone(n, z) => (Done, cfg.(zones := cfg.zones[n := z]))
    case EditZone(n, z) => (Done, cfg.(zones := cfg.zones[n := z]))
    case DeleteZone(n) => if n in cfg.zones then (Done, cfg.(zones := cfg.zones - {n})) else (Error, cfg)
    case ReadRule(n) => (if n in Names(cfg.rules) then GotRule(cfg.rules[Find(cfg.rules, n)]) else Error, cfg)
    case ListRules => (GotRules(cfg.rules), cfg)
    case SetRule(r) => (Done, Stored(cfg, r))
    case SendMove(n, pos) =>
      if Placeable(cfg.rules, n, pos) then (Done, Moved(cfg, n, pos)) else (Error, cfg)
  }

  function Exec(cfg: Config, q: Request, fault: Option<Fault>): (Response, Config) {
    match fault
    case None => Answer(cfg, q)
    case Some(Refuse) => (Error, cfg)
    case Some(LoseReply) => (Error, Answer(cfg, q).1)
  }

  // ----- The handlers -----

  /** `locOk` is whether the location input resolves; `built` is the entry the rule builder made, if it made one. */
  datatype Op =
    | ZoneCreate(input: Z.ZoneInput, locOk: bool)
    | ZoneUpdate(input: Z.ZoneInput, locOk: bool)
    | ZoneDelete(name: string, locOk: bool)
    | ZoneGet(name: string, locOk: bool)
    | ZoneList(locOk: bool)
    | RuleCreate(built: Option<Rule>, position: string, relativeTo: string, locOk: bool)
    | RuleMove(name: string, position: string, relativeTo: string, locOk: bool)
    | RuleList(locOk: bool)

  datatype Reply =
    | Rejected | Failed | ZoneDoc(zone: Z.Zone) | ZoneNames(names: set<string>) | ZoneDeleted
    | RuleCreated(rule: Rule) | CreatedUnplaced(rule: Rule) | RuleMoved | RuleDocs(rules: seq<Rule>)

  datatype LockMode = Exclusive | Shared

  function Lock(op: Op): LockMode {
    if op.ZoneGet? || op.ZoneList? || op.RuleList? then Shared else Exclusive
  }

  /** The position a create asks for; a bare relative_to asks for none. */
  function CreatePosition(op: Op): Option<Position>
    requires op.RuleCreate?
  {
    if op.position == "" then None else MovePosition(op.position, op.relativeTo)
  }

  /** Whether a writer passes the validation it does before it takes the lock. */
  predicate Valid(op: Op) {
    match op
    case ZoneCreate(input, locOk) => Z.BuildZone(input).Ok? && locOk
    case ZoneUpdate(input, locOk) => input.name != "" && locOk
    case ZoneDelete(name, locOk) => name != "" && locOk
    case RuleCreate(built, position, relativeTo, locOk) =>
      built.Some? && (position == "" || MovePosition(position, relativeTo).Some?) && locOk
    case RuleMove(name, position, relativeTo, locOk) => name != "" && MovePosition(position, relativeTo).Some? && locOk
    case _ => true
  }

  datatype Action = Issue(q: Request) | Return(reply: Reply)

  /** No handler makes more than this many requests. */
  const MAX_REQUESTS := 4

  function Decide(op: Op, hist: seq<Response>): (a: Action)
    requires Valid(op)
    ensures |hist| >= MAX_REQUESTS ==> a.Return?
    ensures a.Issue? && Lock(op).Shared? ==> ReadOnly(a.q)
  {
    var n := |hist|;
    match op
    case ZoneCreate(input, _) =>
      var zone := Z.BuildZone(input).value;
      if n == 0 then Issue(SetZone(input.name, zone))
      else if !hist[0].Done? then Return(Failed)
      else if n == 1 then Issue(ReadZone(input.name))
      else Return(if hist[1].GotZone? then ZoneDoc(hist[1].zone) else Failed)
    case ZoneUpdate(input, _) => DecideZoneUpdate(input, hist)
    case ZoneDelete(name, _) =>
      if n == 0 then Issue(DeleteZone(name)) else Return(if hist[0].Done? then ZoneDeleted else Failed)
    case ZoneGet(name, locOk) =>
      if name == "" || !locOk then Return(Rejected)
      else if n == 0 then Issue(ReadZone(name))
      else Return(if hist[0].GotZone? then ZoneDoc(hist[0].zone) else Failed)
    case ZoneList(locOk) =>
      if !locOk then Return(Rejected)
      else if n == 0 then Issue(ListZones)
      else Return(if hist[0].GotZoneNames? then ZoneNames(hist[0].names) else Failed)
    case RuleCreate(built, _, _, _) =>
      if n == 0 then Issue(SetRule(built.value))
      else if !hist[0].Done? then Return(Failed)
      else if n == 1 then Issue(ReadRule(built.value.name))
      else if !hist[1].GotRule? then Return(Failed)
      else if CreatePosition(op).None? then Return(RuleCreated(hist[1].rule))
      else DecideMove(MoveOf(op, hist[..2]), hist[2..])
    case RuleMove(name, _, _, _) =>
      if n == 0 then Issue(ReadRule(name))
      else if !hist[0].GotRule? then Return(Failed)
      else DecideMove(MoveOf(op, hist[..1]), hist[1..])
    case RuleList(locOk) =>
      if !locOk then Return(Rejected)
      else if n == 0 then Issue(ListRules)
      else Return(if hist[0].GotRules? then RuleDocs(hist[0].rules) else Failed)
  }

  /** Read, overlay, then the adapter's update, which reads the entry again before it edits it. */
  function DecideZoneUpdate(input: Z.ZoneInput, hist: seq<Response>): (a: Action)
    ensures |hist| >= 4 ==> a.Return?
  {
    var n := |hist|;
    if n == 0 then Issue(ReadZone(input.name))
    else if !hist[0].GotZone? then Return(Failed)
    else
      var overlaid := Z.OverlayZone(hist[0].zone, input);
      if overlaid.Err? then Return(Rejected)
      else if n == 1 then Issue(ReadZone(input.name))
      else if !hist[1].GotZone? then Return(Failed)
      else if overlaid.value == hist[1].zone then DecideReadBack(input.name, hist[2..])
      else if n == 2 then Issue(EditZone(input.name, overlaid.value))
      else if !hist[2].Done? then Return(Failed)
      else DecideReadBack(input.name, hist[3..])
  }

  function DecideReadBack(name: string, hist: seq<Response>): (a: Action)
    ensures |hist| >= 1 ==> a.Return?
  {
    if |hist| == 0 then Issue(ReadZone(name))
    else Return(if hist[0].GotZone? then ZoneDoc(hist[0].zone) else Failed)
  }

  /** One `MoveGroup` call: the rule, where it goes, and what the handler replies either way. */
  datatype Move = Move(name: string, pos: Position, ok: Reply, failed: Reply)

  /** These replies are all a rule handler needs before it calls `MoveGroup`. */
  predicate ReadyToMove(op: Op, got: seq<Response>) {
    if op.RuleMove? then |got| == 1 && got[0].GotRule?
    else op.RuleCreate? && CreatePosition(op).Some? && |got| == 2 && got[0].Done? && got[1].GotRule?
  }

  /** The move it then asks for, of the rule it read. */
  function MoveOf(op: Op, got: seq<Response>): Move
    requires Valid(op) && ReadyToMove(op, got)
  {
    if op.RuleMove? then
      Move(got[0].rule.name, MovePosition(op.position, op.relativeTo).value, RuleMoved, Failed)
    else
      Move(got[1].rule.name, CreatePosition(op).value, RuleCreated(got[1].rule), CreatedUnplaced(got[1].rule))
  }

  /** `MoveGroup` for one rule: list the rulebase, and move only when the rule is not in its place already. */
  function DecideMove(m: Move, hist: seq<Response>): (a: Action)
    ensures |hist| >= 2 ==> a.Return?
  {
    var n := |hist|;
    if n == 0 then Issue(ListRules)
    else if !hist[0].GotRules? || !Placeable(hist[0].rules, m.name, m.pos) then Return(m.failed)
    else if Sits(hist[0].rules, m.name, m.pos) then Return(m.ok)
    else if n == 1 then Issue(SendMove(m.name, m.pos))
    else Return(if hist[1].Done? then m.ok else m.failed)
  }

  type Faults = map<nat, Fault>

  function FaultAt(faults: Faults, n: nat): Option<Fault> {
    if n in faults then Some(faults[n]) else None
  }

  /** The rest of a handler's body, from the replies so far, run without interruption. */
  function RunFrom(op: Op, hist: seq<Response>, cfg: Config, faults: Faults): (Config, Reply)
    requires Valid(op)
    decreases MAX_REQUESTS - |hist|
  {
    match Decide(op, hist)
    case Return(reply) => (cfg, reply)
    case Issue(q) =>
      var (resp, cfg') := Exec(cfg, q, FaultAt(faults, |hist|));
      RunFrom(op, hist + [resp], cfg', faults)
  }

  /** One call: what it asks, and which of its requests the device fails. */
  datatype Job = Job(op: Op, faults: Faults)

  /** A handler run alone, validation included. */
  function Effect(job: Job, cfg: Config): (Config, Reply) {
    if Valid(job.op) then RunFrom(job.op, [], cfg, job.faults) else (cfg, Rejected)
  }

  /** The first `n` requests of a handler run alone, or all of them if it makes fewer: the replies, and what is left. */
  function Requests(job: Job, cfg: Config, n: nat): (seq<Response>, Config)
    requires Valid(job.op)
  {
    if n == 0 then ([], cfg)
    else
      var (hist, c) := Requests(job, cfg, n - 1);
      match Decide(job.op, hist)
      case Return(_) => (hist, c)
      case Issue(q) =>
        var (resp, c') := Exec(c, q, FaultAt(job.faults, |hist|));
        (hist + [resp], c')
  }

  lemma {:induction false} SharedChangesNothing(op: Op, hist: seq<Response>, cfg: Config, faults: Faults)
    requires Valid(op) && Lock(op).Shared?
    ensures RunFrom(op, hist, cfg, faults).0 == cfg
    decreases MAX_REQUESTS - |hist|
  {
    var a := Decide(op, hist);
    if a.Issue? {
      var (resp, cfg') := Exec(cfg, a.q, FaultAt(faults, |hist|));
      SharedChangesNothing(op, hist + [resp], cfg', faults);
    }
  }

  // ----- What one handler does -----

  /** One more request. */
  lemma NextRequest(op: Op, hist: seq<Response>, cfg: Config, faults: Faults)
    requires Valid(op) && Decide(op, hist).Issue?
    ensures var (resp, cfg') := Exec(cfg, Decide(op, hist).q, FaultAt(faults, |hist|));
            RunFrom(op, hist, cfg, faults) == RunFrom(op, hist + [resp], cfg', faults)
  {
  }

  lemma OneMoreRequest(job: Job, cfg: Config, n: nat)
    requires Valid(job.op) && Decide(job.op, Requests(job, cfg, n).0).Issue?
    ensures var (hist, c) := Requests(job, cfg, n);
            var (resp, c') := Exec(c, Decide(job.op, hist).q, FaultAt(job.faults, |hist|));
            Requests(job, cfg, n + 1) == (hist + [resp], c')
  {
  }

  /** The last request of a zone create or update reads the zone back. */
  lemma ReadBackLast(op: Op, hist: seq<Response>, name: string, cfg: Config, faults: Faults)
    requires Valid(op) && Decide(op, hist) == Issue(ReadZone(name))
    requires forall resp :: Decide(op, hist + [resp]) == Return(if resp.GotZone? then ZoneDoc(resp.zone) else Failed)
    ensures RunFrom(op, hist, cfg, faults)
            == (cfg, if |hist| in faults || name !in cfg.zones then Failed else ZoneDoc(cfg.zones[name]))
  {
    NextRequest(op, hist, cfg, faults);
  }

  /** What the adapter's update does once the zone was overlaid: configuration and reply. */
  function Updated(cfg: Config, name: string, zone: Z.Zone, faults: Faults): (Config, Reply)
    requires name in cfg.zones
  {
    if 1 in faults then (cfg, Failed)
    else if zone == cfg.zones[name] then (cfg, if 2 in faults then Failed else ZoneDoc(zone))
    else
      (if FaultAt(faults, 2) == Some(Refuse) then cfg else cfg.(zones := cfg.zones[name := zone]),
       if 2 in faults || 3 in faults then Failed else ZoneDoc(zone))
  }

  lemma UpdateRuns(input: Z.ZoneInput, faults: Faults, cfg: Config)
    requires input.name != "" && input.name in cfg.zones && Z.OverlayZone(cfg.zones[input.name], input).Ok?
    ensures RunFrom(ZoneUpdate(input, true), [GotZone(cfg.zones[input.name])], cfg, faults)
            == Updated(cfg, input.name, Z.OverlayZone(cfg.zones[input.name], input).value, faults)
  {
    var op, got, name := ZoneUpdate(input, true), GotZone(cfg.zones[input.name]), input.name;
    var zone := Z.OverlayZone(cfg.zones[name], input).value;
    NextRequest(op, [got], cfg, faults);
    assert [got] + [got] == [got, got] && [got] + [Error] == [got, Error];
    if 1 !in faults {
      if zone == cfg.zones[name] {
        assert [got, got][2..] == [];
        forall resp ensures ([got, got] + [resp])[2..] == [resp] {
        }
        ReadBackLast(op, [got, got], name, cfg, faults);
      } else {
        NextRequest(op, [got, got], cfg, faults);
        assert [got, got] + [Done] == [got, got, Done] && [got, got] + [Error] == [got, got, Error];
        if 2 !in faults {
          assert [got, got, Done][3..] == [];
          forall resp ensures ([got, got, Done] + [resp])[3..] == [resp] {
          }
          ReadBackLast(op, [got, got, Done], name, cfg.(zones := cfg.zones[name := zone]), faults);
        }
      }
    }
  }

  /**
   * A zone update, for every combination of device failures. It fails without the zone, and is rejected when the
   * overlay is; otherwise the adapter reads the zone again, edits it unless the overlay changed nothing, and reads it
   * back, and the call fails exactly when one of these failed.
   */
  lemma ZoneUpdateEffect(input: Z.ZoneInput, faults: Faults, cfg: Config)
    requires input.name != ""
    ensures var (cfg', reply) := Effect(Job(ZoneUpdate(input, true), faults), cfg);
            if input.name !in cfg.zones || 0 in faults then cfg' == cfg && reply == Failed
            else
              match Z.OverlayZone(cfg.zones[input.name], input)
              case Err(_) => cfg' == cfg && reply == Rejected
              case Ok(zone) =>
                var edits := 1 !in faults && zone != cfg.zones[input.name];
                && cfg' == (if edits && FaultAt(faults, 2) != Some(Refuse)
                            then cfg.(zones := cfg.zones[input.name := zone]) else cfg)
                && reply == (if 1 in faults || 2 in faults || (edits && 3 in faults) then Failed else ZoneDoc(zone))
  {
    var op := ZoneUpdate(input, true);
    NextRequest(op, [], cfg, faults);
    var r0 := Exec(cfg, ReadZone(input.name), FaultAt(faults, 0)).0;
    assert [] + [r0] == [r0];
    if r0.GotZone? && Z.OverlayZone(r0.zone, input).Ok? {
      UpdateRuns(input, faults, cfg);
    }
  }

  /** The last step of `MoveGroup`: nothing to send, or one move that turns `cfg` into `moved`. */
  function LastMove(cfg: Config, moved: Config, sits: bool, move: Option<Fault>): (Config, bool) {
    if sits then (cfg, true)
    else
      match move
      case None => (moved, true)
      case Some(Refuse) => (cfg, false)
      case Some(LoseReply) => (moved, false)
  }

  /** The requests of `MoveGroup`, one listing and at most one move, against a configuration no one else changes. */
  function MoveGroup(cfg: Config, name: string, pos: Position, listing: Option<Fault>, move: Option<Fault>)
    : (r: (Config, bool))
    ensures r.0.zones == cfg.zones
  {
    if listing.Some? || !Placeable(cfg.rules, name, pos) then (cfg, false)
    else LastMove(cfg, Moved(cfg, name, pos), Sits(cfg.rules, name, pos), move)
  }

  lemma MovedIdempotent(cfg: Config, name: string, pos: Position)
    requires Unique(cfg.rules) && Placeable(cfg.rules, name, pos) && Sits(cfg.rules, name, pos)
    ensures Moved(cfg, name, pos) == cfg
  {
    MoveIdempotent(cfg.rules, name, pos);
    assert cfg.(rules := cfg.rules) == cfg;
  }

  /** A group moves the rule unless the device stops it, and knows that it did unless the reply was lost. */
  lemma MoveGroupExact(cfg: Config, name: string, pos: Position, listing: Option<Fault>, move: Option<Fault>)
    requires Unique(cfg.rules)
    ensures var reached := listing.None? && Placeable(cfg.rules, name, pos);
            var (cfg', ok) := MoveGroup(cfg, name, pos, listing, move);
            && cfg' == (if reached && move != Some(Refuse) then Moved(cfg, name, pos) else cfg)
            && (ok <==> reached && (move.None? || Sits(cfg.rules, name, pos)))
  {
    if Placeable(cfg.rules, name, pos) && Sits(cfg.rules, name, pos) {
      MovedIdempotent(cfg, name, pos);
    }
  }

  /** Once it has these replies, a rule handler decides as `MoveGroup` does. */
  lemma DecidesAsMove(op: Op, got: seq<Response>, rest: seq<Response>)
    requires Valid(op) && ReadyToMove(op, got)
    ensures Decide(op, got + rest) == DecideMove(MoveOf(op, got), rest)
  {
    assert (got + rest)[..|got|] == got && (got + rest)[|got|..] == rest;
  }

  function ListingReply(cfg: Config, fault: Option<Fault>): Response {
    if fault.None? then GotRules(cfg.rules) else Error
  }

  lemma ListingRuns(op: Op, got: seq<Response>, cfg: Config, faults: Faults)
    requires Valid(op) && ReadyToMove(op, got)
    ensures var r1 := ListingReply(cfg, FaultAt(faults, |got|));
            RunFrom(op, got, cfg, faults) == RunFrom(op, got + [r1], cfg, faults)
            && Decide(op, got + [r1]) == DecideMove(MoveOf(op, got), [r1])
  {
    DecidesAsMove(op, got, []);
    assert got + [] == got;
    NextRequest(op, got, cfg, faults);
    DecidesAsMove(op, got, [ListingReply(cfg, FaultAt(faults, |got|))]);
  }

  /** The listing says to send a move. */
  predicate Sends(m: Move, r1: Response) {
    r1.GotRules? && Placeable(r1.rules, m.name, m.pos) && !Sits(r1.rules, m.name, m.pos)
  }

  lemma SendRuns(op: Op, got: seq<Response>, r1: Response, cfg: Config, faults: Faults)
    requires Valid(op) && ReadyToMove(op, got) && Sends(MoveOf(op, got), r1)
    ensures var m := MoveOf(op, got);
            var (r2, c2) := Exec(cfg, SendMove(m.name, m.pos), FaultAt(faults, |got| + 1));
            RunFrom(op, got + [r1], cfg, faults) == (c2, if r2.Done? then m.ok else m.failed)
  {
    var m := MoveOf(op, got);
    var (r2, c2) := Exec(cfg, SendMove(m.name, m.pos), FaultAt(faults, |got| + 1));
    DecidesAsMove(op, got, [r1]);
    NextRequest(op, got + [r1], cfg, faults);
    DecidesAsMove(op, got, [r1, r2]);
    assert got + [r1] + [r2] == got + [r1, r2];
  }

  lemma StopsAtListing(op: Op, got: seq<Response>, r1: Response, cfg: Config, faults: Faults)
    requires Valid(op) && ReadyToMove(op, got) && !Sends(MoveOf(op, got), r1)
    requires Decide(op, got + [r1]) == DecideMove(MoveOf(op, got), [r1])
    ensures var m := MoveOf(op, got);
            RunFrom(op, got + [r1], cfg, faults)
            == (cfg, if r1.GotRules? && Placeable(r1.rules, m.name, m.pos) then m.ok else m.failed)
  {
  }

  lemma GroupStops(cfg: Config, m: Move, listing: Option<Fault>, move: Option<Fault>)
    requires !Sends(m, ListingReply(cfg, listing))
    ensures MoveGroup(cfg, m.name, m.pos, listing, move)
            == (cfg, listing.None? && Placeable(cfg.rules, m.name, m.pos))
  {
  }

  lemma GroupSends(cfg: Config, m: Move, listing: Option<Fault>, move: Option<Fault>)
    requires Sends(m, ListingReply(cfg, listing))
    ensures var (r2, c2) := Exec(cfg, SendMove(m.name, m.pos), move);
            MoveGroup(cfg, m.name, m.pos, listing, move) == (c2, r2.Done?)
  {
    assert Answer(cfg, SendMove(m.name, m.pos)) == (Done, Moved(cfg, m.name, m.pos));
  }

  /** From there on a rule handler, create or move, is `MoveGroup`, whatever the device fails. */
  lemma RestIsMoveGroup(op: Op, got: seq<Response>, cfg: Config, faults: Faults)
    requires Valid(op) && ReadyToMove(op, got)
    ensures var m := MoveOf(op, got);
            var (cfg', ok) := MoveGroup(cfg, m.name, m.pos, FaultAt(faults, |got|), FaultAt(faults, |got| + 1));
            RunFrom(op, got, cfg, faults) == (cfg', if ok then m.ok else m.failed)
  {
    var m, f1, f2 := MoveOf(op, got), FaultAt(faults, |got|), FaultAt(faults, |got| + 1);
    var r1 := ListingReply(cfg, f1);
    ListingRuns(op, got, cfg, faults);
    if Sends(m, r1) {
      SendRuns(op, got, r1, cfg, faults);
      GroupSends(cfg, m, f1, f2);
    } else {
      StopsAtListing(op, got, r1, cfg, faults);
      GroupStops(cfg, m, f1, f2);
    }
  }

  /** A move reads its rule first. */
  lemma MoveBegins(op: Op, faults: Faults, cfg: Config)
    requires op.RuleMove? && Valid(op)
    ensures Effect(Job(op, faults), cfg)
            == if 0 in faults || op.name !in Names(cfg.rules) then (cfg, Failed)
               else RunFrom(op, [GotRule(cfg.rules[Find(cfg.rules, op.name)])], cfg, faults)
  {
    NextRequest(op, [], cfg, faults);
    var r0 := Exec(cfg, ReadRule(op.name), FaultAt(faults, 0)).0;
    assert [] + [r0] == [r0];
  }

  lemma MoveIsGroup(op: Op, faults: Faults, cfg: Config)
    requires op.RuleMove? && Valid(op) && 0 !in faults && op.name in Names(cfg.rules)
    ensures var (cfg', ok) := MoveGroup(cfg, op.name, MovePosition(op.position, op.relativeTo).value,
                                        FaultAt(faults, 1), FaultAt(faults, 2));
            Effect(Job(op, faults), cfg) == (cfg', if ok then RuleMoved else Failed)
  {
    MoveBegins(op, faults, cfg);
    RestIsMoveGroup(op, [GotRule(cfg.rules[Find(cfg.rules, op.name)])], cfg, faults);
  }

  lemma StoredFound(cfg: Config, r: Rule)
    ensures var rules := Stored(cfg, r).rules;
            r.name in Names(rules) && rules[Find(rules, r.name)] == r
  {
    var rules, i := Stored(cfg, r).rules, Find(cfg.rules, r.name);
    if i < |cfg.rules| {
      assert Names(rules) == Names(cfg.rules);
    } else {
      assert Names(rules) == Names(cfg.rules) + [r.name];
      assert Names(rules)[|cfg.rules|] == r.name;
      assert forall k :: 0 <= k < |cfg.rules| ==> Names(rules)[k] == Names(cfg.rules)[k];
    }
  }

  /** A create sets its rule and reads it back; a failure of either ends it, whatever the set did. */
  lemma CreateBegins(op: Op, faults: Faults, cfg: Config)
    requires op.RuleCreate? && Valid(op)
    ensures var r, stored := op.built.value, Stored(cfg, op.built.value);
            Effect(Job(op, faults), cfg)
            == if FaultAt(faults, 0) == Some(Refuse) then (cfg, Failed)
               else if 0 in faults || 1 in faults then (stored, Failed)
               else RunFrom(op, [Done, GotRule(r)], stored, faults)
  {
    var r, stored := op.built.value, Stored(cfg, op.built.value);
    NextRequest(op, [], cfg, faults);
    var r0 := Exec(cfg, SetRule(r), FaultAt(faults, 0)).0;
    assert [] + [r0] == [r0];
    if 0 !in faults {
      StoredFound(cfg, r);
      NextRequest(op, [Done], stored, faults);
      var r1 := Exec(stored, ReadRule(r.name), FaultAt(faults, 1)).0;
      assert [Done] + [r1] == [Done, r1];
    }
  }

  /**
   * A rule move, for every combination of device failures: the rule is moved exactly when it exists, its position can
   * be taken and no request before or at the move was refused; success is reported exactly when nothing failed, or when
   * the rule was in its place already and the move was not sent.
   */
  lemma RuleMoveEffect(op: Op, faults: Faults, cfg: Config)
    requires op.RuleMove? && Valid(op) && Unique(cfg.rules)
    ensures var (cfg', reply) := Effect(Job(op, faults), cfg);
            var pos := MovePosition(op.position, op.relativeTo).value;
            var reached := 0 !in faults && 1 !in faults && Placeable(cfg.rules, op.name, pos);
            && cfg' == (if reached && FaultAt(faults, 2) != Some(Refuse) then Moved(cfg, op.name, pos) else cfg)
            && reply == (if reached && (2 !in faults || Sits(cfg.rules, op.name, pos)) then RuleMoved else Failed)
  {
    if 0 in faults || op.name !in Names(cfg.rules) {
      MoveBegins(op, faults, cfg);
    } else {
      MoveIsGroup(op, faults, cfg);
      MoveGroupExact(cfg, op.name, MovePosition(op.position, op.relativeTo).value,
                     FaultAt(faults, 1), FaultAt(faults, 2));
    }
  }

  /** What being moved means: the rule is where it was asked to be, and every other rule is in order. */
  lemma MovedPlaces(cfg: Config, name: string, pos: Position)
    requires Unique(cfg.rules) && Placeable(cfg.rules, name, pos)
    ensures var out := Moved(cfg, name, pos);
            && out.zones == cfg.zones && Unique(out.rules)
            && Sits(out.rules, name, pos) && Without(out.rules, name) == Without(cfg.rules, name)
            && cfg.rules[Find(cfg.rules, name)] in out.rules
            && (out == cfg <==> Sits(cfg.rules, name, pos))
  {
    PlacedSits(cfg.rules, name, pos);
    MoveChanges(cfg.rules, name, pos);
    SameRules(cfg, Placed(cfg.rules, name, pos));
  }

  lemma SameRules(cfg: Config, rules: seq<Rule>)
    ensures cfg.(rules := rules) == cfg <==> rules == cfg.rules
  {
  }

  lemma SameZones(cfg: Config, name: string, zone: Z.Zone)
    ensures cfg.(zones := cfg.zones[name := zone]) == cfg <==> name in cfg.zones && cfg.zones[name] == zone
  {
    if name in cfg.zones && cfg.zones[name] == zone {
      assert cfg.zones[name := zone] == cfg.zones;
    } else {
      assert name in cfg.zones[name := zone] && cfg.zones[name := zone][name] == zone;
    }
  }

  lemma CreatedIsMoved(op: Op, r: Rule, stored: Config, faults: Faults)
    requires op.RuleCreate? && Valid(op) && CreatePosition(op).Some?
    ensures var (cfg', ok) := MoveGroup(stored, r.name, CreatePosition(op).value,
                                        FaultAt(faults, 2), FaultAt(faults, 3));
            RunFrom(op, [Done, GotRule(r)], stored, faults)
            == (cfg', if ok then RuleCreated(r) else CreatedUnplaced(r))
  {
    var got := [Done, GotRule(r)];
    assert MoveOf(op, got) == Move(r.name, CreatePosition(op).value, RuleCreated(r), CreatedUnplaced(r));
    RestIsMoveGroup(op, got, stored, faults);
  }

  /** A rule that was set and read back is then moved, as by `MoveGroup`. */
  lemma CreateIsGroup(op: Op, faults: Faults, cfg: Config)
    requires op.RuleCreate? && Valid(op) && CreatePosition(op).Some? && 0 !in faults && 1 !in faults
    ensures var r := op.built.value;
            var (cfg', ok) := MoveGroup(Stored(cfg, r), r.name, CreatePosition(op).value,
                                        FaultAt(faults, 2), FaultAt(faults, 3));
            Effect(Job(op, faults), cfg) == (cfg', if ok then RuleCreated(r) else CreatedUnplaced(r))
  {
    CreateBegins(op, faults, cfg);
    CreatedIsMoved(op, op.built.value, Stored(cfg, op.built.value), faults);
  }

  /**
   * Creating a rule, for every combination of device failures: what is stored, whether it is moved, and which of the
   * three outcomes is reported.
   */
  lemma RuleCreateEffect(op: Op, faults: Faults, cfg: Config)
    requires op.RuleCreate? && Valid(op) && Unique(cfg.rules)
    ensures var (cfg', reply) := Effect(Job(op, faults), cfg);
            var r, pos := op.built.value, CreatePosition(op);
            var stored := Stored(cfg, r);
            if FaultAt(faults, 0) == Some(Refuse) then cfg' == cfg && reply == Failed
            else if 0 in faults || 1 in faults then cfg' == stored && reply == Failed
            else if pos.None? then cfg' == stored && reply == RuleCreated(r)
            else
              var reached := 2 !in faults && Placeable(stored.rules, r.name, pos.value);
              && cfg' == (if reached && FaultAt(faults, 3) != Some(Refuse) then Moved(stored, r.name, pos.value)
                          else stored)
              && reply == (if reached && (3 !in faults || Sits(stored.rules, r.name, pos.value)) then RuleCreated(r)
                           else CreatedUnplaced(r))
  {
    var r, pos := op.built.value, CreatePosition(op);
    if 0 in faults || 1 in faults || pos.None? {
      CreateBegins(op, faults, cfg);
    } else {
      CreateIsGroup(op, faults, cfg);
      StoredUnique(cfg, r);
      MoveGroupExact(Stored(cfg, r), r.name, pos.value, FaultAt(faults, 2), FaultAt(faults, 3));
    }
  }

  lemma StoredUnique(cfg: Config, r: Rule)
    requires Unique(cfg.rules)
    ensures Unique(Stored(cfg, r).rules)
  {
    WithRuleSets(cfg.rules, r);
  }

  /** A stored rule is in the rulebase, last if its name is new, and every other rule is where it was. */
  lemma StoredSets(cfg: Config, r: Rule)
    requires Unique(cfg.rules)
    ensures var out := Stored(cfg, r);
            && out.zones == cfg.zones && Unique(out.rules)
            && Without(out.rules, r.name) == Without(cfg.rules, r.name)
            && Find(out.rules, r.name) < |out.rules| && out.rules[Find(out.rules, r.name)] == r
            && (r.name !in Names(cfg.rules) ==> out.rules == cfg.rules + [r])
            && (out == cfg <==> r in cfg.rules)
  {
    WithRuleSets(cfg.rules, r);
    WithRuleChanges(cfg.rules, r);
    SameRules(cfg, WithRule(cfg.rules, r));
  }

  /** The set of a create was carried out, and then its reply or the read back failed. */
  predicate SetUnnoticed(faults: Faults) {
    FaultAt(faults, 0) != Some(Refuse) && (0 in faults || 1 in faults)
  }

  /**
   * What the three replies mean. Created: the rule is in the rulebase, where the position says if one was asked for,
   * and every other rule is where it was. Created but not positioned: it is where the set left it, or where it was
   * asked to be. Failed: nothing happened, or it is where the set left it, and which of the two is said exactly.
   */
  lemma RuleCreateMeans(op: Op, faults: Faults, cfg: Config)
    requires op.RuleCreate? && Valid(op) && Unique(cfg.rules)
    ensures var (cfg', reply) := Effect(Job(op, faults), cfg);
            var r, pos := op.built.value, CreatePosition(op);
            && Without(cfg'.rules, r.name) == Without(cfg.rules, r.name)
            && (reply == RuleCreated(r) || reply == CreatedUnplaced(r) || reply == Failed)
            && (reply == RuleCreated(r) ==>
                  r in cfg'.rules && if pos.None? then cfg' == Stored(cfg, r) else Sits(cfg'.rules, r.name, pos.value))
            && (reply == CreatedUnplaced(r) ==>
                  pos.Some? && (cfg' == Stored(cfg, r) || Sits(cfg'.rules, r.name, pos.value)))
            && (reply == Failed ==> cfg' == if SetUnnoticed(faults) then Stored(cfg, r) else cfg)
  {
    var r, pos := op.built.value, CreatePosition(op);
    RuleCreateEffect(op, faults, cfg);
    StoredSets(cfg, r);
    if pos.Some? && Placeable(Stored(cfg, r).rules, r.name, pos.value) {
      MovedPlaces(Stored(cfg, r), r.name, pos.value);
    }
  }

  /**
   * When "created but not positioned; the rule sits at the rulebase bottom" is true of the rulebase. If the move was
   * not carried out, when the rule's name was new or that of the last rule; if it was, and only its reply lost, when
   * the position asked for is the last slot.
   */
  lemma UnplacedAtBottom(op: Op, faults: Faults, cfg: Config)
    requires op.RuleCreate? && Valid(op) && Unique(cfg.rules)
    requires Effect(Job(op, faults), cfg).1.CreatedUnplaced?
    ensures CreatePosition(op).Some?
    ensures var r, pos := op.built.value, CreatePosition(op).value;
            var moved := 2 !in faults && FaultAt(faults, 3) != Some(Refuse)
                         && Placeable(Stored(cfg, r).rules, r.name, pos);
            Sits(Effect(Job(op, faults), cfg).0.rules, r.name, Bottom)
            <==> if moved then LastSlot(Without(cfg.rules, r.name), pos)
                 else Find(cfg.rules, r.name) >= |cfg.rules| - 1
  {
    RuleCreateEffect(op, faults, cfg);
    var r, pos := op.built.value, CreatePosition(op).value;
    if 2 !in faults && FaultAt(faults, 3) != Some(Refuse) && Placeable(Stored(cfg, r).rules, r.name, pos) {
      MovedFromStored(cfg, r, pos);
    } else {
      StoredAtBottom(cfg, r);
    }
  }

  lemma StoredAtBottom(cfg: Config, r: Rule)
    requires Unique(cfg.rules)
    ensures Sits(Stored(cfg, r).rules, r.name, Bottom) <==> Find(cfg.rules, r.name) >= |cfg.rules| - 1
  {
    var i := Find(cfg.rules, r.name);
    if i < |cfg.rules| {
      ReplacedSets(cfg.rules, r, i);
    } else {
      StoredUnique(cfg, r);
      FindIs(Stored(cfg, r).rules, r.name, |cfg.rules|);
    }
  }

  lemma MovedFromStored(cfg: Config, r: Rule, pos: Position)
    requires Unique(cfg.rules) && Placeable(Stored(cfg, r).rules, r.name, pos)
    ensures Sits(Moved(Stored(cfg, r), r.name, pos).rules, r.name, Bottom)
            <==> LastSlot(Without(cfg.rules, r.name), pos)
  {
    StoredSets(cfg, r);
    PlacedAtBottom(Stored(cfg, r).rules, r.name, pos);
  }

  /** One such call without any device failure: the pivot does not exist, and the rule stays first. */
  lemma UnplacedNotAtBottom(a: Rule, b: Rule, zones: map<string, Z.Zone>)
    requires a.name != b.name && a.name != "ghost" && b.name != "ghost"
    ensures Effect(Job(RuleCreate(Some(a), "before", "ghost", true), map[]), Config(zones, [a, b]))
            == (Config(zones, [a, b]), CreatedUnplaced(a))
    ensures Find([a, b], a.name) == 0
  {
    var cfg := Config(zones, [a, b]);
    FindIs([a, b], a.name, 0);
    assert [a, b][0 := a] == [a, b];
    RuleCreateEffect(RuleCreate(Some(a), "before", "ghost", true), map[], cfg);
  }

  // ----- In the words of the input -----

  /** Exactly which calls pass validation: no handler that writes gets further with any other. */
  lemma ValidExactly(op: Op)
    ensures Valid(op) <==>
            match op
            case ZoneCreate(input, locOk) =>
              && locOk && input.name != "" && Z.NamesType(input.networkType)
              && (input.networkType == "tunnel" ==> input.interfaces.GetOr([]) == [])
            case ZoneUpdate(input, locOk) => locOk && input.name != ""
            case ZoneDelete(name, locOk) => locOk && name != ""
            case RuleCreate(built, position, relativeTo, locOk) =>
              locOk && built.Some? && (position == "" || Worded(position, relativeTo))
            case RuleMove(name, position, relativeTo, locOk) => locOk && name != "" && Worded(position, relativeTo)
            case _ => true
  {
    match op
    case ZoneCreate(input, _) => Z.BuildAccepts(input);
    case RuleCreate(_, position, relativeTo, _) => WordsAccepted(position, relativeTo);
    case RuleMove(_, position, relativeTo, _) => WordsAccepted(position, relativeTo);
    case _ =>
  }

  /**
   * A move in its own words. It reports success only with the rule standing as asked, every other rule in order; and
   * when the device fails nothing, it does so exactly if the rule is there and so is the one it is to stand next to.
   */
  lemma MovedAsWorded(op: Op, faults: Faults, cfg: Config)
    requires op.RuleMove? && Valid(op) && Unique(cfg.rules)
    ensures var (cfg', reply) := Effect(Job(op, faults), cfg);
            && (reply == RuleMoved || reply == Failed)
            && (reply == RuleMoved ==>
                  && StandsAs(cfg'.rules, op.name, op.position, op.relativeTo)
                  && Without(cfg'.rules, op.name) == Without(cfg.rules, op.name))
            && (faults == map[] ==>
                  (reply == RuleMoved <==>
                     && op.name in Names(cfg.rules)
                     && (op.relativeTo != "" ==> op.relativeTo != op.name && op.relativeTo in Names(cfg.rules))))
  {
    WordsAccepted(op.position, op.relativeTo);
    var pos := MovePosition(op.position, op.relativeTo).value;
    RuleMoveEffect(op, faults, cfg);
    WordsPlaceable(cfg.rules, op.name, op.position, op.relativeTo);
    if Placeable(cfg.rules, op.name, pos) {
      MovedPlaces(cfg, op.name, pos);
      var cfg' := Effect(Job(op, faults), cfg).0;
      if Sits(cfg'.rules, op.name, pos) {
        SitsAsWorded(cfg'.rules, op.name, op.position, op.relativeTo);
      }
    }
  }

  /** A create in its own words: what it reports as created is there, and stands as asked if it was asked. */
  lemma CreatedAsWorded(op: Op, faults: Faults, cfg: Config)
    requires op.RuleCreate? && Valid(op) && Unique(cfg.rules)
    ensures var (cfg', reply) := Effect(Job(op, faults), cfg);
            var r := op.built.value;
            && (reply == RuleCreated(r) ==>
                  r in cfg'.rules && (op.position != "" ==> StandsAs(cfg'.rules, r.name, op.position, op.relativeTo)))
            && (faults == map[] ==>
                  (reply == RuleCreated(r) <==>
                     op.position == "" || op.relativeTo == ""
                     || (op.relativeTo != r.name && op.relativeTo in Names(cfg.rules))))
  {
    var r := op.built.value;
    RuleCreateEffect(op, faults, cfg);
    RuleCreateMeans(op, faults, cfg);
    if op.position != "" {
      WordsAccepted(op.position, op.relativeTo);
      var cfg' := Effect(Job(op, faults), cfg).0;
      if Sits(cfg'.rules, r.name, CreatePosition(op).value) {
        SitsAsWorded(cfg'.rules, r.name, op.position, op.relativeTo);
      }
      WordsPlaceable(Stored(cfg, r).rules, r.name, op.position, op.relativeTo);
      StoredNames(cfg, r, op.relativeTo);
    }
  }

  lemma StoredNames(cfg: Config, r: Rule, name: string)
    ensures name in Names(Stored(cfg, r).rules) <==> name == r.name || name in Names(cfg.rules)
  {
    var i := Find(cfg.rules, r.name);
    if i < |cfg.rules| {
      assert Names(Stored(cfg, r).rules) == Names(cfg.rules);
    } else {
      assert Names(Stored(cfg, r).rules) == Names(cfg.rules) + [r.name];
    }
  }

  /** A locked read changes nothing, and what it answers is known for every configuration and every failure. */
  lemma ReadEffect(op: Op, faults: Faults, cfg: Config)
    requires Lock(op).Shared?
    ensures var (cfg', reply) := Effect(Job(op, faults), cfg);
            && cfg' == cfg
            && (op.ZoneGet? || op.ZoneList? || op.RuleList?)
            && reply == match op
                        case ZoneGet(name, locOk) =>
                          if name == "" || !locOk then Rejected
                          else if 0 in faults || name !in cfg.zones then Failed else ZoneDoc(cfg.zones[name])
                        case ZoneList(locOk) =>
                          if !locOk then Rejected else if 0 in faults then Failed else ZoneNames(cfg.zones.Keys)
                        case RuleList(locOk) =>
                          if !locOk then Rejected else if 0 in faults then Failed else RuleDocs(cfg.rules)
                        case _ => Failed
  {
    SharedChangesNothing(op, [], cfg, faults);
    var a := Decide(op, []);
    if a.Issue? {
      var (r0, c0) := Exec(cfg, a.q, FaultAt(faults, 0));
      assert [] + [r0] == [r0];
      assert RunFrom(op, [], cfg, faults) == RunFrom(op, [r0], c0, faults);
    }
  }

  /** Creating a zone sets the built zone and reads it back. */
  lemma ZoneCreateEffect(op: Op, faults: Faults, cfg: Config)
    requires op.ZoneCreate? && Valid(op)
    ensures var (cfg', reply) := Effect(Job(op, faults), cfg);
            var zone := Z.BuildZone(op.input).value;
            && cfg' == (if FaultAt(faults, 0) == Some(Refuse) then cfg
                        else cfg.(zones := cfg.zones[op.input.name := zone]))
            && reply == (if 0 in faults || 1 in faults then Failed else ZoneDoc(zone))
  {
    var zone := Z.BuildZone(op.input).value;
    NextRequest(op, [], cfg, faults);
    var r0 := Exec(cfg, SetZone(op.input.name, zone), FaultAt(faults, 0)).0;
    assert [] + [r0] == [r0];
    if r0.Done? {
      ReadBackLast(op, [Done], op.input.name, cfg.(zones := cfg.zones[op.input.name := zone]), faults);
    }
  }

  /** Deleting a zone takes it out, unless the device refuses or there is none. */
  lemma ZoneDeleteEffect(op: Op, faults: Faults, cfg: Config)
    requires op.ZoneDelete? && Valid(op)
    ensures var (cfg', reply) := Effect(Job(op, faults), cfg);
            && cfg' == (if FaultAt(faults, 0) == Some(Refuse) then cfg else cfg.(zones := cfg.zones - {op.name}))
            && reply == (if 0 in faults || op.name !in cfg.zones then Failed else ZoneDeleted)
  {
    NextRequest(op, [], cfg, faults);
    var r0 := Exec(cfg, DeleteZone(op.name), FaultAt(faults, 0)).0;
    assert [] + [r0] == [r0];
    if op.name !in cfg.zones {
      assert cfg.zones - {op.name} == cfg.zones;
      assert cfg.(zones := cfg.zones) == cfg;
    }
  }

  // ----- What a rule handler spares -----

  lemma RuleMoveReplies(op: Op, faults: Faults, cfg: Config)
    requires Valid(op) && op.RuleMove?
    ensures var (cfg', reply) := Effect(Job(op, faults), cfg);
            (reply.Failed? || reply.RuleMoved?) && cfg'.zones == cfg.zones
  {
    MoveBegins(op, faults, cfg);
    if 0 !in faults && op.name in Names(cfg.rules) {
      MoveIsGroup(op, faults, cfg);
    }
  }

  lemma RuleCreateReplies(op: Op, faults: Faults, cfg: Config)
    requires Valid(op) && op.RuleCreate?
    ensures var (cfg', reply) := Effect(Job(op, faults), cfg);
            (reply.Failed? || reply.RuleCreated? || reply.CreatedUnplaced?) && cfg'.zones == cfg.zones
  {
    CreateBegins(op, faults, cfg);
    if CreatePosition(op).Some? && 0 !in faults && 1 !in faults {
      CreateIsGroup(op, faults, cfg);
    }
  }

  // ----- When a failed call has written -----

  /**
   * The call will carry out a write that changes something, and then fail without having learned of it. A lost reply to
   * the write does that, and for creates and updates a failed read back of what was written; nothing else.
   */
  predicate WritesUnnoticed(job: Job, cfg: Config) {
    var faults := job.faults;
    && Valid(job.op)
    && match job.op
       case ZoneCreate(input, _) =>
         && SetUnnoticed(faults)
         && !(input.name in cfg.zones && cfg.zones[input.name] == Z.BuildZone(input).value)
       case ZoneUpdate(input, _) =>
         && 0 !in faults && 1 !in faults && input.name in cfg.zones
         && var overlaid := Z.OverlayZone(cfg.zones[input.name], input);
            && overlaid.Ok? && overlaid.value != cfg.zones[input.name]
            && FaultAt(faults, 2) != Some(Refuse) && (2 in faults || 3 in faults)
       case ZoneDelete(name, _) => FaultAt(faults, 0) == Some(LoseReply) && name in cfg.zones
       case RuleCreate(built, _, _, _) => SetUnnoticed(faults) && built.value !in cfg.rules
       case RuleMove(name, position, relativeTo, _) =>
         var pos := MovePosition(position, relativeTo).value;
         && 0 !in faults && 1 !in faults && FaultAt(faults, 2) == Some(LoseReply)
         && Placeable(cfg.rules, name, pos) && !Sits(cfg.rules, name, pos)
       case _ => false
  }

  lemma ZoneFailure(job: Job, cfg: Config)
    requires Valid(job.op) && (job.op.ZoneCreate? || job.op.ZoneUpdate? || job.op.ZoneDelete?)
    ensures var (cfg', reply) := Effect(job, cfg);
            && (reply == Failed && cfg' != cfg <==> WritesUnnoticed(job, cfg))
            && (reply == Rejected ==> cfg' == cfg)
  {
    var op, faults := job.op, job.faults;
    assert job == Job(op, faults);
    if op.ZoneUpdate? {
      assert op == ZoneUpdate(op.input, true);
      ZoneUpdateEffect(op.input, faults, cfg);
      if op.input.name in cfg.zones && Z.OverlayZone(cfg.zones[op.input.name], op.input).Ok? {
        SameZones(cfg, op.input.name, Z.OverlayZone(cfg.zones[op.input.name], op.input).value);
      }
    } else if op.ZoneCreate? {
      ZoneCreateEffect(op, faults, cfg);
      SameZones(cfg, op.input.name, Z.BuildZone(op.input).value);
    } else {
      ZoneDeleteEffect(op, faults, cfg);
      assert op.name in cfg.zones ==> (cfg.zones - {op.name}) != cfg.zones;
      assert op.name !in cfg.zones ==> cfg.zones - {op.name} == cfg.zones;
    }
  }

  lemma RuleCreateFailure(op: Op, faults: Faults, cfg: Config)
    requires Valid(op) && op.RuleCreate? && Unique(cfg.rules)
    ensures var (cfg', reply) := Effect(Job(op, faults), cfg);
            && (reply == Failed <==> 0 in faults || 1 in faults) && reply != Rejected
            && (reply == Failed ==> (cfg' != cfg <==> SetUnnoticed(faults) && op.built.value !in cfg.rules))
  {
    RuleCreateEffect(op, faults, cfg);
    StoredSets(cfg, op.built.value);
  }

  lemma RuleMoveFailure(op: Op, faults: Faults, cfg: Config)
    requires Valid(op) && op.RuleMove? && Unique(cfg.rules)
    ensures var (cfg', reply) := Effect(Job(op, faults), cfg);
            && (reply == Failed && cfg' != cfg <==> WritesUnnoticed(Job(op, faults), cfg))
            && reply != Rejected
  {
    var pos := MovePosition(op.position, op.relativeTo).value;
    RuleMoveEffect(op, faults, cfg);
    assert 2 in faults ==> faults[2].Refuse? || faults[2].LoseReply?;
    if Placeable(cfg.rules, op.name, pos) {
      MovedPlaces(cfg, op.name, pos);
    }
  }

  /** A call that fails has changed the configuration exactly when it wrote unnoticed; a rejected one never has. */
  lemma FailedCallWrote(job: Job, cfg: Config)
    requires Unique(cfg.rules)
    ensures var (cfg', reply) := Effect(job, cfg);
            && (reply == Failed && cfg' != cfg <==> WritesUnnoticed(job, cfg))
            && (reply == Rejected ==> cfg' == cfg)
  {
    var op := job.op;
    if Valid(op) {
      assert job == Job(op, job.faults);
      if Lock(op).Shared? {
        ReadEffect(op, job.faults, cfg);
      } else if op.RuleCreate? {
        RuleCreateFailure(op, job.faults, cfg);
      } else if op.RuleMove? {
        RuleMoveFailure(op, job.faults, cfg);
      } else {
        ZoneFailure(job, cfg);
      }
    }
  }

  /** One such call: the zone is edited, the read back is refused, and the tool reports failure. */
  lemma FailedUpdateThatWrote()
    ensures var input := Z.ZoneInput("dmz", "", None, "", "", None, Some(true), None);
            Effect(Job(ZoneUpdate(input, true), map[3 := Refuse]), Config(map["dmz" := Z.NEW_ZONE], []))
            == (Config(map["dmz" := Z.Zone(Some(true), None, None)], []), Failed)
  {
    var input := Z.ZoneInput("dmz", "", None, "", "", None, Some(true), None);
    var cfg := Config(map["dmz" := Z.NEW_ZONE], []);
    ZoneUpdateEffect(input, map[3 := Refuse], cfg);
    assert cfg.zones["dmz" := Z.Zone(Some(true), None, None)] == map["dmz" := Z.Zone(Some(true), None, None)];
  }

  /**
   * Another: a rule to be created on top is set, its read back is refused, and the tool reports failure without having
   * tried to move the rule, which is left last.
   */
  lemma FailedCreateThatWrote(a: Rule, b: Rule, zones: map<string, Z.Zone>)
    requires a.name != b.name
    ensures Effect(Job(RuleCreate(Some(b), "top", "", true), map[1 := Refuse]), Config(zones, [a]))
            == (Config(zones, [a, b]), Failed)
  {
    var cfg := Config(zones, [a]);
    assert Names(cfg.rules) == [a.name] && [a] + [b] == [a, b];
    RuleCreateEffect(RuleCreate(Some(b), "top", "", true), map[1 := Refuse], cfg);
  }
}
