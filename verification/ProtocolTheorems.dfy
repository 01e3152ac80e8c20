/** What serializability buys: invariants of every state, no lost update, no rule seen in a transient slot. */
module ProtocolTheorems {
  import opened Wrappers
  import opened FieldValues
  import opened Rulebase
  import opened Handlers
  import opened Protocol
  import O = OneOf
  import Z = Zone

  // ----- Invariants of every state, also in the middle of a call -----

  /** Names identify rules, and every zone has at most one network type. */
  ghost predicate Sound(cfg: Config) {
    Unique(cfg.rules) && forall n :: n in cfg.zones ==> O.AtMostOne(Z.Branches(cfg.zones[n]))
  }

  ghost predicate SoundResponse(resp: Response) {
    resp.GotZone? ==> O.AtMostOne(Z.Branches(resp.zone))
  }

  ghost predicate SoundRequest(q: Request) {
    q.SetZone? || q.EditZone? ==> O.AtMostOne(Z.Branches(q.zone))
  }

  lemma StoredSound(cfg: Config, r: Rule)
    requires Sound(cfg)
    ensures Sound(Stored(cfg, r))
  {
    StoredSets(cfg, r);
  }

  lemma MovedSound(cfg: Config, name: string, pos: Position)
    requires Sound(cfg) && Placeable(cfg.rules, name, pos)
    ensures Sound(Moved(cfg, name, pos))
  {
    MovedPlaces(cfg, name, pos);
  }

  lemma AnswerSound(cfg: Config, q: Request)
    requires Sound(cfg) && SoundRequest(q)
    ensures Sound(Answer(cfg, q).1) && SoundResponse(Answer(cfg, q).0)
  {
    if q.SetRule? {
      StoredSound(cfg, q.rule);
    } else if q.SendMove? {
      if Placeable(cfg.rules, q.name, q.pos) {
        MovedSound(cfg, q.name, q.pos);
      }
    }
  }

  lemma ExecSound(cfg: Config, q: Request, fault: Option<Fault>)
    requires Sound(cfg) && SoundRequest(q)
    ensures Sound(Exec(cfg, q, fault).1) && SoundResponse(Exec(cfg, q, fault).0)
  {
    AnswerSound(cfg, q);
  }

  lemma DecideSound(op: Op, hist: seq<Response>)
    requires Valid(op) && Decide(op, hist).Issue? && forall k :: 0 <= k < |hist| ==> SoundResponse(hist[k])
    ensures SoundRequest(Decide(op, hist).q)
  {
    if op.ZoneCreate? {
      Z.CreatedZone(op.input);
    } else if op.ZoneUpdate? && Decide(op, hist).q.EditZone? {
      assert SoundResponse(hist[0]);
      Z.TypeAfterStep(hist[0].zone, op.input);
    }
  }

  ghost predicate SoundCall(s: Sys, i: Id) {
    At(s, i).Running? ==> forall k :: 0 <= k < |At(s, i).hist| ==> SoundResponse(At(s, i).hist[k])
  }

  /** In every state of every behaviour, requests between locks included, the configuration stays sound. */
  lemma {:induction false} AlwaysSound(calls: Calls, c0: Config, events: seq<Event>)
    requires Sound(c0) && Run(calls, Init(c0), events).Some?
    ensures var s := Run(calls, Init(c0), events).value;
            Sound(s.cfg) && forall i :: SoundCall(s, i)
  {
    if events != [] {
      var n := |events| - 1;
      AlwaysSound(calls, c0, events[..n]);
      var s, e := Run(calls, Init(c0), events[..n]).value, events[n];
      var s', op := Step(calls, s, e), calls(e.i).op;
      assert SoundCall(s, e.i);
      if e.Send? {
        DecideSound(op, At(s, e.i).hist);
        ExecSound(s.cfg, Decide(op, At(s, e.i).hist).q, FaultAt(calls(e.i).faults, |At(s, e.i).hist|));
      }
      forall i ensures SoundCall(s', i) {
        assert SoundCall(s, i);
      }
    }
  }

  // ----- Failed calls -----

  /**
   * What a finished writer that reports failure did at its turn of the serial order: it changed the configuration
   * exactly when it wrote unnoticed there, and a rejected one changed nothing.
   */
  lemma FailedTurn(calls: Calls, c0: Config, events: seq<Event>, i: Id)
    requires Run(calls, Init(c0), events).Some? && Sound(c0)
    requires At(Run(calls, Init(c0), events).value, i).Finished? && i in Run(calls, Init(c0), events).value.order
    ensures var s := Run(calls, Init(c0), events).value;
            && i in s.turn && s.turn[i] < |s.order| && s.order[s.turn[i]] == i
            && var before, after := Serial(calls, c0, s.order[..s.turn[i]]),
                                   Serial(calls, c0, s.order[..s.turn[i] + 1]);
               && (At(s, i).reply == Failed && after != before <==> WritesUnnoticed(calls(i), before))
               && (At(s, i).reply == Rejected ==> after == before)
  {
    Serializable(calls, c0, events);
    var s := Run(calls, Init(c0), events).value;
    assert AnsweredInTurn(calls, c0, s, i);
    SerialStep(calls, c0, s.order, s.turn[i]);
    SerialSound(calls, c0, s.order[..s.turn[i]]);
    FailedCallWrote(calls(i), Serial(calls, c0, s.order[..s.turn[i]]));
  }

  // ----- No lost update -----

  /** Everything a zone update can supply. */
  datatype Setting = UserId | DeviceId | Protection | LogSetting | PacketBuffer | NetworkType | Members

  /** What a zone has for a setting: its type as reported, and its interfaces, which a tunnel does not have. */
  function SettingOf(z: Z.Zone, f: Setting): Option<Val> {
    var n := z.network.GetOr(Z.NO_NET);
    match f
    case UserId => Flagged(z.userId)
    case DeviceId => Flagged(z.deviceId)
    case Protection => Texted(n.protection)
    case LogSetting => Texted(n.logSetting)
    case PacketBuffer => Flagged(n.packetBuffer)
    case NetworkType => Some(Text(Z.TypeString(z.network)))
    case Members => Listed(Z.Interfaces(z.network))
  }

  /** An input supplies a setting. An empty name supplies none; a type supplies the interfaces too, if only none. */
  predicate Supplies(input: Z.ZoneInput, f: Setting) {
    match f
    case UserId => input.userId.Some?
    case DeviceId => input.deviceId.Some?
    case Protection => input.protection != ""
    case LogSetting => input.logSetting != ""
    case PacketBuffer => input.packetBuffer.Some?
    case NetworkType => input.networkType != ""
    case Members => input.networkType != "" || input.interfaces.Some?
  }

  /** The value it supplies. */
  function Given(input: Z.ZoneInput, f: Setting): Option<Val>
    requires Supplies(input, f)
  {
    match f
    case UserId => Flagged(input.userId)
    case DeviceId => Flagged(input.deviceId)
    case Protection => Some(Text(input.protection))
    case LogSetting => Some(Text(input.logSetting))
    case PacketBuffer => Flagged(input.packetBuffer)
    case NetworkType => Some(Text(input.networkType))
    case Members => if input.networkType == "tunnel" then None else Some(List(input.interfaces.GetOr([])))
  }

  lemma OverlayGives(z: Z.Zone, input: Z.ZoneInput, f: Setting)
    requires Z.OverlayZone(z, input).Ok?
    ensures SettingOf(Z.OverlayZone(z, input).value, f)
            == if Supplies(input, f) then Given(input, f) else SettingOf(z, f)
  {
    if f == NetworkType || f == Members {
      NetworkGives(z, input);
    }
  }

  /** The one-of part: a named type and its interfaces replace what was there, interfaces alone keep the type. */
  lemma NetworkGives(z: Z.Zone, input: Z.ZoneInput)
    requires Z.OverlayZone(z, input).Ok?
    ensures var after := Z.OverlayZone(z, input).value.network;
            && Z.TypeString(after) == (if input.networkType != "" then input.networkType else Z.TypeString(z.network))
            && Z.Interfaces(after)
               == (if input.networkType == "tunnel" then None
                   else if input.networkType != "" || input.interfaces.Some? then Some(input.interfaces.GetOr([]))
                   else Z.Interfaces(z.network))
  {
    if input.networkType != "" {
      Z.NamedKindNames(input.networkType);
    }
  }

  /** A call that cannot change a setting of a zone: about another zone, not a zone write, or silent on the setting. */
  predicate Spares(op: Op, name: string, f: Setting) {
    match op
    case ZoneCreate(input, _) => input.name != name
    case ZoneUpdate(input, _) => input.name != name || !Supplies(input, f)
    case ZoneDelete(n, _) => n != name
    case _ => true
  }

  predicate Holds(cfg: Config, name: string, f: Setting, v: Option<Val>) {
    name in cfg.zones && SettingOf(cfg.zones[name], f) == v
  }

  lemma SparedHolds(job: Job, cfg: Config, name: string, f: Setting, v: Option<Val>)
    requires Spares(job.op, name, f) && Holds(cfg, name, f, v)
    ensures Holds(Effect(job, cfg).0, name, f, v)
  {
    var op, faults := job.op, job.faults;
    assert job == Job(op, faults);
    if Valid(op) {
      if Lock(op).Shared? {
        ReadEffect(op, faults, cfg);
      } else if op.ZoneUpdate? {
        assert op == ZoneUpdate(op.input, true);
        ZoneUpdateEffect(op.input, faults, cfg);
        if op.input.name == name && Z.OverlayZone(cfg.zones[name], op.input).Ok? {
          OverlayGives(cfg.zones[name], op.input, f);
        }
      } else if op.ZoneCreate? {
        ZoneCreateEffect(op, faults, cfg);
      } else if op.ZoneDelete? {
        ZoneDeleteEffect(op, faults, cfg);
      } else if op.RuleMove? {
        RuleMoveReplies(op, faults, cfg);
      } else {
        RuleCreateReplies(op, faults, cfg);
      }
    }
  }

  lemma {:induction false} SerialSpares(
      calls: Calls, c0: Config, order: seq<Id>, k: nat, m: nat, name: string, f: Setting, v: Option<Val>)
    requires k <= m <= |order| && Holds(Serial(calls, c0, order[..k]), name, f, v)
    requires forall j :: k <= j < m ==> Spares(calls(order[j]).op, name, f)
    ensures Holds(Serial(calls, c0, order[..m]), name, f, v)
  {
    if k < m {
      SerialSpares(calls, c0, order, k, m - 1, name, f, v);
      SerialStep(calls, c0, order, m - 1);
      SparedHolds(calls(order[m - 1]), Serial(calls, c0, order[..m - 1]), name, f, v);
    }
  }

  /** What an update that reports success supplied is there right after it. */
  lemma UpdateLands(job: Job, before: Config, f: Setting)
    requires job.op.ZoneUpdate? && Supplies(job.op.input, f) && Valid(job.op) && Effect(job, before).1.ZoneDoc?
    ensures Holds(Effect(job, before).0, job.op.input.name, f, Given(job.op.input, f))
  {
    var input := job.op.input;
    assert job == Job(ZoneUpdate(input, true), job.faults);
    ZoneUpdateEffect(input, job.faults, before);
    OverlayGives(before.zones[input.name], input, f);
  }

  /** A reply about the zone says the same of the setting. */
  predicate Agrees(op: Op, name: string, resp: Response, f: Setting, v: Option<Val>) {
    op.ZoneUpdate? && op.input.name == name && resp.GotZone? ==> SettingOf(resp.zone, f) == v
  }

  /** What a zone update asks the device: to read its zone, or to edit it as the overlay of what it read first. */
  lemma UpdateAsks(input: Z.ZoneInput, hist: seq<Response>)
    requires DecideZoneUpdate(input, hist).Issue?
    ensures var q := DecideZoneUpdate(input, hist).q;
            q == ReadZone(input.name) ||
            (&& hist != [] && hist[0].GotZone? && Z.OverlayZone(hist[0].zone, input).Ok?
             && q == EditZone(input.name, Z.OverlayZone(hist[0].zone, input).value))
  {
  }

  lemma UpdateRequestSpares(input: Z.ZoneInput, hist: seq<Response>, cfg: Config, fault: Option<Fault>,
                            f: Setting, v: Option<Val>)
    requires DecideZoneUpdate(input, hist).Issue? && !Supplies(input, f) && Holds(cfg, input.name, f, v)
    requires hist != [] && hist[0].GotZone? ==> SettingOf(hist[0].zone, f) == v
    ensures var (resp, cfg') := Exec(cfg, DecideZoneUpdate(input, hist).q, fault);
            Holds(cfg', input.name, f, v) && (resp.GotZone? ==> SettingOf(resp.zone, f) == v)
  {
    UpdateAsks(input, hist);
    if DecideZoneUpdate(input, hist).q.EditZone? {
      OverlayGives(hist[0].zone, input, f);
    }
  }

  /** Every other request of a sparing writer is about another zone or the rulebase. */
  lemma OtherRequestSpares(op: Op, hist: seq<Response>, cfg: Config, fault: Option<Fault>,
                           name: string, f: Setting, v: Option<Val>)
    requires Valid(op) && Lock(op).Exclusive? && Spares(op, name, f) && Holds(cfg, name, f, v)
    requires Decide(op, hist).Issue? && !(op.ZoneUpdate? && op.input.name == name)
    ensures Holds(Exec(cfg, Decide(op, hist).q, fault).1, name, f, v)
  {
    if op.ZoneUpdate? {
      UpdateAsks(op.input, hist);
    }
  }

  lemma RequestSpares(op: Op, hist: seq<Response>, cfg: Config, fault: Option<Fault>,
                      name: string, f: Setting, v: Option<Val>)
    requires Valid(op) && Lock(op).Exclusive? && Spares(op, name, f) && Holds(cfg, name, f, v)
    requires Decide(op, hist).Issue? && forall k :: 0 <= k < |hist| ==> Agrees(op, name, hist[k], f, v)
    ensures var (resp, cfg') := Exec(cfg, Decide(op, hist).q, fault);
            Holds(cfg', name, f, v) && Agrees(op, name, resp, f, v)
  {
    if op.ZoneUpdate? && op.input.name == name {
      assert hist != [] ==> Agrees(op, name, hist[0], f, v);
      UpdateRequestSpares(op.input, hist, cfg, fault, f, v);
    } else {
      OtherRequestSpares(op, hist, cfg, fault, name, f, v);
    }
  }

  /** A call that spares a setting spares it at every moment, not only when it is done. */
  lemma {:induction false} RequestsSpare(job: Job, cfg: Config, n: nat, name: string, f: Setting, v: Option<Val>)
    requires Valid(job.op) && Lock(job.op).Exclusive? && Spares(job.op, name, f) && Holds(cfg, name, f, v)
    ensures var (hist, c) := Requests(job, cfg, n);
            Holds(c, name, f, v) && forall k :: 0 <= k < |hist| ==> Agrees(job.op, name, hist[k], f, v)
  {
    if n > 0 {
      RequestsSpare(job, cfg, n - 1, name, f, v);
      var (hist, c) := Requests(job, cfg, n - 1);
      if Decide(job.op, hist).Issue? {
        OneMoreRequest(job, cfg, n - 1);
        RequestSpares(job.op, hist, c, FaultAt(job.faults, |hist|), name, f, v);
        var (resp, c') := Exec(c, Decide(job.op, hist).q, FaultAt(job.faults, |hist|));
        forall k | 0 <= k < |hist| + 1 ensures Agrees(job.op, name, (hist + [resp])[k], f, v) {
          assert k < |hist| ==> (hist + [resp])[k] == hist[k];
        }
      }
    }
  }

  /** It is there in the serial order right after its turn. */
  lemma UpdateAtTurn(calls: Calls, c0: Config, events: seq<Event>, i: Id, f: Setting)
    requires Run(calls, Init(c0), events).Some?
    requires var s := Run(calls, Init(c0), events).value;
             && At(s, i).Finished? && At(s, i).reply.ZoneDoc? && calls(i).op.ZoneUpdate?
             && Supplies(calls(i).op.input, f)
    ensures var s := Run(calls, Init(c0), events).value;
            var input := calls(i).op.input;
            && i in s.turn && s.turn[i] < |s.order| && s.order[s.turn[i]] == i
            && Holds(Serial(calls, c0, s.order[..s.turn[i] + 1]), input.name, f, Given(input, f))
  {
    Serializable(calls, c0, events);
    var s := Run(calls, Init(c0), events).value;
    assert AnsweredInTurn(calls, c0, s, i);
    var t := s.turn[i];
    UpdateLands(calls(i), Serial(calls, c0, s.order[..t]), f);
    SerialStep(calls, c0, s.order, t);
  }

  /** In the middle of a writer's call that spares a setting, it holds if it held before the call. */
  lemma HoldsMidCall(calls: Calls, c0: Config, s: Sys, name: string, f: Setting, v: Option<Val>)
    requires WriterIsLast(calls, c0, s)
    requires var m := |s.order| - 1;
             && Lock(calls(s.order[m]).op).Exclusive? && Spares(calls(s.order[m]).op, name, f)
             && Holds(Serial(calls, c0, s.order[..m]), name, f, v)
    ensures Holds(s.cfg, name, f, v)
  {
    var m := |s.order| - 1;
    var w := s.order[m];
    RequestsSpare(calls(w), Serial(calls, c0, s.order[..m]), |At(s, w).hist|, name, f, v);
  }

  /** The state as the serial order has it: the serial state, or a call of the last writer begun on the one before. */
  predicate Explains(calls: Calls, c0: Config, s: Sys) {
    if s.writer.None? then s.cfg == Serial(calls, c0, s.order)
    else WriterIsLast(calls, c0, s) && Lock(calls(s.order[|s.order| - 1]).op).Exclusive?
  }

  lemma Explained(calls: Calls, c0: Config, events: seq<Event>)
    requires Run(calls, Init(c0), events).Some?
    ensures Explains(calls, c0, Run(calls, Init(c0), events).value)
  {
    Serializable(calls, c0, events);
    var s := Run(calls, Init(c0), events).value;
    assert s.writer.Some? ==> s.order[|s.order| - 1] in s.order;
  }

  predicate SparedFrom(calls: Calls, order: seq<Id>, k: nat, name: string, f: Setting) {
    forall j :: k <= j < |order| ==> Spares(calls(order[j]).op, name, f)
  }

  /** What holds after some turn and is spared from then on holds now, in the middle of the last call or not. */
  lemma StillHolds(calls: Calls, c0: Config, s: Sys, k: nat, name: string, f: Setting, v: Option<Val>)
    requires Explains(calls, c0, s) && k <= |s.order| && (s.writer.Some? ==> k < |s.order|)
    requires Holds(Serial(calls, c0, s.order[..k]), name, f, v) && SparedFrom(calls, s.order, k, name, f)
    ensures Holds(s.cfg, name, f, v)
  {
    if s.writer.None? {
      SerialSpares(calls, c0, s.order, k, |s.order|, name, f, v);
      assert s.order[..|s.order|] == s.order;
    } else {
      SerialSpares(calls, c0, s.order, k, |s.order| - 1, name, f, v);
      HoldsMidCall(calls, c0, s, name, f, v);
    }
  }

  lemma HoldsSince(calls: Calls, c0: Config, events: seq<Event>, k: nat, name: string, f: Setting, v: Option<Val>)
    requires Run(calls, Init(c0), events).Some?
    requires var s := Run(calls, Init(c0), events).value;
             && k <= |s.order| && (s.writer.Some? ==> k < |s.order|)
             && Holds(Serial(calls, c0, s.order[..k]), name, f, v) && SparedFrom(calls, s.order, k, name, f)
    ensures Holds(Run(calls, Init(c0), events).value.cfg, name, f, v)
  {
    Explained(calls, c0, events);
    StillHolds(calls, c0, Run(calls, Init(c0), events).value, k, name, f, v);
  }

  /** A finished call is not the one in flight. */
  lemma TurnIsPast(calls: Calls, c0: Config, events: seq<Event>, t: nat)
    requires Run(calls, Init(c0), events).Some?
    requires var s := Run(calls, Init(c0), events).value; t < |s.order| && At(s, s.order[t]).Finished?
    ensures var s := Run(calls, Init(c0), events).value; s.writer.Some? ==> t + 1 < |s.order|
  {
    Explained(calls, c0, events);
  }

  /**
   * No update is lost: whatever a successful zone update supplied, network type and interfaces included, is in the
   * configuration of every later state, in the middle of other calls too, unless a later writer of the order, finished
   * or in flight, was about that setting.
   */
  lemma NoLostUpdate(calls: Calls, c0: Config, events: seq<Event>, i: Id, f: Setting)
    requires Run(calls, Init(c0), events).Some?
    requires var s := Run(calls, Init(c0), events).value;
             && At(s, i).Finished? && At(s, i).reply.ZoneDoc? && calls(i).op.ZoneUpdate?
             && Supplies(calls(i).op.input, f)
    ensures var s := Run(calls, Init(c0), events).value;
            var input := calls(i).op.input;
            && i in s.turn
            && ((forall j :: s.turn[i] < j < |s.order| ==> Spares(calls(s.order[j]).op, input.name, f)) ==>
                  Holds(s.cfg, input.name, f, Given(input, f)))
  {
    UpdateAtTurn(calls, c0, events, i, f);
    var s := Run(calls, Init(c0), events).value;
    var input, t := calls(i).op.input, s.turn[i];
    if forall j :: t < j < |s.order| ==> Spares(calls(s.order[j]).op, input.name, f) {
      TurnIsPast(calls, c0, events, t);
      HoldsSince(calls, c0, events, t + 1, input.name, f, Given(input, f));
    }
  }

  // ----- No transient slot -----

  predicate WritesRules(op: Op) {
    op.RuleCreate? || op.RuleMove?
  }

  /** No rule writer has its turn from `k` on and before `m`. */
  predicate Quiet(calls: Calls, order: seq<Id>, k: nat, m: nat)
    requires m <= |order|
  {
    forall j :: k <= j < m ==> !WritesRules(calls(order[j]).op)
  }

  lemma SparesRules(job: Job, cfg: Config)
    requires !WritesRules(job.op)
    ensures Effect(job, cfg).0.rules == cfg.rules
  {
    var op, faults := job.op, job.faults;
    assert job == Job(op, faults);
    if Valid(op) {
      if Lock(op).Shared? {
        ReadEffect(op, faults, cfg);
      } else if op.ZoneUpdate? {
        assert op == ZoneUpdate(op.input, true);
        ZoneUpdateEffect(op.input, faults, cfg);
      } else if op.ZoneCreate? {
        ZoneCreateEffect(op, faults, cfg);
      } else {
        ZoneDeleteEffect(op, faults, cfg);
      }
    }
  }

  lemma {:induction false} QuietKeepsRules(calls: Calls, c0: Config, order: seq<Id>, k: nat, m: nat)
    requires k <= m <= |order| && Quiet(calls, order, k, m)
    ensures Serial(calls, c0, order[..m]).rules == Serial(calls, c0, order[..k]).rules
  {
    if k < m {
      QuietKeepsRules(calls, c0, order, k, m - 1);
      SerialStep(calls, c0, order, m - 1);
      SparesRules(calls(order[m - 1]), Serial(calls, c0, order[..m - 1]));
    }
  }

  /** The rulebase a finished locked list reports is the one of its turn. */
  lemma ListedAtTurn(calls: Calls, c0: Config, events: seq<Event>, reader: Id)
    requires Run(calls, Init(c0), events).Some?
    requires At(Run(calls, Init(c0), events).value, reader).Finished?
    requires At(Run(calls, Init(c0), events).value, reader).reply.RuleDocs?
    ensures var s := Run(calls, Init(c0), events).value;
            && reader in s.turn && s.turn[reader] <= |s.order|
            && At(s, reader).reply.rules == Serial(calls, c0, s.order[..s.turn[reader]]).rules
  {
    Serializable(calls, c0, events);
    var s, job := Run(calls, Init(c0), events).value, calls(reader);
    assert AnsweredInTurn(calls, c0, s, reader);
    assert job == Job(job.op, job.faults);
    var cfg := Serial(calls, c0, s.order[..s.turn[reader]]);
    ReaderIsShared(job, cfg);
    ReadEffect(job.op, job.faults, cfg);
  }

  /** The rulebase a positioned create leaves behind. */
  lemma CreateLeaves(job: Job, before: Config)
    requires Sound(before) && Valid(job.op) && job.op.RuleCreate? && CreatePosition(job.op).Some?
    ensures var left, reply := Effect(job, before).0.rules, Effect(job, before).1;
            var r, pos := job.op.built.value, CreatePosition(job.op).value;
            && Without(left, r.name) == Without(before.rules, r.name)
            && (reply == RuleCreated(r) ==> r in left && Sits(left, r.name, pos))
            && (left == before.rules || Sits(left, r.name, pos) ||
                (left == Stored(before, r).rules
                 && (reply == CreatedUnplaced(r) || (reply == Failed && SetUnnoticed(job.faults)))))
  {
    assert job == Job(job.op, job.faults);
    RuleCreateMeans(job.op, job.faults, before);
  }

  /**
   * A create that also positions its rule is two device writes, with the rule at a transient slot in between. A locked
   * list that no other rule writer separates from the create sees the rulebase from before the first write or from
   * after the last: if it lists the rule anywhere but in the place asked for, then the create's own reply was that
   * positioning failed, or that the create failed, the set having been carried out and its reply or read back not.
   */
  lemma NoTransientSlot(calls: Calls, c0: Config, events: seq<Event>, creator: Id, reader: Id)
    requires Run(calls, Init(c0), events).Some? && Sound(c0)
    requires var s := Run(calls, Init(c0), events).value;
             && At(s, creator).Finished? && At(s, reader).Finished? && At(s, reader).reply.RuleDocs?
             && Valid(calls(creator).op) && calls(creator).op.RuleCreate? && CreatePosition(calls(creator).op).Some?
    ensures var s := Run(calls, Init(c0), events).value;
            var op, listed, reply := calls(creator).op, At(s, reader).reply.rules, At(s, creator).reply;
            var r, pos := op.built.value, CreatePosition(op).value;
            && HasTurn(calls, s, creator) && reader in s.turn && s.turn[reader] <= |s.order|
            && var before, b, t := Serial(calls, c0, s.order[..s.turn[creator]]), s.turn[creator], s.turn[reader];
               && (t <= b && Quiet(calls, s.order, t, b) ==> listed == before.rules)
               && (b < t && Quiet(calls, s.order, b + 1, t) ==>
                     && Without(listed, r.name) == Without(before.rules, r.name)
                     && (reply == RuleCreated(r) ==> r in listed && Sits(listed, r.name, pos))
                     && (listed == before.rules || Sits(listed, r.name, pos) ||
                         (listed == Stored(before, r).rules
                          && (reply == CreatedUnplaced(r) ||
                              (reply == Failed && SetUnnoticed(calls(creator).faults))))))
  {
    Serializable(calls, c0, events);
    ListedAtTurn(calls, c0, events, reader);
    var s, job := Run(calls, Init(c0), events).value, calls(creator);
    assert AnsweredInTurn(calls, c0, s, creator);
    var b, t := s.turn[creator], s.turn[reader];
    if t <= b {
      if Quiet(calls, s.order, t, b) {
        QuietKeepsRules(calls, c0, s.order, t, b);
      }
    } else if Quiet(calls, s.order, b + 1, t) {
      QuietKeepsRules(calls, c0, s.order, b + 1, t);
      SerialStep(calls, c0, s.order, b);
      SerialSound(calls, c0, s.order[..b]);
      CreateLeaves(job, Serial(calls, c0, s.order[..b]));
    }
  }

  lemma ReaderIsShared(job: Job, cfg: Config)
    requires Effect(job, cfg).1.RuleDocs? && Valid(job.op)
    ensures Lock(job.op).Shared?
  {
    var op, faults := job.op, job.faults;
    assert job == Job(op, faults);
    if op.ZoneUpdate? {
      assert op == ZoneUpdate(op.input, true);
      ZoneUpdateEffect(op.input, faults, cfg);
    } else if op.ZoneCreate? {
      ZoneCreateEffect(op, faults, cfg);
    } else if op.ZoneDelete? {
      ZoneDeleteEffect(op, faults, cfg);
    } else if op.RuleMove? {
      RuleMoveReplies(op, faults, cfg);
    } else if op.RuleCreate? {
      RuleCreateReplies(op, faults, cfg);
    }
  }

  lemma {:induction false} RunSound(op: Op, hist: seq<Response>, cfg: Config, faults: Faults)
    requires Valid(op) && Sound(cfg) && forall k :: 0 <= k < |hist| ==> SoundResponse(hist[k])
    ensures Sound(RunFrom(op, hist, cfg, faults).0)
    decreases MAX_REQUESTS - |hist|
  {
    var a := Decide(op, hist);
    if a.Issue? {
      DecideSound(op, hist);
      ExecSound(cfg, a.q, FaultAt(faults, |hist|));
      var (resp, cfg') := Exec(cfg, a.q, FaultAt(faults, |hist|));
      RunSound(op, hist + [resp], cfg', faults);
    }
  }

  lemma {:induction false} SerialSound(calls: Calls, c0: Config, order: seq<Id>)
    requires Sound(c0)
    ensures Sound(Serial(calls, c0, order))
  {
    if order != [] {
      var n := |order| - 1;
      SerialSound(calls, c0, order[..n]);
      var job := calls(order[n]);
      if Valid(job.op) {
        RunSound(job.op, [], Serial(calls, c0, order[..n]), job.faults);
      }
    }
  }
}
