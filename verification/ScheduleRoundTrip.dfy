/** Nothing provided is dropped, nothing else touched, repeating changes nothing, and a get feeds back as an update. */
module ScheduleRoundTrip {
  import opened Wrappers
  import opened Decimal
  import opened WallClock
  import opened ScheduleSpec
  import opened ScheduleOverlay
  import opened ScheduleTheorems

  // ----- Nothing provided is dropped -----

  /** A provided time is stored in canonical form for the kind of cadence it belongs to. */
  ghost predicate StoresAt(cs: CadenceSpec, at: string, stored: Option<AtTime>) {
    match cs.at
    case AtNone => false
    case AtWallClock => stored.Some? && stored.value.Clock? && ParseWallClock(at) == Some(stored.value.time)
    case AtMinutes(max) =>
      stored.Some? && stored.value.Minute? && 0 <= stored.value.minutes <= max
      && Atoi(TrimSpace(at)) == Some(stored.value.minutes)
  }

  /** Every field the input provides is in the result: on the cadence node or on the recurring container. */
  ghost predicate StoresInput(spec: FeatureSpec, input: ScheduleInput, r: Recurring) {
    && (input.threshold.Some? ==> r.level.threshold == input.threshold)
    && (input.newAppThreshold.Some? ==> r.level.newAppThreshold == input.newAppThreshold)
    && (input.syncToPeer.Some? && !spec.sync.SyncCadence? ==> r.level.syncToPeer == input.syncToPeer)
    && (input.recurrence.None? ==>
          input.action.None? && input.at.None? && input.dayOfWeek.None? && input.disableNewContent.None?
          && (spec.sync.SyncCadence? ==> input.syncToPeer.None?))
    && (input.recurrence.Some? ==>
          var c := NamedCadence(input.recurrence.value);
          && c.Some? && spec.cadences.Slot(c.value).Some? && r.nodes.Slot(c.value).Some?
          && (forall d :: d != c.value ==> r.nodes.Slot(d).None?)
          && var node := r.nodes.Slot(c.value).value;
             && (input.action.Some? ==> node.action == input.action)
             && (input.at.Some? ==> StoresAt(spec.cadences.Slot(c.value).value, input.at.value, node.at))
             && (input.dayOfWeek.Some? ==> node.dayOfWeek == input.dayOfWeek)
             && (input.disableNewContent.Some? ==> node.disableNewContent == input.disableNewContent)
             && (input.syncToPeer.Some? && spec.sync.SyncCadence? ==> node.syncToPeer == input.syncToPeer))
  }

  lemma OverlayStoresInput(spec: FeatureSpec, r: Recurring, input: ScheduleInput)
    requires TableOverlay(spec, r, input).Ok?
    ensures StoresInput(spec, input, TableOverlay(spec, r, input).value)
  {
    var p := ParseSchedule(spec, input).value;
    if p.cadence.Some? {
      var node := r.nodes.Slot(p.cadence.value).GetOr(NO_FIELDS).Over(NodeFields(spec, p));
      forall d ensures Only(p.cadence.value, node).Slot(d) == if d == p.cadence.value then Some(node) else None {
        OnlySlot(p.cadence.value, node, d);
      }
    }
  }

  /** A whole update stores all of its input, and leaves every feature it does not mention as it was. */
  lemma UpdateStoresAndSpares(c: Config, input: UpdatesInput, f: Feature)
    requires TableConfig(c, input).Ok?
    ensures var after := TableConfig(c, input).value.features.Item(f);
            match input.features.Item(f)
            case None => after == c.features.Item(f)
            case Some(part) => after.Some? && StoresInput(SpecOf(f), part, after.value)
  {
    TableFromSplits(0, c, input);
    var part := input.features.Item(f);
    if part.Some? {
      OverlayStoresInput(SpecOf(f), c.features.Item(f).GetOr(EMPTY), part.value);
    }
  }

  // ----- Repeating an update changes nothing -----

  lemma OverIdempotent(n: Node, p: Node)
    ensures n.Over(p).Over(p) == n.Over(p)
  {
  }

  lemma OverlayIdempotent(spec: FeatureSpec, r: Recurring, input: ScheduleInput)
    requires TableOverlay(spec, r, input).Ok?
    ensures TableOverlay(spec, TableOverlay(spec, r, input).value, input) == TableOverlay(spec, r, input)
  {
    var p := ParseSchedule(spec, input).value;
    ParsedCadence(spec, input);
    if p.cadence.Some? {
      var c := p.cadence.value;
      var stored := r.nodes.Slot(c).GetOr(NO_FIELDS);
      OnlySlot(c, stored.Over(NodeFields(spec, p)), c);
      OverIdempotent(stored, NodeFields(spec, p));
    }
  }

  lemma SameItems<T>(a: PerFeature<T>, b: PerFeature<T>)
    requires forall f :: a.Item(f) == b.Item(f)
    ensures a == b
  {
    assert a.Item(AntiVirus) == b.Item(AntiVirus) && a.Item(AppProfile) == b.Item(AppProfile);
    assert a.Item(Threats) == b.Item(Threats) && a.Item(Wildfire) == b.Item(Wildfire);
    assert a.Item(WfPrivate) == b.Item(WfPrivate) && a.Item(GpDatafile) == b.Item(GpDatafile);
    assert a.Item(GpClientless) == b.Item(GpClientless);
  }

  /** An overlay whose every part maps a state to itself maps the whole state to itself. */
  lemma FixedPoint(c: Config, input: UpdatesInput)
    requires Provides(input)
    requires forall f :: FeatureStep(f, c.features.Item(f), input.features.Item(f)) == Ok(c.features.Item(f))
    requires StatisticsStep(c.statistics, input.statistics) == c.statistics
    ensures TableConfig(c, input) == Ok(c)
  {
    TableFromSplits(0, c, input);
    var c' := TableFrom(0, c, input).value;
    forall f ensures c'.features.Item(f) == c.features.Item(f) {
      assert Rank(f) >= 0;
    }
    SameItems(c'.features, c.features);
  }

  /** The same update applied twice is the update applied once. */
  lemma UpdateIdempotent(c: Config, input: UpdatesInput)
    requires TableConfig(c, input).Ok?
    ensures TableConfig(TableConfig(c, input).value, input) == TableConfig(c, input)
  {
    var c' := TableConfig(c, input).value;
    TableFromSplits(0, c, input);
    forall f ensures FeatureStep(f, c'.features.Item(f), input.features.Item(f)) == Ok(c'.features.Item(f)) {
      assert Rank(f) >= 0;
      if input.features.Item(f).Some? {
        OverlayIdempotent(SpecOf(f), c.features.Item(f).GetOr(EMPTY), input.features.Item(f).value);
      }
    }
    if input.statistics.Some? {
      var once := c.statistics.GetOr(map[]) + input.statistics.value;
      assert once + input.statistics.value == once;
    }
    FixedPoint(c', input);
  }

  // ----- What every reachable schedule looks like -----

  ghost predicate GoodLevel(spec: FeatureSpec, l: Level) {
    && (l.syncToPeer.Some? ==> spec.sync.SyncRecurring?)
    && (l.threshold.Some? ==> spec.threshold && THRESHOLD_MIN <= l.threshold.value <= THRESHOLD_MAX)
    && (l.newAppThreshold.Some? ==> spec.newAppThreshold && THRESHOLD_MIN <= l.newAppThreshold.value <= THRESHOLD_MAX)
  }

  /** The node carries what its cadence requires, and every field of it is one the validation would accept. */
  ghost predicate GoodNode(spec: FeatureSpec, cs: CadenceSpec, n: Node) {
    && (cs.hasAction ==> n.action.Some?)
    && (!cs.at.AtNone? ==> n.at.Some?)
    && (cs.hasDay ==> n.dayOfWeek.Some?)
    && GoodFields(spec, cs, n)
  }

  ghost predicate GoodFields(spec: FeatureSpec, cs: CadenceSpec, n: Node) {
    && n.unmodeled.None?
    && (n.action.Some? ==> cs.hasAction && ValidAction(n.action.value))
    && (n.dayOfWeek.Some? ==> cs.hasDay && ValidDay(n.dayOfWeek.value))
    && (n.disableNewContent.Some? ==> cs.hasDisable && spec.disableNewContent)
    && (n.syncToPeer.Some? ==> spec.sync.SyncCadence? && cs.hasSync)
    && (n.at.Some? ==> GoodAt(cs, n.at.value))
  }

  ghost predicate GoodAt(cs: CadenceSpec, at: AtTime) {
    match cs.at
    case AtNone => false
    case AtWallClock => at.Clock? && ParseWallClock(at.time) == Some(at.time)
    case AtMinutes(max) => at.Minute? && 0 <= at.minutes <= max
  }

  ghost predicate Good(spec: FeatureSpec, r: Recurring) {
    && GoodLevel(spec, r.level)
    && (exists c :: GoodOnly(spec, r, c))
  }

  ghost predicate GoodOnly(spec: FeatureSpec, r: Recurring, c: Cadence) {
    && spec.cadences.Slot(c).Some? && r.nodes.Slot(c).Some?
    && r.nodes == Only(c, r.nodes.Slot(c).value)
    && GoodNode(spec, spec.cadences.Slot(c).value, r.nodes.Slot(c).value)
  }

  lemma ParsedAtGood(cs: CadenceSpec, at: string)
    requires ParseScheduleAt(cs, Some(at)).Ok?
    ensures var (time, minutes) := ParseScheduleAt(cs, Some(at)).value;
            var stored := if time.Some? then ClockAt(time) else MinutesAt(minutes);
            stored.Some? && GoodAt(cs, stored.value)
  {
    if ParseWallClock(at).Some? {
      CanonicalIsFixed(at);
    }
  }

  /** The fields a parsed plan provides for a cadence are valid ones. */
  lemma ParsedFieldsGood(spec: FeatureSpec, cs: CadenceSpec, input: ScheduleInput)
    requires ParseSchedule(spec, input).Ok?
    requires var p := ParseSchedule(spec, input).value;
             p.cadence.Some? && spec.cadences.Slot(p.cadence.value) == Some(cs)
    ensures GoodFields(spec, cs, NodeFields(spec, ParseSchedule(spec, input).value))
  {
    if input.at.Some? {
      ParsedAtGood(cs, input.at.value);
    }
  }

  lemma OverKeepsGood(spec: FeatureSpec, cs: CadenceSpec, stored: Node, provided: Node)
    requires GoodFields(spec, cs, stored) && GoodFields(spec, cs, provided)
    ensures GoodFields(spec, cs, stored.Over(provided))
    ensures GoodNode(spec, cs, stored) || cs.FirstMissing(stored.Over(provided)).Pass? ==>
              GoodNode(spec, cs, stored.Over(provided))
  {
  }

  lemma LevelKeepsGood(spec: FeatureSpec, stored: Level, input: ScheduleInput)
    requires GoodLevel(spec, stored) && ParseSchedule(spec, input).Ok?
    ensures GoodLevel(spec, stored.Over(LevelFields(spec, ParseSchedule(spec, input).value)))
  {
  }

  lemma OverlayKeepsGood(spec: FeatureSpec, stored: Option<Recurring>, input: ScheduleInput)
    requires stored.Some? ==> Good(spec, stored.value)
    requires TableOverlay(spec, stored.GetOr(EMPTY), input).Ok?
    ensures Good(spec, TableOverlay(spec, stored.GetOr(EMPTY), input).value)
  {
    var r := stored.GetOr(EMPTY);
    var p := ParseSchedule(spec, input).value;
    var r' := TableOverlay(spec, r, input).value;
    ParsedCadence(spec, input);
    LevelKeepsGood(spec, r.level, input);
    if p.cadence.None? {
      var c :| GoodOnly(spec, stored.value, c);
      assert GoodOnly(spec, r', c);
    } else {
      var c := p.cadence.value;
      var cs := spec.cadences.Slot(c).value;
      var node := r.nodes.Slot(c).GetOr(NO_FIELDS);
      if r.nodes.Slot(c).Some? {
        var d :| GoodOnly(spec, r, d);
        OnlySlot(d, r.nodes.Slot(d).value, c);
      }
      ParsedFieldsGood(spec, cs, input);
      OverKeepsGood(spec, cs, node, NodeFields(spec, p));
      OnlySlot(c, node.Over(NodeFields(spec, p)), c);
      assert GoodOnly(spec, r', c);
    }
  }

  /** Whatever cadence there is has what it needs: an action, a time and a day, each where it makes sense. */
  ghost predicate Complete(nodes: Branches) {
    forall c :: nodes.Slot(c).Some? ==>
      var n := nodes.Slot(c).value;
      && (c != NoSchedule && c != RealTime ==> n.action.Some? && ValidAction(n.action.value))
      && (c != NoSchedule && c != RealTime && c != EveryMin ==> n.at.Some?)
      && (c == Weekly ==> n.dayOfWeek.Some? && ValidDay(n.dayOfWeek.value))
  }

  lemma GoodIsComplete(f: Feature, r: Recurring)
    requires Good(SpecOf(f), r)
    ensures Complete(r.nodes)
  {
    var c :| GoodOnly(SpecOf(f), r, c);
    SpecShape(f, c);
    forall d | r.nodes.Slot(d).Some? ensures d == c {
      OnlySlot(c, r.nodes.Slot(c).value, d);
    }
  }

  /** Every feature reached from an empty configuration has one cadence, complete and valid. */
  lemma ReachableIsGood(run: seq<UpdatesInput>, f: Feature)
    requires RunUpdates(run).Some?
    ensures var r := RunUpdates(run).value.features.Item(f);
            r.Some? ==> Good(SpecOf(f), r.value) && Complete(r.value.nodes)
  {
    AllGood(run, f);
    if RunUpdates(run).value.features.Item(f).Some? {
      GoodIsComplete(f, RunUpdates(run).value.features.Item(f).value);
    }
  }

  lemma {:induction false} AllGood(run: seq<UpdatesInput>, f: Feature)
    requires RunUpdates(run).Some?
    ensures var r := RunUpdates(run).value.features.Item(f); r.Some? ==> Good(SpecOf(f), r.value)
  {
    if run != [] {
      var m := |run| - 1;
      AllGood(run[..m], f);
      var c := RunUpdates(run[..m]).value;
      FeatureOfUpdate(f, c, run[m]);
      if run[m].features.Item(f).Some? {
        OverlayKeepsGood(SpecOf(f), c.features.Item(f), run[m].features.Item(f).value);
      }
    }
  }

  // ----- Feeding a get back as an update -----

  function InputOf(s: Summary): ScheduleInput {
    ScheduleInput(Some(s.recurrence), s.action, s.at, s.dayOfWeek, s.syncToPeer, s.threshold, s.newAppThreshold,
                  s.disableNewContent)
  }

  function FeatureInputOf(s: Option<Summary>): Option<ScheduleInput> {
    if s.None? then None else Some(InputOf(s.value))
  }

  function UpdateOf(s: ConfigSummary): UpdatesInput {
    var f := s.features;
    UpdatesInput(PerFeature(FeatureInputOf(f.antiVirus), FeatureInputOf(f.appProfile), FeatureInputOf(f.threats),
                            FeatureInputOf(f.wildfire), FeatureInputOf(f.wfPrivate), FeatureInputOf(f.gpDatafile),
                            FeatureInputOf(f.gpClientless)), s.statistics)
  }

  lemma FedBackItem(c: Config, f: Feature)
    ensures UpdateOf(TableConfigSummary(c)).features.Item(f) == FeatureInputOf(SummaryItem(f, c.features.Item(f)))
  {
  }

  /** The summary's special cases are the table's: which cadences have an action, and which of those a time. */
  lemma SpecShape(f: Feature, c: Cadence)
    requires SpecOf(f).cadences.Slot(c).Some?
    ensures var cs := SpecOf(f).cadences.Slot(c).value;
            && (cs.hasAction <==> c != NoSchedule && c != RealTime)
            && (!cs.at.AtNone? <==> cs.hasAction && c != EveryMin)
            && (cs.hasDay <==> c == Weekly)
            && c in SpecOf(f).order
  {
    var order := SpecOf(f).order;
    match f
    case AntiVirus => assert c == order[0] || c == order[1] || c == order[2] || c == order[3];
    case AppProfile => assert c == order[0] || c == order[1] || c == order[2];
    case Threats => assert c == order[0] || c == order[1] || c == order[2] || c == order[3] || c == order[4];
    case Wildfire => assert c == order[0] || c == order[1] || c == order[2] || c == order[3]
                            || c == order[4] || c == order[5];
    case WfPrivate => assert c == order[0] || c == order[1] || c == order[2] || c == order[3] || c == order[4];
    case GpDatafile => assert c == order[0] || c == order[1] || c == order[2] || c == order[3];
    case GpClientless => assert c == order[0] || c == order[1] || c == order[2] || c == order[3];
  }

  lemma {:induction false} ActiveOnly(order: seq<Cadence>, c: Cadence, node: Node)
    requires c in order
    ensures Active(order, Only(c, node)) == Some(c)
  {
    OnlySlot(c, node, order[0]);
    if order[0] != c {
      ActiveOnly(order[1..], c, node);
    }
  }

  lemma NamesDiffer(c: Cadence)
    ensures CadenceName(c) != ""
    ensures CadenceName(c) == "none" <==> c == NoSchedule
    ensures CadenceName(c) == "real-time" <==> c == RealTime
    ensures CadenceName(c) == "every-min" <==> c == EveryMin
  {
    NamedCadenceInverts(c);
    NamedCadenceInverts(NoSchedule);
    NamedCadenceInverts(RealTime);
    NamedCadenceInverts(EveryMin);
  }

  /** What a get reports of a good feature: the active cadence, and each of its fields as an update writes it. */
  lemma SummaryOfGood(f: Feature, r: Recurring, c: Cadence)
    requires GoodOnly(SpecOf(f), r, c) && GoodLevel(SpecOf(f), r.level)
    ensures var s, n := TableSummary(SpecOf(f), r), r.nodes.Slot(c).value;
            && s.recurrence == CadenceName(c)
            && s.action == n.action && s.dayOfWeek == n.dayOfWeek && s.disableNewContent == n.disableNewContent
            && s.at == (if n.at.Some? then Some(RenderAt(n.at)) else None)
            && s.syncToPeer == (if SpecOf(f).sync.SyncCadence? then n.syncToPeer else r.level.syncToPeer)
            && s.threshold == r.level.threshold && s.newAppThreshold == r.level.newAppThreshold
  {
    var n := r.nodes.Slot(c).value;
    SpecShape(f, c);
    ActiveOnly(SpecOf(f).order, c, n);
    NamesDiffer(c);
  }

  lemma RenderedAtParses(spec: FeatureSpec, cs: CadenceSpec, n: Node)
    requires GoodNode(spec, cs, n) && n.at.Some?
    requires cs.at.AtMinutes? ==> cs.at.max <= INT64_MAX
    ensures ParseScheduleAt(cs, Some(RenderAt(n.at)))
            == Ok(if n.at.value.Clock? then (Some(n.at.value.time), None) else (None, Some(n.at.value.minutes)))
  {
    if n.at.value.Minute? {
      ItoaTrimmed(n.at.value.minutes);
      AtoiItoa(n.at.value.minutes);
    }
  }

  lemma MinutesSmall(f: Feature, c: Cadence)
    requires SpecOf(f).cadences.Slot(c).Some?
    ensures var at := SpecOf(f).cadences.Slot(c).value.at; at.AtMinutes? ==> at.max <= 59
  {
  }

  lemma FeatureRoundTrip(f: Feature, r: Recurring)
    requires Good(SpecOf(f), r)
    ensures TableOverlay(SpecOf(f), r, InputOf(TableSummary(SpecOf(f), r))) == Ok(r)
  {
    var spec := SpecOf(f);
    var c :| GoodOnly(spec, r, c);
    var n, cs := r.nodes.Slot(c).value, spec.cadences.Slot(c).value;
    SummaryOfGood(f, r, c);
    NamedCadenceInverts(c);
    MinutesSmall(f, c);
    if n.at.Some? {
      RenderedAtParses(spec, cs, n);
    }
    var input := InputOf(TableSummary(spec, r));
    SummaryParses(spec, r, c, input);
    var p := ParseSchedule(spec, input).value;
    assert n.Over(NodeFields(spec, p)) == n;
    assert r.level.Over(LevelFields(spec, p)) == r.level;
  }

  lemma SummaryParses(spec: FeatureSpec, r: Recurring, c: Cadence, input: ScheduleInput)
    requires GoodOnly(spec, r, c) && GoodLevel(spec, r.level)
    requires input.recurrence.Some? && NamedCadence(input.recurrence.value) == Some(c)
    requires var n := r.nodes.Slot(c).value;
             && input.action == n.action && input.dayOfWeek == n.dayOfWeek
             && input.disableNewContent == n.disableNewContent
             && input.syncToPeer == (if spec.sync.SyncCadence? then n.syncToPeer else r.level.syncToPeer)
             && input.threshold == r.level.threshold && input.newAppThreshold == r.level.newAppThreshold
             && (n.at.None? ==> input.at.None?)
             && (n.at.Some? ==>
                   ParseScheduleAt(spec.cadences.Slot(c).value, input.at)
                   == Ok(if n.at.value.Clock? then (Some(n.at.value.time), None) else (None, Some(n.at.value.minutes))))
    ensures ParseSchedule(spec, input).Ok?
    ensures var p, n := ParseSchedule(spec, input).value, r.nodes.Slot(c).value;
            && p.cadence == Some(c) && NodeFields(spec, p) == n && LevelFields(spec, p) == r.level
  {
    var n, cs := r.nodes.Slot(c).value, spec.cadences.Slot(c).value;
    var at := ParseScheduleAt(cs, input.at).value;
    ScalarsAccepted(spec, cs, r.level, n, input);
    NodeAccepted(spec, cs, n, input);
    AcceptedPlan(spec, c, input);
    FieldsKept(spec, cs, r.level, n, PlanOf(input, Some(c), at.0, at.1));
  }

  /** An input that passes every check parses to its own fields. */
  lemma AcceptedPlan(spec: FeatureSpec, c: Cadence, input: ScheduleInput)
    requires input.recurrence.Some? && NamedCadence(input.recurrence.value) == Some(c)
    requires spec.cadences.Slot(c).Some?
    requires ValidateFeatureScalars(spec, input).Pass? && ValidateScheduleEnums(input).Pass?
    requires ValidateCadenceFields(spec, spec.cadences.Slot(c).value, input).Pass?
    requires ParseScheduleAt(spec.cadences.Slot(c).value, input.at).Ok?
    ensures var at := ParseScheduleAt(spec.cadences.Slot(c).value, input.at).value;
            ParseSchedule(spec, input) == Ok(PlanOf(input, Some(c), at.0, at.1))
  {
  }

  lemma NodeAccepted(spec: FeatureSpec, cs: CadenceSpec, n: Node, input: ScheduleInput)
    requires GoodFields(spec, cs, n)
    requires input.action == n.action && input.dayOfWeek == n.dayOfWeek
    requires input.disableNewContent == n.disableNewContent
    requires spec.sync.SyncCadence? ==> input.syncToPeer == n.syncToPeer
    ensures ValidateScheduleEnums(input).Pass? && ValidateCadenceFields(spec, cs, input).Pass?
  {
  }

  /** A plan with the stored values provides exactly the stored fields. */
  lemma FieldsKept(spec: FeatureSpec, cs: CadenceSpec, l: Level, n: Node, p: Plan)
    requires GoodLevel(spec, l) && GoodNode(spec, cs, n)
    requires p.action == n.action && p.dayOfWeek == n.dayOfWeek && p.disableNewContent == n.disableNewContent
    requires p.syncToPeer == (if spec.sync.SyncCadence? then n.syncToPeer else l.syncToPeer)
    requires p.threshold == l.threshold && p.newAppThreshold == l.newAppThreshold
    requires n.at.None? ==> p.atStr.None? && p.atMin.None?
    requires n.at.Some? ==> (p.atStr, p.atMin) == (if n.at.value.Clock? then (Some(n.at.value.time), None)
                                                   else (None, Some(n.at.value.minutes)))
    ensures NodeFields(spec, p) == n && LevelFields(spec, p) == l
  {
  }

  lemma ScalarsAccepted(spec: FeatureSpec, cs: CadenceSpec, l: Level, n: Node, input: ScheduleInput)
    requires GoodLevel(spec, l) && GoodFields(spec, cs, n)
    requires input.threshold == l.threshold && input.newAppThreshold == l.newAppThreshold
    requires input.disableNewContent == n.disableNewContent
    requires input.syncToPeer == (if spec.sync.SyncCadence? then n.syncToPeer else l.syncToPeer)
    ensures ValidateFeatureScalars(spec, input).Pass?
  {
  }

  /**
   * A get of any state that successful updates reached from nothing, fed back as an update, succeeds and changes
   * nothing; only when nothing was ever configured is there nothing to feed back.
   */
  lemma GetFeedsBack(run: seq<UpdatesInput>)
    requires RunUpdates(run).Some?
    ensures var c := RunUpdates(run).value;
            TableConfig(c, UpdateOf(TableConfigSummary(c))) == if run == [] then Err(NoFeature) else Ok(c)
  {
    var c := RunUpdates(run).value;
    var input := UpdateOf(TableConfigSummary(c));
    if run != [] {
      forall f ensures FeatureStep(f, c.features.Item(f), input.features.Item(f)) == Ok(c.features.Item(f)) {
        FedBackItem(c, f);
        ReachableIsGood(run, f);
        if c.features.Item(f).Some? {
          FeatureRoundTrip(f, c.features.Item(f).value);
        }
      }
      if c.statistics.Some? {
        assert c.statistics.value + c.statistics.value == c.statistics.value;
      }
      SomethingConfigured(run);
      FixedPoint(c, input);
    }
  }

  lemma SomethingConfigured(run: seq<UpdatesInput>)
    requires run != [] && RunUpdates(run).Some?
    ensures Provides(UpdateOf(TableConfigSummary(RunUpdates(run).value)))
  {
    var m := |run| - 1;
    var before, after := RunUpdates(run[..m]).value, RunUpdates(run).value;
    if run[m].statistics.Some? {
      TableFromSplits(0, before, run[m]);
    } else {
      var f :| run[m].features.Item(f).Some?;
      FeatureOfUpdate(f, before, run[m]);
      FedBackItem(after, f);
      assert UpdateOf(TableConfigSummary(after)).features.Item(f).Some?;
    }
  }
}
