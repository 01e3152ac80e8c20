/** What holds over every run of schedule updates, and of a get fed back as an update. */
module ScheduleTheorems {
  import opened Wrappers
  import opened OneOf
  import opened ScheduleSpec
  import opened ScheduleOverlay

  // ----- The overlay as a one-of -----

  datatype NodeField = FAction | FAt | FDay | FSync | FDisable | FUnmodeled

  datatype Val = Text(s: string) | Time(t: AtTime) | Flag(b: bool)

  function Field(n: Node, f: NodeField): Option<Val> {
    match f
    case FAction => if n.action.Some? then Some(Text(n.action.value)) else None
    case FAt => if n.at.Some? then Some(Time(n.at.value)) else None
    case FDay => if n.dayOfWeek.Some? then Some(Text(n.dayOfWeek.value)) else None
    case FSync => if n.syncToPeer.Some? then Some(Flag(n.syncToPeer.value)) else None
    case FDisable => if n.disableNewContent.Some? then Some(Flag(n.disableNewContent.value)) else None
    case FUnmodeled => if n.unmodeled.Some? then Some(Text(n.unmodeled.value)) else None
  }

  function AsMap(n: Node): (m: map<NodeField, Val>)
    ensures forall f :: Get(m, f) == Field(n, f)
  {
    map f: NodeField | Field(n, f).Some? :: Field(n, f).value
  }

  function BranchMap(b: Branches): (m: map<Cadence, map<NodeField, Val>>)
    ensures forall c :: c in m <==> b.Slot(c).Some?
    ensures forall c :: c in m ==> m[c] == AsMap(b.Slot(c).value)
  {
    map c: Cadence | b.Slot(c).Some? :: AsMap(b.Slot(c).value)
  }

  lemma OverMerges(n: Node, p: Node)
    ensures AsMap(n.Over(p)) == AsMap(n) + AsMap(p)
  {
    forall f ensures Get(AsMap(n.Over(p)), f) == Get(AsMap(n) + AsMap(p), f) {
      assert Get(AsMap(n), f) == Field(n, f) && Get(AsMap(p), f) == Field(p, f);
    }
    SameFields(AsMap(n.Over(p)), AsMap(n) + AsMap(p));
  }

  lemma NoFieldsMap()
    ensures AsMap(NO_FIELDS) == map[]
  {
    forall f ensures Get(AsMap(NO_FIELDS), f) == Get(map[], f) {
    }
    SameFields(AsMap(NO_FIELDS), map[]);
  }

  lemma OnlySlot(c: Cadence, node: Node, d: Cadence)
    ensures Only(c, node).Slot(d) == if d == c then Some(node) else None
  {
  }

  lemma OnlyMap(c: Cadence, node: Node)
    ensures BranchMap(Only(c, node)) == map[c := AsMap(node)]
  {
    forall d ensures d in BranchMap(Only(c, node)) <==> d == c {
      OnlySlot(c, node, d);
    }
    OnlySlot(c, node, c);
  }

  /** A successful plan as an edit of the one-of. */
  function EditOf(spec: FeatureSpec, p: Plan): Edit<Cadence, NodeField, Val> {
    if p.cadence.None? then Keep else Choose(p.cadence.value, AsMap(NodeFields(spec, p)))
  }

  lemma ApplyIsStep(spec: FeatureSpec, r: Recurring, p: Plan)
    requires p.cadence.Some? ==> spec.cadences.Slot(p.cadence.value).Some?
    requires TableApply(spec, r, p).Ok?
    ensures BranchMap(TableApply(spec, r, p).value.nodes) == Step(BranchMap(r.nodes), EditOf(spec, p))
  {
    if p.cadence.Some? {
      var c := p.cadence.value;
      var stored := r.nodes.Slot(c).GetOr(NO_FIELDS);
      NoFieldsMap();
      assert Stored(BranchMap(r.nodes), c) == AsMap(stored);
      OverMerges(stored, NodeFields(spec, p));
      OnlyMap(c, stored.Over(NodeFields(spec, p)));
    }
  }

  // ----- Runs of one feature -----

  /** The state after a run of plans, if every one of them succeeded. */
  function RunPlans(spec: FeatureSpec, plans: seq<Plan>): Option<Recurring>
  {
    if plans == [] then Some(EMPTY)
    else
      var m := |plans| - 1;
      var r := RunPlans(spec, plans[..m]);
      var p := plans[m];
      if r.None? || (p.cadence.Some? && spec.cadences.Slot(p.cadence.value).None?) then None
      else
        var t := TableApply(spec, r.value, p);
        if t.Err? then None else Some(t.value)
  }

  function EditsOf(spec: FeatureSpec, plans: seq<Plan>): seq<Edit<Cadence, NodeField, Val>> {
    if plans == [] then [] else EditsOf(spec, plans[..|plans| - 1]) + [EditOf(spec, plans[|plans| - 1])]
  }

  /** The last provided value of a recurring-level field, over all plans. */
  function LastLevel(spec: FeatureSpec, plans: seq<Plan>): Level {
    if plans == [] then NO_LEVEL
    else
      var p := LevelFields(spec, plans[|plans| - 1]);
      var earlier := LastLevel(spec, plans[..|plans| - 1]);
      Level(if p.syncToPeer.Some? then p.syncToPeer else earlier.syncToPeer,
            if p.threshold.Some? then p.threshold else earlier.threshold,
            if p.newAppThreshold.Some? then p.newAppThreshold else earlier.newAppThreshold)
  }

  lemma {:induction false} RunIsOneOf(spec: FeatureSpec, plans: seq<Plan>)
    requires RunPlans(spec, plans).Some?
    ensures BranchMap(RunPlans(spec, plans).value.nodes) == Run(map[], EditsOf(spec, plans))
    ensures RunPlans(spec, plans).value.level == LastLevel(spec, plans)
    ensures plans != [] ==> LastChoice(EditsOf(spec, plans)).Some?
  {
    if plans == [] {
      assert BranchMap(NO_BRANCH) == map[];
    } else {
      var m := |plans| - 1;
      RunIsOneOf(spec, plans[..m]);
      ApplyIsStep(spec, RunPlans(spec, plans[..m]).value, plans[m]);
      assert EditsOf(spec, plans)[..|EditsOf(spec, plans)| - 1] == EditsOf(spec, plans[..m]);
    }
  }

  /**
   * After any successful run from an empty feature: one cadence, the last one chosen; each of its fields the last
   * value supplied since it was last switched to; each recurring-level field the last value ever supplied.
   */
  lemma PlanHistory(spec: FeatureSpec, plans: seq<Plan>)
    requires plans != [] && RunPlans(spec, plans).Some?
    ensures var r := RunPlans(spec, plans).value;
            var edits := EditsOf(spec, plans);
            && LastChoice(edits).Some?
            && var c := LastChoice(edits).value;
               && r.nodes.Slot(c).Some?
               && (forall d :: d != c ==> r.nodes.Slot(d).None?)
               && (forall f :: Field(r.nodes.Slot(c).value, f) == LastSupplied(edits, AfterLastOther(edits, c), f))
               && r.level == LastLevel(spec, plans)
  {
    var r := RunPlans(spec, plans).value;
    var edits := EditsOf(spec, plans);
    RunIsOneOf(spec, plans);
    RunKeepsOne(map[], edits);
    var c := LastChoice(edits).value;
    assert c in BranchMap(r.nodes);
    forall d | d != c ensures r.nodes.Slot(d).None? {
      assert d !in BranchMap(r.nodes);
    }
    forall f ensures Field(r.nodes.Slot(c).value, f) == LastSupplied(edits, AfterLastOther(edits, c), f) {
      RunHistory(map[], edits, c, f);
      assert Get(AsMap(r.nodes.Slot(c).value), f) == Field(r.nodes.Slot(c).value, f);
    }
  }

  // ----- Runs of the whole configuration -----

  /** The configuration after a run of inputs on an empty one, if every update succeeded. */
  function RunUpdates(run: seq<UpdatesInput>): Option<Config> {
    if run == [] then Some(EMPTY_CONFIG)
    else
      var c := RunUpdates(run[..|run| - 1]);
      if c.None? then None
      else
        var t := TableConfig(c.value, run[|run| - 1]);
        if t.Err? then None else Some(t.value)
  }

  /** The plans a run of inputs gave one feature. */
  function PlansOf(f: Feature, run: seq<UpdatesInput>): seq<Plan> {
    if run == [] then []
    else
      var front := PlansOf(f, run[..|run| - 1]);
      var input := run[|run| - 1].features.Item(f);
      if input.None? || ParseSchedule(SpecOf(f), input.value).Err? then front
      else front + [ParseSchedule(SpecOf(f), input.value).value]
  }

  function Rank(f: Feature): (n: nat)
    ensures n < 7 && Visited(n) == f
  {
    match f
    case AntiVirus => 0
    case AppProfile => 1
    case Threats => 2
    case Wildfire => 3
    case WfPrivate => 4
    case GpDatafile => 5
    case GpClientless => 6
  }

  lemma WithItem<T>(p: PerFeature<T>, f: Feature, item: Option<T>, g: Feature)
    ensures p.With(f, item).Item(g) == if g == f then item else p.Item(g)
  {
  }

  /** Features are independent: the whole overlay succeeds exactly when each part does, and edits each on its own. */
  lemma {:induction false} TableFromSplits(n: nat, c: Config, input: UpdatesInput)
    requires n <= 7
    ensures TableFrom(n, c, input).Ok? <==>
            forall f :: Rank(f) >= n ==> FeatureStep(f, c.features.Item(f), input.features.Item(f)).Ok?
    ensures TableFrom(n, c, input).Ok? ==>
            var c' := TableFrom(n, c, input).value;
            && (forall f :: Rank(f) >= n ==>
                  FeatureStep(f, c.features.Item(f), input.features.Item(f)) == Ok(c'.features.Item(f)))
            && (forall f :: Rank(f) < n ==> c'.features.Item(f) == c.features.Item(f))
            && c'.statistics == StatisticsStep(c.statistics, input.statistics)
    decreases 7 - n
  {
    if n < 7 {
      var g := Visited(n);
      var r := FeatureStep(g, c.features.Item(g), input.features.Item(g));
      assert Rank(g) == n;
      if r.Ok? {
        var d := c.(features := c.features.With(g, r.value));
        TableFromSplits(n + 1, d, input);
        forall f ensures d.features.Item(f) == if f == g then r.value else c.features.Item(f) {
          WithItem(c.features, g, r.value, f);
        }
        forall f ensures Rank(f) == n <==> f == g {
          assert Visited(Rank(f)) == f;
        }
      }
    }
  }

  /** Of several features that fail, the first one's error is the one reported. */
  lemma {:induction false} FirstErrorReported(n: nat, c: Config, input: UpdatesInput, f: Feature)
    requires n <= Rank(f) && FeatureStep(f, c.features.Item(f), input.features.Item(f)).Err?
    requires forall g :: n <= Rank(g) < Rank(f) ==> FeatureStep(g, c.features.Item(g), input.features.Item(g)).Ok?
    ensures TableFrom(n, c, input) == Err(FeatureStep(f, c.features.Item(f), input.features.Item(f)).error)
    decreases 7 - n
  {
    var g := Visited(n);
    assert Rank(g) == n;
    assert Visited(Rank(f)) == f;
    if g != f {
      var r := FeatureStep(g, c.features.Item(g), input.features.Item(g));
      var d := c.(features := c.features.With(g, r.value));
      forall h | h != g ensures d.features.Item(h) == c.features.Item(h) {
        WithItem(c.features, g, r.value, h);
      }
      FirstErrorReported(n + 1, d, input, f);
    }
  }

  /** One successful update, seen from one feature. */
  lemma FeatureOfUpdate(f: Feature, c: Config, input: UpdatesInput)
    requires TableConfig(c, input).Ok?
    ensures FeatureStep(f, c.features.Item(f), input.features.Item(f))
            == Ok(TableConfig(c, input).value.features.Item(f))
  {
    TableFromSplits(0, c, input);
  }

  /** The plans so far, run on an empty feature, give what the feature stores. */
  predicate Follows(f: Feature, plans: seq<Plan>, stored: Option<Recurring>) {
    if plans == [] then stored.None? else stored.Some? && RunPlans(SpecOf(f), plans) == stored
  }

  lemma FollowsPush(f: Feature, plans: seq<Plan>, stored: Option<Recurring>, input: ScheduleInput)
    requires Follows(f, plans, stored) && FeatureStep(f, stored, Some(input)).Ok?
    ensures ParseSchedule(SpecOf(f), input).Ok?
    ensures Follows(f, plans + [ParseSchedule(SpecOf(f), input).value], FeatureStep(f, stored, Some(input)).value)
  {
    ParsedCadence(SpecOf(f), input);
    var next := plans + [ParseSchedule(SpecOf(f), input).value];
    assert next[..|plans|] == plans;
    assert RunPlans(SpecOf(f), plans) == Some(stored.GetOr(EMPTY));
  }

  lemma {:induction false} FeatureRun(f: Feature, run: seq<UpdatesInput>)
    requires RunUpdates(run).Some?
    ensures Follows(f, PlansOf(f, run), RunUpdates(run).value.features.Item(f))
  {
    if run != [] {
      var m := |run| - 1;
      FeatureRun(f, run[..m]);
      var c, plans, input := RunUpdates(run[..m]).value, PlansOf(f, run[..m]), run[m].features.Item(f);
      FeatureOfUpdate(f, c, run[m]);
      if input.Some? {
        FollowsPush(f, plans, c.features.Item(f), input.value);
      }
    }
  }

  /** The history theorem for the whole configuration, one feature at a time. */
  lemma ScheduleHistory(run: seq<UpdatesInput>, f: Feature)
    requires RunUpdates(run).Some?
    ensures var plans := PlansOf(f, run);
            var stored := RunUpdates(run).value.features.Item(f);
            if plans == [] then stored.None?
            else
              var edits := EditsOf(SpecOf(f), plans);
              && stored.Some? && LastChoice(edits).Some?
              && var c, nodes := LastChoice(edits).value, stored.value.nodes;
                 && nodes.Slot(c).Some?
                 && (forall d :: d != c ==> nodes.Slot(d).None?)
                 && (forall g :: Field(nodes.Slot(c).value, g) == LastSupplied(edits, AfterLastOther(edits, c), g))
                 && stored.value.level == LastLevel(SpecOf(f), plans)
  {
    FeatureRun(f, run);
    if PlansOf(f, run) != [] {
      PlanHistory(SpecOf(f), PlansOf(f, run));
    }
  }

  // ----- The statistics toggles -----

  /** The value a toggle was last given. */
  function LastToggle(run: seq<UpdatesInput>, t: Toggle): Option<bool> {
    if run == [] then None
    else
      var last := run[|run| - 1].statistics;
      if last.Some? && t in last.value then Some(last.value[t]) else LastToggle(run[..|run| - 1], t)
  }

  /** After any run of successful updates every toggle has the value last given to it, if it was given one. */
  lemma {:induction false} ToggleHistory(run: seq<UpdatesInput>, t: Toggle)
    requires RunUpdates(run).Some?
    ensures var stored := RunUpdates(run).value.statistics;
            (if stored.Some? && t in stored.value then Some(stored.value[t]) else None) == LastToggle(run, t)
  {
    if run != [] {
      var m := |run| - 1;
      ToggleHistory(run[..m], t);
      TableFromSplits(0, RunUpdates(run[..m]).value, run[m]);
    }
  }
}
