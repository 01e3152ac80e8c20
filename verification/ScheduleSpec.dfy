/**
 * Dynamic-update schedules: the feature tables, the validation they drive, and one overlay and one summary
 * computed from the tables alone. The hand-written code of each feature is proved against these.
 */
module ScheduleSpec {
  import opened Wrappers
  import opened Decimal
  import opened WallClock

  datatype Cadence =
    | NoSchedule | Daily | Weekly | Hourly
    | Every30Mins | Every15Mins | Every5Mins | EveryHour | EveryMin | RealTime

  /** One optional item per cadence. */
  datatype PerCadence<+T> = PerCadence(
    none: Option<T>, daily: Option<T>, weekly: Option<T>, hourly: Option<T>, every30: Option<T>, every15: Option<T>,
    every5: Option<T>, everyHour: Option<T>, everyMin: Option<T>, realTime: Option<T>)
  {
    function Slot(c: Cadence): Option<T> {
      match c
      case NoSchedule => none
      case Daily => daily
      case Weekly => weekly
      case Hourly => hourly
      case Every30Mins => every30
      case Every15Mins => every15
      case Every5Mins => every5
      case EveryHour => everyHour
      case EveryMin => everyMin
      case RealTime => realTime
    }
  }

  function CadenceName(c: Cadence): string {
    match c
    case NoSchedule => "none"
    case Daily => "daily"
    case Weekly => "weekly"
    case Hourly => "hourly"
    case Every30Mins => "every-30-mins"
    case Every15Mins => "every-15-mins"
    case Every5Mins => "every-5-mins"
    case EveryHour => "every-hour"
    case EveryMin => "every-min"
    case RealTime => "real-time"
  }

  function NamedCadence(s: string): Option<Cadence> {
    if s == "none" then Some(NoSchedule)
    else if s == "daily" then Some(Daily)
    else if s == "weekly" then Some(Weekly)
    else if s == "hourly" then Some(Hourly)
    else if s == "every-30-mins" then Some(Every30Mins)
    else if s == "every-15-mins" then Some(Every15Mins)
    else if s == "every-5-mins" then Some(Every5Mins)
    else if s == "every-hour" then Some(EveryHour)
    else if s == "every-min" then Some(EveryMin)
    else if s == "real-time" then Some(RealTime)
    else None
  }

  lemma NamedCadenceInverts(c: Cadence)
    ensures NamedCadence(CadenceName(c)) == Some(c)
  {
    match c
    case _ =>
  }

  /** Minutes past the boundary, or a wall-clock time. */
  datatype AtTime = Clock(time: string) | Minute(minutes: int)

  function ClockAt(at: Option<string>): Option<AtTime> {
    if at.Some? then Some(Clock(at.value)) else None
  }

  function MinutesAt(at: Option<int>): Option<AtTime> {
    if at.Some? then Some(Minute(at.value)) else None
  }

  /** The fields of any cadence node; `unmodeled` is the XML nobody sets. */
  datatype Node = Node(action: Option<string>, at: Option<AtTime>, dayOfWeek: Option<string>, syncToPeer: Option<bool>,
                       disableNewContent: Option<bool>, unmodeled: Option<string>)
  {
    /** The stored fields, overwritten by the provided ones. */
    function Over(p: Node): Node {
      Node(SetPtr(action, p.action), SetPtr(at, p.at), SetPtr(dayOfWeek, p.dayOfWeek), SetPtr(syncToPeer, p.syncToPeer),
           SetPtr(disableNewContent, p.disableNewContent), SetPtr(unmodeled, p.unmodeled))
    }
  }

  const NO_FIELDS := Node(None, None, None, None, None, None)

  /** The fields of the recurring container itself. */
  datatype Level = Level(syncToPeer: Option<bool>, threshold: Option<int>, newAppThreshold: Option<int>) {
    function Over(p: Level): Level {
      Level(SetPtr(syncToPeer, p.syncToPeer), SetPtr(threshold, p.threshold),
            SetPtr(newAppThreshold, p.newAppThreshold))
    }
  }

  const NO_LEVEL := Level(None, None, None)

  datatype Field = Action | At | DayOfWeek | SyncToPeer | DisableNewContent | Threshold | NewAppThreshold

  // ----- The tables -----

  datatype AtKind = AtNone | AtWallClock | AtMinutes(max: nat)

  datatype SyncLevel = SyncNone | SyncRecurring | SyncCadence

  datatype CadenceSpec = CadenceSpec(at: AtKind, hasAction: bool, hasDay: bool, hasSync: bool, hasDisable: bool) {
    /** The first field a freshly built node lacks: action, then at, then day. */
    function FirstMissing(node: Node): Outcome<ScheduleError> {
      if hasAction && node.action.None? then Fail(Missing(Action))
      else if !at.AtNone? && node.at.None? then Fail(Missing(At))
      else if hasDay && node.dayOfWeek.None? then Fail(Missing(DayOfWeek))
      else Pass
    }
  }

  /** `order` is the precedence in which the summary looks for the active cadence. */
  datatype FeatureSpec = FeatureSpec(
    sync: SyncLevel, threshold: bool, newAppThreshold: bool, disableNewContent: bool,
    cadences: PerCadence<CadenceSpec>, order: seq<Cadence>)

  const BARE := CadenceSpec(AtNone, false, false, false, false)
  const DAILY := CadenceSpec(AtWallClock, true, false, false, false)
  const WEEKLY := CadenceSpec(AtWallClock, true, true, false, false)
  const HOURLY := Minutes(59)

  function Minutes(max: nat): CadenceSpec {
    CadenceSpec(AtMinutes(max), true, false, false, false)
  }

  const NO_CADENCE: PerCadence<CadenceSpec> := PerCadence(None, None, None, None, None, None, None, None, None, None)

  const ANTI_VIRUS := FeatureSpec(SyncRecurring, true, false, false,
    NO_CADENCE.(none := Some(BARE), daily := Some(DAILY), weekly := Some(WEEKLY), hourly := Some(HOURLY)),
    [Daily, Hourly, Weekly, NoSchedule])

  const APP_PROFILE := FeatureSpec(SyncRecurring, true, false, false,
    NO_CADENCE.(none := Some(BARE), daily := Some(DAILY), weekly := Some(WEEKLY)),
    [Daily, Weekly, NoSchedule])

  const THREATS := FeatureSpec(SyncRecurring, true, true, true,
    NO_CADENCE.(none := Some(BARE), daily := Some(DAILY.(hasDisable := true)),
        weekly := Some(WEEKLY.(hasDisable := true)),
        hourly := Some(HOURLY.(hasDisable := true)), every30 := Some(Minutes(29).(hasDisable := true))),
    [Daily, Hourly, Every30Mins, Weekly, NoSchedule])

  const WILDFIRE := FeatureSpec(SyncCadence, false, false, false,
    NO_CADENCE.(none := Some(BARE), realTime := Some(BARE),
        everyMin := Some(CadenceSpec(AtNone, true, false, true, false)),
        every15 := Some(Minutes(14).(hasSync := true)), every30 := Some(Minutes(29).(hasSync := true)),
        everyHour := Some(Minutes(59).(hasSync := true))),
    [Every15Mins, Every30Mins, EveryHour, EveryMin, RealTime, NoSchedule])

  const WF_PRIVATE := FeatureSpec(SyncRecurring, false, false, false,
    NO_CADENCE.(none := Some(BARE), every5 := Some(Minutes(4)), every15 := Some(Minutes(14)),
        every30 := Some(Minutes(29)),
        everyHour := Some(Minutes(59))),
    [Every5Mins, Every15Mins, Every30Mins, EveryHour, NoSchedule])

  const GP_FEED := FeatureSpec(SyncNone, false, false, false,
    NO_CADENCE.(none := Some(BARE), daily := Some(DAILY), weekly := Some(WEEKLY), hourly := Some(HOURLY)),
    [Daily, Hourly, Weekly, NoSchedule])

  datatype Feature = AntiVirus | AppProfile | Threats | Wildfire | WfPrivate | GpDatafile | GpClientless

  function SpecOf(f: Feature): FeatureSpec {
    match f
    case AntiVirus => ANTI_VIRUS
    case AppProfile => APP_PROFILE
    case Threats => THREATS
    case Wildfire => WILDFIRE
    case WfPrivate => WF_PRIVATE
    case GpDatafile => GP_FEED
    case GpClientless => GP_FEED
  }

  // ----- Validation -----

  datatype ScheduleInput = ScheduleInput(
    recurrence: Option<string>, action: Option<string>, at: Option<string>, dayOfWeek: Option<string>,
    syncToPeer: Option<bool>, threshold: Option<int>, newAppThreshold: Option<int>, disableNewContent: Option<bool>)

  /** A validated input; `cadence` is None when recurrence was omitted. */
  datatype Plan = Plan(
    cadence: Option<Cadence>, action: Option<string>, atStr: Option<string>, atMin: Option<int>,
    dayOfWeek: Option<string>, syncToPeer: Option<bool>, threshold: Option<int>, newAppThreshold: Option<int>,
    disableNewContent: Option<bool>)

  datatype ScheduleError =
    | Unsupported(field: Field) | OutOfRange(field: Field) | BadAction | BadDay | BadRecurrence | BadAt
    | NotForCadence(field: Field) | RequiresRecurrence(field: Field)
    | NothingStored | Missing(field: Field) | NoFeature

  const THRESHOLD_MIN := 1
  const THRESHOLD_MAX := 336

  predicate ValidAction(s: string) {
    s == "download-only" || s == "download-and-install"
  }

  predicate ValidDay(s: string) {
    s in {"sunday", "monday", "tuesday", "wednesday", "thursday", "friday", "saturday"}
  }

  function ThresholdError(supported: bool, v: Option<int>, field: Field): Outcome<ScheduleError> {
    if v.None? then Pass
    else if !supported then Fail(Unsupported(field))
    else if !(THRESHOLD_MIN <= v.value <= THRESHOLD_MAX) then Fail(OutOfRange(field))
    else Pass
  }

  function ValidateFeatureScalars(spec: FeatureSpec, input: ScheduleInput): Outcome<ScheduleError> {
    var t := ThresholdError(spec.threshold, input.threshold, Threshold);
    var n := ThresholdError(spec.newAppThreshold, input.newAppThreshold, NewAppThreshold);
    if t.Fail? then t
    else if n.Fail? then n
    else if input.disableNewContent.Some? && !spec.disableNewContent then Fail(Unsupported(DisableNewContent))
    else if input.syncToPeer.Some? && spec.sync.SyncNone? then Fail(Unsupported(SyncToPeer))
    else Pass
  }

  function ValidateScheduleEnums(input: ScheduleInput): Outcome<ScheduleError> {
    if input.action.Some? && !ValidAction(input.action.value) then Fail(BadAction)
    else if input.dayOfWeek.Some? && !ValidDay(input.dayOfWeek.value) then Fail(BadDay)
    else Pass
  }

  function RejectCadenceFieldsWhenNoRecurrence(spec: FeatureSpec, input: ScheduleInput): Outcome<ScheduleError> {
    if input.action.Some? then Fail(RequiresRecurrence(Action))
    else if input.at.Some? then Fail(RequiresRecurrence(At))
    else if input.dayOfWeek.Some? then Fail(RequiresRecurrence(DayOfWeek))
    else if input.disableNewContent.Some? then Fail(RequiresRecurrence(DisableNewContent))
    else if input.syncToPeer.Some? && spec.sync.SyncCadence? then Fail(RequiresRecurrence(SyncToPeer))
    else Pass
  }

  function ValidateCadenceFields(spec: FeatureSpec, cs: CadenceSpec, input: ScheduleInput): Outcome<ScheduleError> {
    if input.action.Some? && !cs.hasAction then Fail(NotForCadence(Action))
    else if input.dayOfWeek.Some? && !cs.hasDay then Fail(NotForCadence(DayOfWeek))
    else if input.disableNewContent.Some? && !cs.hasDisable then Fail(NotForCadence(DisableNewContent))
    else if input.syncToPeer.Some? && spec.sync.SyncCadence? && !cs.hasSync then Fail(NotForCadence(SyncToPeer))
    else Pass
  }

  function ParseScheduleAt(cs: CadenceSpec, at: Option<string>): Result<(Option<string>, Option<int>), ScheduleError> {
    if at.None? then Ok((None, None))
    else match cs.at
      case AtNone => Err(NotForCadence(At))
      case AtWallClock =>
        var norm := ParseWallClock(at.value);
        if norm.None? then Err(BadAt) else Ok((norm, None))
      case AtMinutes(max) =>
        var n := Atoi(TrimSpace(at.value));
        if n.None? || n.value < 0 || n.value > max then Err(BadAt) else Ok((None, n))
  }

  function ParseSchedule(spec: FeatureSpec, input: ScheduleInput): Result<Plan, ScheduleError> {
    var scalars := ValidateFeatureScalars(spec, input);
    var enums := ValidateScheduleEnums(input);
    if scalars.Fail? then Err(scalars.error)
    else if enums.Fail? then Err(enums.error)
    else if input.recurrence.None? then
      var rejected := RejectCadenceFieldsWhenNoRecurrence(spec, input);
      if rejected.Fail? then Err(rejected.error) else Ok(PlanOf(input, None, None, None))
    else
      var c := NamedCadence(input.recurrence.value);
      if c.None? || spec.cadences.Slot(c.value).None? then Err(BadRecurrence)
      else
        var cs := spec.cadences.Slot(c.value).value;
        var fields := ValidateCadenceFields(spec, cs, input);
        var at := ParseScheduleAt(cs, input.at);
        if fields.Fail? then Err(fields.error)
        else if at.Err? then Err(at.error)
        else Ok(PlanOf(input, c, at.value.0, at.value.1))
  }

  function PlanOf(input: ScheduleInput, c: Option<Cadence>, atStr: Option<string>, atMin: Option<int>): Plan {
    Plan(c, input.action, atStr, atMin, input.dayOfWeek, input.syncToPeer,
         input.threshold, input.newAppThreshold, input.disableNewContent)
  }

  // ----- The table-driven overlay -----

  /** The cadence nodes of a container. */
  type Branches = PerCadence<Node>

  const NO_BRANCH: Branches := PerCadence(None, None, None, None, None, None, None, None, None, None)

  /** Exactly one filled slot. */
  function Only(c: Cadence, node: Node): Branches {
    match c
    case NoSchedule => NO_BRANCH.(none := Some(node))
    case Daily => NO_BRANCH.(daily := Some(node))
    case Weekly => NO_BRANCH.(weekly := Some(node))
    case Hourly => NO_BRANCH.(hourly := Some(node))
    case Every30Mins => NO_BRANCH.(every30 := Some(node))
    case Every15Mins => NO_BRANCH.(every15 := Some(node))
    case Every5Mins => NO_BRANCH.(every5 := Some(node))
    case EveryHour => NO_BRANCH.(everyHour := Some(node))
    case EveryMin => NO_BRANCH.(everyMin := Some(node))
    case RealTime => NO_BRANCH.(realTime := Some(node))
  }

  /** A feature's recurring container: its own fields, and every cadence node present. */
  datatype Recurring = Recurring(level: Level, nodes: Branches)

  const EMPTY := Recurring(NO_LEVEL, NO_BRANCH)

  /** Every field a plan provides for the cadence node, none left out. */
  function NodeFields(spec: FeatureSpec, p: Plan): Node {
    Node(p.action, if p.atStr.Some? then ClockAt(p.atStr) else MinutesAt(p.atMin), p.dayOfWeek,
         if spec.sync.SyncCadence? then p.syncToPeer else None, p.disableNewContent, None)
  }

  /** Every field a plan provides for the recurring container. */
  function LevelFields(spec: FeatureSpec, p: Plan): Level {
    Level(if spec.sync.SyncRecurring? then p.syncToPeer else None, p.threshold, p.newAppThreshold)
  }

  function TableApply(spec: FeatureSpec, r: Recurring, p: Plan): Result<Recurring, ScheduleError>
    requires p.cadence.Some? ==> spec.cadences.Slot(p.cadence.value).Some?
  {
    var level := r.level.Over(LevelFields(spec, p));
    if p.cadence.None? then
      if r.nodes == NO_BRANCH then Err(NothingStored) else Ok(Recurring(level, r.nodes))
    else
      var c := p.cadence.value;
      var node := r.nodes.Slot(c).GetOr(NO_FIELDS).Over(NodeFields(spec, p));
      var missing := if r.nodes.Slot(c).Some? then Pass else spec.cadences.Slot(c).value.FirstMissing(node);
      if missing.Fail? then Err(missing.error) else Ok(Recurring(level, Only(c, node)))
  }

  lemma ParsedCadence(spec: FeatureSpec, input: ScheduleInput)
    ensures ParseSchedule(spec, input).Ok? ==>
              var p := ParseSchedule(spec, input).value; p.cadence.Some? ==> spec.cadences.Slot(p.cadence.value).Some?
  {
  }

  /** Validation, then the table overlay: what one feature's input does to one feature's state. */
  function TableOverlay(spec: FeatureSpec, r: Recurring, input: ScheduleInput): Result<Recurring, ScheduleError> {
    var p := ParseSchedule(spec, input);
    ParsedCadence(spec, input);
    if p.Err? then Err(p.error) else TableApply(spec, r, p.value)
  }

  function Verdict<T>(r: Result<T, ScheduleError>): Outcome<ScheduleError> {
    if r.Ok? then Pass else Fail(r.error)
  }

  // ----- The table-driven summary -----

  /** The JSON object of a get, with absent keys as None. */
  datatype Summary = Summary(
    recurrence: string, action: Option<string>, at: Option<string>, dayOfWeek: Option<string>,
    syncToPeer: Option<bool>, threshold: Option<int>, newAppThreshold: Option<int>, disableNewContent: Option<bool>)

  /** `scheduleFields`: recurrence always, action and at only where the cadence has them. */
  function ScheduleFields(cadence: string, action: Option<string>, at: string, day: Option<string>, sync: Option<bool>,
                          threshold: Option<int>, newApp: Option<int>, disable: Option<bool>): Summary {
    var scheduled := cadence != "" && cadence != "none" && cadence != "real-time";
    Summary(cadence, if scheduled then Some(StrVal(action)) else None,
            if scheduled && cadence != "every-min" then Some(at) else None,
            day, sync, threshold, newApp, disable)
  }

  function MinuteAt(v: Option<int>): string {
    if v.None? then "" else Itoa(v.value)
  }

  function RenderAt(v: Option<AtTime>): string {
    if v.None? then "" else match v.value
      case Clock(time) => time
      case Minute(n) => Itoa(n)
  }

  /** The first cadence of the precedence order that is present. */
  function Active(order: seq<Cadence>, b: Branches): Option<Cadence> {
    if order == [] then None else if b.Slot(order[0]).Some? then Some(order[0]) else Active(order[1..], b)
  }

  function SummaryOf(spec: FeatureSpec, level: Level, cadence: string, node: Node): Summary {
    ScheduleFields(cadence, node.action, RenderAt(node.at), node.dayOfWeek,
                   if spec.sync.SyncCadence? then node.syncToPeer else level.syncToPeer,
                   level.threshold, level.newAppThreshold, node.disableNewContent)
  }

  function TableSummary(spec: FeatureSpec, r: Recurring): Summary {
    var active := Active(spec.order, r.nodes);
    if active.None? then SummaryOf(spec, r.level, "", NO_FIELDS)
    else SummaryOf(spec, r.level, CadenceName(active.value), r.nodes.Slot(active.value).GetOr(NO_FIELDS))
  }

  lemma {:induction false} ActiveIs(order: seq<Cadence>, b: Branches, i: nat)
    requires i < |order| && b.Slot(order[i]).Some? && forall j :: 0 <= j < i ==> b.Slot(order[j]).None?
    ensures Active(order, b) == Some(order[i])
  {
    if i > 0 {
      assert forall j :: 0 <= j < i - 1 ==> order[1..][j] == order[j + 1];
      ActiveIs(order[1..], b, i - 1);
    }
  }

  lemma {:induction false} NoneActive(order: seq<Cadence>, b: Branches)
    requires forall j :: 0 <= j < |order| ==> b.Slot(order[j]).None?
    ensures Active(order, b) == None
  {
    if order != [] {
      assert forall j :: 0 <= j < |order| - 1 ==> order[1..][j] == order[j + 1];
      NoneActive(order[1..], b);
    }
  }
}
