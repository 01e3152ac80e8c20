/** The cadence node types of the device model, each with just the fields its XML has. */
module ScheduleNodes {
  import opened Wrappers
  import opened ScheduleSpec

  /** none, real-time: no fields of its own. */
  datatype BareNode = BareNode(unmodeled: Option<string>) {
    function View(): Node { Node(None, None, None, None, None, unmodeled) }
  }

  /** daily: a wall-clock time. */
  datatype ClockNode = ClockNode(action: Option<string>, at: Option<string>, unmodeled: Option<string>) {
    function View(): Node { Node(action, ClockAt(at), None, None, None, unmodeled) }
  }

  /** weekly. */
  datatype WeekNode = WeekNode(action: Option<string>, at: Option<string>,
    dayOfWeek: Option<string>, unmodeled: Option<string>) {
    function View(): Node { Node(action, ClockAt(at), dayOfWeek, None, None, unmodeled) }
  }

  /** hourly and the minute cadences: minutes past the boundary. */
  datatype MinuteNode = MinuteNode(action: Option<string>, at: Option<int>, unmodeled: Option<string>) {
    function View(): Node { Node(action, MinutesAt(at), None, None, None, unmodeled) }
  }

  /** The threats nodes also carry disable-new-content. */
  datatype ThreatsNode = ThreatsNode(action: Option<string>, at: Option<string>,
    disableNewContent: Option<bool>, unmodeled: Option<string>) {
    function View(): Node { Node(action, ClockAt(at), None, None, disableNewContent, unmodeled) }
  }

  datatype ThreatsWeekNode = ThreatsWeekNode(action: Option<string>, at: Option<string>,
    dayOfWeek: Option<string>, disableNewContent: Option<bool>, unmodeled: Option<string>) {
    function View(): Node { Node(action, ClockAt(at), dayOfWeek, None, disableNewContent, unmodeled) }
  }

  datatype ThreatsMinuteNode = ThreatsMinuteNode(action: Option<string>, at: Option<int>,
    disableNewContent: Option<bool>, unmodeled: Option<string>) {
    function View(): Node { Node(action, MinutesAt(at), None, None, disableNewContent, unmodeled) }
  }

  /** The WildFire nodes store sync-to-peer themselves. */
  datatype PeerNode = PeerNode(action: Option<string>, syncToPeer: Option<bool>, unmodeled: Option<string>) {
    function View(): Node { Node(action, None, None, syncToPeer, None, unmodeled) }
  }

  datatype PeerMinuteNode = PeerMinuteNode(action: Option<string>, at: Option<int>,
    syncToPeer: Option<bool>, unmodeled: Option<string>) {
    function View(): Node { Node(action, MinutesAt(at), None, syncToPeer, None, unmodeled) }
  }

  // ----- Guards -----

  /** A freshly built scheduled node must carry an action and an at; a same-cadence edit is not re-checked. */
  function GuardScheduled(isNew: bool, hasAction: bool, hasAt: bool): Outcome<ScheduleError> {
    if isNew && !hasAction then Fail(Missing(Action)) else if isNew && !hasAt then Fail(Missing(At)) else Pass
  }

  function GuardWeekly(isNew: bool, hasAction: bool, hasAt: bool, hasDay: bool): Outcome<ScheduleError> {
    var g := GuardScheduled(isNew, hasAction, hasAt);
    if g.Fail? then g else if isNew && !hasDay then Fail(Missing(DayOfWeek)) else Pass
  }

  function GuardActionOnly(isNew: bool, hasAction: bool): Outcome<ScheduleError> {
    if isNew && !hasAction then Fail(Missing(Action)) else Pass
  }

  function RequireOneCadence(present: bool): Outcome<ScheduleError> {
    if present then Pass else Fail(NothingStored)
  }

  // ----- One builder per node type: seed from the stored node, overwrite, guard -----

  method BuildClockNode(stored: Option<ClockNode>, plan: Plan, ghost cs: CadenceSpec, ghost provided: Node)
    returns (b: ClockNode, err: Outcome<ScheduleError>)
    requires cs.hasAction && cs.at.AtWallClock? && !cs.hasDay
    requires provided == Node(plan.action, ClockAt(plan.atStr), None, None, None, None)
    ensures b.View() == (if stored.Some? then stored.value.View() else NO_FIELDS).Over(provided)
    ensures err == if stored.Some? then Pass else cs.FirstMissing(b.View())
  {
    b := stored.GetOr(ClockNode(None, None, None));
    b := b.(action := SetPtr(b.action, plan.action));
    b := b.(at := SetPtr(b.at, plan.atStr));
    err := GuardScheduled(stored.None?, b.action.Some?, b.at.Some?);
  }

  method BuildWeekNode(stored: Option<WeekNode>, plan: Plan, ghost cs: CadenceSpec, ghost provided: Node)
    returns (b: WeekNode, err: Outcome<ScheduleError>)
    requires cs.hasAction && cs.at.AtWallClock? && cs.hasDay
    requires provided == Node(plan.action, ClockAt(plan.atStr), plan.dayOfWeek, None, None, None)
    ensures b.View() == (if stored.Some? then stored.value.View() else NO_FIELDS).Over(provided)
    ensures err == if stored.Some? then Pass else cs.FirstMissing(b.View())
  {
    b := stored.GetOr(WeekNode(None, None, None, None));
    b := b.(action := SetPtr(b.action, plan.action));
    b := b.(at := SetPtr(b.at, plan.atStr));
    b := b.(dayOfWeek := SetPtr(b.dayOfWeek, plan.dayOfWeek));
    err := GuardWeekly(stored.None?, b.action.Some?, b.at.Some?, b.dayOfWeek.Some?);
  }

  method BuildMinuteNode(stored: Option<MinuteNode>, plan: Plan, ghost cs: CadenceSpec, ghost provided: Node)
    returns (b: MinuteNode, err: Outcome<ScheduleError>)
    requires cs.hasAction && cs.at.AtMinutes? && !cs.hasDay
    requires provided == Node(plan.action, MinutesAt(plan.atMin), None, None, None, None)
    ensures b.View() == (if stored.Some? then stored.value.View() else NO_FIELDS).Over(provided)
    ensures err == if stored.Some? then Pass else cs.FirstMissing(b.View())
  {
    b := stored.GetOr(MinuteNode(None, None, None));
    b := b.(action := SetPtr(b.action, plan.action));
    b := b.(at := SetPtr(b.at, plan.atMin));
    err := GuardScheduled(stored.None?, b.action.Some?, b.at.Some?);
  }

  method BuildThreatsNode(stored: Option<ThreatsNode>, plan: Plan, ghost cs: CadenceSpec, ghost provided: Node)
    returns (b: ThreatsNode, err: Outcome<ScheduleError>)
    requires cs.hasAction && cs.at.AtWallClock? && !cs.hasDay
    requires provided == Node(plan.action, ClockAt(plan.atStr), None, None, plan.disableNewContent, None)
    ensures b.View() == (if stored.Some? then stored.value.View() else NO_FIELDS).Over(provided)
    ensures err == if stored.Some? then Pass else cs.FirstMissing(b.View())
  {
    b := stored.GetOr(ThreatsNode(None, None, None, None));
    b := b.(action := SetPtr(b.action, plan.action));
    b := b.(at := SetPtr(b.at, plan.atStr));
    b := b.(disableNewContent := SetPtr(b.disableNewContent, plan.disableNewContent));
    err := GuardScheduled(stored.None?, b.action.Some?, b.at.Some?);
  }

  method BuildThreatsWeekNode(stored: Option<ThreatsWeekNode>, plan: Plan, ghost cs: CadenceSpec, ghost provided: Node)
    returns (b: ThreatsWeekNode, err: Outcome<ScheduleError>)
    requires cs.hasAction && cs.at.AtWallClock? && cs.hasDay
    requires provided == Node(plan.action, ClockAt(plan.atStr), plan.dayOfWeek, None, plan.disableNewContent, None)
    ensures b.View() == (if stored.Some? then stored.value.View() else NO_FIELDS).Over(provided)
    ensures err == if stored.Some? then Pass else cs.FirstMissing(b.View())
  {
    b := stored.GetOr(ThreatsWeekNode(None, None, None, None, None));
    b := b.(action := SetPtr(b.action, plan.action));
    b := b.(at := SetPtr(b.at, plan.atStr));
    b := b.(dayOfWeek := SetPtr(b.dayOfWeek, plan.dayOfWeek));
    b := b.(disableNewContent := SetPtr(b.disableNewContent, plan.disableNewContent));
    err := GuardWeekly(stored.None?, b.action.Some?, b.at.Some?, b.dayOfWeek.Some?);
  }

  method BuildThreatsMinuteNode(stored: Option<ThreatsMinuteNode>, plan: Plan,
                                ghost cs: CadenceSpec, ghost provided: Node)
    returns (b: ThreatsMinuteNode, err: Outcome<ScheduleError>)
    requires cs.hasAction && cs.at.AtMinutes? && !cs.hasDay
    requires provided == Node(plan.action, MinutesAt(plan.atMin), None, None, plan.disableNewContent, None)
    ensures b.View() == (if stored.Some? then stored.value.View() else NO_FIELDS).Over(provided)
    ensures err == if stored.Some? then Pass else cs.FirstMissing(b.View())
  {
    b := stored.GetOr(ThreatsMinuteNode(None, None, None, None));
    b := b.(action := SetPtr(b.action, plan.action));
    b := b.(at := SetPtr(b.at, plan.atMin));
    b := b.(disableNewContent := SetPtr(b.disableNewContent, plan.disableNewContent));
    err := GuardScheduled(stored.None?, b.action.Some?, b.at.Some?);
  }

  method BuildPeerNode(stored: Option<PeerNode>, plan: Plan, ghost cs: CadenceSpec, ghost provided: Node)
    returns (b: PeerNode, err: Outcome<ScheduleError>)
    requires cs.hasAction && cs.at.AtNone? && !cs.hasDay
    requires provided == Node(plan.action, None, None, plan.syncToPeer, None, None)
    ensures b.View() == (if stored.Some? then stored.value.View() else NO_FIELDS).Over(provided)
    ensures err == if stored.Some? then Pass else cs.FirstMissing(b.View())
  {
    b := stored.GetOr(PeerNode(None, None, None));
    b := b.(action := SetPtr(b.action, plan.action));
    b := b.(syncToPeer := SetPtr(b.syncToPeer, plan.syncToPeer));
    err := GuardActionOnly(stored.None?, b.action.Some?);
  }

  method BuildPeerMinuteNode(stored: Option<PeerMinuteNode>, plan: Plan, ghost cs: CadenceSpec, ghost provided: Node)
    returns (b: PeerMinuteNode, err: Outcome<ScheduleError>)
    requires cs.hasAction && cs.at.AtMinutes? && !cs.hasDay
    requires provided == Node(plan.action, MinutesAt(plan.atMin), None, plan.syncToPeer, None, None)
    ensures b.View() == (if stored.Some? then stored.value.View() else NO_FIELDS).Over(provided)
    ensures err == if stored.Some? then Pass else cs.FirstMissing(b.View())
  {
    b := stored.GetOr(PeerMinuteNode(None, None, None, None));
    b := b.(action := SetPtr(b.action, plan.action));
    b := b.(at := SetPtr(b.at, plan.atMin));
    b := b.(syncToPeer := SetPtr(b.syncToPeer, plan.syncToPeer));
    err := GuardScheduled(stored.None?, b.action.Some?, b.at.Some?);
  }
}
