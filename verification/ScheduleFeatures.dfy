/**
 * The seven hand-written schedule overlays and summaries. Each recurring container is a class mutated in place:
 * capture the cadence nodes, clear them all, seed the chosen one, overwrite, guard, store. Every one is proved to
 * do exactly what the tables say.
 */
module ScheduleFeatures {
  import opened Wrappers
  import opened ScheduleSpec
  import opened ScheduleNodes

  /** The parsed plan of an input is consistent with the feature's table. */
  ghost predicate PlanFits(spec: FeatureSpec, p: Plan) {
    && (p.threshold.Some? ==> spec.threshold)
    && (p.newAppThreshold.Some? ==> spec.newAppThreshold)
    && (p.syncToPeer.Some? ==> !spec.sync.SyncNone?)
    && (p.cadence.None? ==> NodeFields(spec, p) == NO_FIELDS)
    && (p.cadence.Some? ==>
          && spec.cadences.Slot(p.cadence.value).Some?
          && var cs := spec.cadences.Slot(p.cadence.value).value;
             && (p.action.Some? ==> cs.hasAction)
             && (p.dayOfWeek.Some? ==> cs.hasDay)
             && (p.disableNewContent.Some? ==> cs.hasDisable)
             && (p.syncToPeer.Some? && spec.sync.SyncCadence? ==> cs.hasSync)
             && (p.atStr.Some? ==> cs.at.AtWallClock?)
             && (p.atMin.Some? ==> cs.at.AtMinutes?))
  }

  lemma ParsedPlanFits(spec: FeatureSpec, input: ScheduleInput)
    requires ParseSchedule(spec, input).Ok?
    ensures PlanFits(spec, ParseSchedule(spec, input).value)
  {
  }

  // ----- Antivirus -----

  class AntiVirusRecurring {
    var syncToPeer: Option<bool>
    var threshold: Option<int>
    var daily: Option<ClockNode>
    var hourly: Option<MinuteNode>
    var none: Option<BareNode>
    var weekly: Option<WeekNode>

    constructor ()
      ensures View() == EMPTY
    {
      syncToPeer, threshold, daily, hourly, none, weekly :=
        None, None, None, None, None, None;
    }

    function Slots(): Branches
      reads this
    {
      NO_BRANCH.(daily := if daily.Some? then Some(daily.value.View()) else None,
                 hourly := if hourly.Some? then Some(hourly.value.View()) else None,
                 none := if none.Some? then Some(none.value.View()) else None,
                 weekly := if weekly.Some? then Some(weekly.value.View()) else None)
    }

    function View(): Recurring
      reads this
    {
      Recurring(Level(syncToPeer, threshold, None), Slots())
    }

    method Update(input: ScheduleInput) returns (err: Outcome<ScheduleError>)
      modifies this
      ensures var t := TableOverlay(ANTI_VIRUS, old(View()), input);
              err == Verdict(t) && (t.Ok? ==> View() == t.value)
    {
      var plan := ParseSchedule(ANTI_VIRUS, input);
      if plan.Err? { return Fail(plan.error); }
      ParsedPlanFits(ANTI_VIRUS, input);
      err := Overlay(plan.value);
    }

    method Overlay(plan: Plan) returns (err: Outcome<ScheduleError>)
      requires PlanFits(ANTI_VIRUS, plan)
      modifies this
      ensures var t := TableApply(ANTI_VIRUS, old(View()), plan);
              err == Verdict(t) && (t.Ok? ==> View() == t.value)
    {
      syncToPeer := SetPtr(syncToPeer, plan.syncToPeer);
      threshold := SetPtr(threshold, plan.threshold);
      if plan.cadence.None? {
        err := RequireOneCadence(daily.Some? || hourly.Some? || weekly.Some? || none.Some?);
        return;
      }
      err := BuildCadence(plan);
    }

    method BuildCadence(plan: Plan) returns (err: Outcome<ScheduleError>)
      requires PlanFits(ANTI_VIRUS, plan) && plan.cadence.Some?
      modifies `daily, `hourly, `none, `weekly
      ensures var c := plan.cadence.value;
              var node := old(Slots()).Slot(c).GetOr(NO_FIELDS).Over(NodeFields(ANTI_VIRUS, plan));
              && err == (if old(Slots()).Slot(c).Some? then Pass
                         else ANTI_VIRUS.cadences.Slot(c).value.FirstMissing(node))
              && (err.Pass? ==> Slots() == Only(c, node))
    {
      var oldDaily, oldHourly, oldNone, oldWeekly :=
        daily, hourly, none, weekly;
      daily, hourly, none, weekly :=
        None, None, None, None;
      err := Pass;
      ghost var c, provided := plan.cadence.value, NodeFields(ANTI_VIRUS, plan);
      ghost var cs := ANTI_VIRUS.cadences.Slot(c).value;
      if plan.cadence.value == Daily {
        var b;
        b, err := BuildClockNode(oldDaily, plan, cs, provided);
        if err.Pass? { daily := Some(b); }
      } else if plan.cadence.value == Hourly {
        var b;
        b, err := BuildMinuteNode(oldHourly, plan, cs, provided);
        if err.Pass? { hourly := Some(b); }
      } else if plan.cadence.value == Weekly {
        var b;
        b, err := BuildWeekNode(oldWeekly, plan, cs, provided);
        if err.Pass? { weekly := Some(b); }
      } else {
        assert c == NoSchedule;
        none := Some(oldNone.GetOr(BareNode(None)));
      }
    }

    function Summarize(): Summary
      reads this
    {
      if daily.Some? then
        ScheduleFields("daily", daily.value.action, StrVal(daily.value.at), None, syncToPeer, threshold, None, None)
      else if hourly.Some? then
        ScheduleFields("hourly", hourly.value.action, MinuteAt(hourly.value.at), None, syncToPeer,
                       threshold, None, None)
      else if weekly.Some? then
        ScheduleFields("weekly", weekly.value.action, StrVal(weekly.value.at), weekly.value.dayOfWeek,
                       syncToPeer, threshold, None, None)
      else if none.Some? then
        ScheduleFields("none", None, "", None, syncToPeer, threshold, None, None)
      else
        ScheduleFields("", None, "", None, syncToPeer, threshold, None, None)
    }

    lemma SummaryAgrees()
      ensures Summarize() == TableSummary(ANTI_VIRUS, View())
    {
      if daily.Some? {
        ActiveIs(ANTI_VIRUS.order, Slots(), 0);
      } else if hourly.Some? {
        ActiveIs(ANTI_VIRUS.order, Slots(), 1);
      } else if weekly.Some? {
        ActiveIs(ANTI_VIRUS.order, Slots(), 2);
      } else if none.Some? {
        ActiveIs(ANTI_VIRUS.order, Slots(), 3);
      } else {
        NoneActive(ANTI_VIRUS.order, Slots());
      }
    }
  }

  // ----- Applications only -----

  class AppProfileRecurring {
    var syncToPeer: Option<bool>
    var threshold: Option<int>
    var daily: Option<ClockNode>
    var none: Option<BareNode>
    var weekly: Option<WeekNode>

    constructor ()
      ensures View() == EMPTY
    {
      syncToPeer, threshold, daily, none, weekly :=
        None, None, None, None, None;
    }

    function Slots(): Branches
      reads this
    {
      NO_BRANCH.(daily := if daily.Some? then Some(daily.value.View()) else None,
                 none := if none.Some? then Some(none.value.View()) else None,
                 weekly := if weekly.Some? then Some(weekly.value.View()) else None)
    }

    function View(): Recurring
      reads this
    {
      Recurring(Level(syncToPeer, threshold, None), Slots())
    }

    method Update(input: ScheduleInput) returns (err: Outcome<ScheduleError>)
      modifies this
      ensures var t := TableOverlay(APP_PROFILE, old(View()), input);
              err == Verdict(t) && (t.Ok? ==> View() == t.value)
    {
      var plan := ParseSchedule(APP_PROFILE, input);
      if plan.Err? { return Fail(plan.error); }
      ParsedPlanFits(APP_PROFILE, input);
      err := Overlay(plan.value);
    }

    method Overlay(plan: Plan) returns (err: Outcome<ScheduleError>)
      requires PlanFits(APP_PROFILE, plan)
      modifies this
      ensures var t := TableApply(APP_PROFILE, old(View()), plan);
              err == Verdict(t) && (t.Ok? ==> View() == t.value)
    {
      syncToPeer := SetPtr(syncToPeer, plan.syncToPeer);
      threshold := SetPtr(threshold, plan.threshold);
      if plan.cadence.None? {
        err := RequireOneCadence(daily.Some? || weekly.Some? || none.Some?);
        return;
      }
      err := BuildCadence(plan);
    }

    method BuildCadence(plan: Plan) returns (err: Outcome<ScheduleError>)
      requires PlanFits(APP_PROFILE, plan) && plan.cadence.Some?
      modifies `daily, `none, `weekly
      ensures var c := plan.cadence.value;
              var node := old(Slots()).Slot(c).GetOr(NO_FIELDS).Over(NodeFields(APP_PROFILE, plan));
              && err == (if old(Slots()).Slot(c).Some? then Pass
                         else APP_PROFILE.cadences.Slot(c).value.FirstMissing(node))
              && (err.Pass? ==> Slots() == Only(c, node))
    {
      var oldDaily, oldNone, oldWeekly :=
        daily, none, weekly;
      daily, none, weekly :=
        None, None, None;
      err := Pass;
      ghost var c, provided := plan.cadence.value, NodeFields(APP_PROFILE, plan);
      ghost var cs := APP_PROFILE.cadences.Slot(c).value;
      if plan.cadence.value == Daily {
        var b;
        b, err := BuildClockNode(oldDaily, plan, cs, provided);
        if err.Pass? { daily := Some(b); }
      } else if plan.cadence.value == Weekly {
        var b;
        b, err := BuildWeekNode(oldWeekly, plan, cs, provided);
        if err.Pass? { weekly := Some(b); }
      } else {
        assert c == NoSchedule;
        none := Some(oldNone.GetOr(BareNode(None)));
      }
    }

    function Summarize(): Summary
      reads this
    {
      if daily.Some? then
        ScheduleFields("daily", daily.value.action, StrVal(daily.value.at), None, syncToPeer, threshold, None, None)
      else if weekly.Some? then
        ScheduleFields("weekly", weekly.value.action, StrVal(weekly.value.at), weekly.value.dayOfWeek,
                       syncToPeer, threshold, None, None)
      else if none.Some? then
        ScheduleFields("none", None, "", None, syncToPeer, threshold, None, None)
      else
        ScheduleFields("", None, "", None, syncToPeer, threshold, None, None)
    }

    lemma SummaryAgrees()
      ensures Summarize() == TableSummary(APP_PROFILE, View())
    {
      if daily.Some? {
        ActiveIs(APP_PROFILE.order, Slots(), 0);
      } else if weekly.Some? {
        ActiveIs(APP_PROFILE.order, Slots(), 1);
      } else if none.Some? {
        ActiveIs(APP_PROFILE.order, Slots(), 2);
      } else {
        NoneActive(APP_PROFILE.order, Slots());
      }
    }
  }

  // ----- Applications and threats -----

  class ThreatsRecurring {
    var syncToPeer: Option<bool>
    var threshold: Option<int>
    var newAppThreshold: Option<int>
    var daily: Option<ThreatsNode>
    var hourly: Option<ThreatsMinuteNode>
    var every30Mins: Option<ThreatsMinuteNode>
    var none: Option<BareNode>
    var weekly: Option<ThreatsWeekNode>

    constructor ()
      ensures View() == EMPTY
    {
      syncToPeer, threshold, newAppThreshold, daily, hourly, every30Mins, none, weekly :=
        None, None, None, None, None, None, None, None;
    }

    function Slots(): Branches
      reads this
    {
      NO_BRANCH.(daily := if daily.Some? then Some(daily.value.View()) else None,
                 hourly := if hourly.Some? then Some(hourly.value.View()) else None,
                 every30 := if every30Mins.Some? then Some(every30Mins.value.View()) else None,
                 none := if none.Some? then Some(none.value.View()) else None,
                 weekly := if weekly.Some? then Some(weekly.value.View()) else None)
    }

    function View(): Recurring
      reads this
    {
      Recurring(Level(syncToPeer, threshold, newAppThreshold), Slots())
    }

    method Update(input: ScheduleInput) returns (err: Outcome<ScheduleError>)
      modifies this
      ensures var t := TableOverlay(THREATS, old(View()), input);
              err == Verdict(t) && (t.Ok? ==> View() == t.value)
    {
      var plan := ParseSchedule(THREATS, input);
      if plan.Err? { return Fail(plan.error); }
      ParsedPlanFits(THREATS, input);
      err := Overlay(plan.value);
    }

    method Overlay(plan: Plan) returns (err: Outcome<ScheduleError>)
      requires PlanFits(THREATS, plan)
      modifies this
      ensures var t := TableApply(THREATS, old(View()), plan);
              err == Verdict(t) && (t.Ok? ==> View() == t.value)
    {
      syncToPeer := SetPtr(syncToPeer, plan.syncToPeer);
      threshold := SetPtr(threshold, plan.threshold);
      newAppThreshold := SetPtr(newAppThreshold, plan.newAppThreshold);
      if plan.cadence.None? {
        err := RequireOneCadence(daily.Some? || hourly.Some? || every30Mins.Some? || weekly.Some? || none.Some?);
        return;
      }
      err := BuildCadence(plan);
    }

    method BuildCadence(plan: Plan) returns (err: Outcome<ScheduleError>)
      requires PlanFits(THREATS, plan) && plan.cadence.Some?
      modifies `daily, `hourly, `every30Mins, `none, `weekly
      ensures var c := plan.cadence.value;
              var node := old(Slots()).Slot(c).GetOr(NO_FIELDS).Over(NodeFields(THREATS, plan));
              && err == (if old(Slots()).Slot(c).Some? then Pass
                         else THREATS.cadences.Slot(c).value.FirstMissing(node))
              && (err.Pass? ==> Slots() == Only(c, node))
    {
      var oldDaily, oldHourly, oldEvery30Mins, oldNone, oldWeekly :=
        daily, hourly, every30Mins, none, weekly;
      daily, hourly, every30Mins, none, weekly :=
        None, None, None, None, None;
      err := Pass;
      ghost var c, provided := plan.cadence.value, NodeFields(THREATS, plan);
      ghost var cs := THREATS.cadences.Slot(c).value;
      if plan.cadence.value == Daily {
        var b;
        b, err := BuildThreatsNode(oldDaily, plan, cs, provided);
        if err.Pass? {
          daily := Some(b);
          assert Slots() == Only(Daily, b.View());
        }
      } else if plan.cadence.value == Hourly {
        var b;
        b, err := BuildThreatsMinuteNode(oldHourly, plan, cs, provided);
        if err.Pass? {
          hourly := Some(b);
          assert Slots() == Only(Hourly, b.View());
        }
      } else if plan.cadence.value == Every30Mins {
        var b;
        b, err := BuildThreatsMinuteNode(oldEvery30Mins, plan, cs, provided);
        if err.Pass? {
          every30Mins := Some(b);
          assert Slots() == Only(Every30Mins, b.View());
        }
      } else if plan.cadence.value == Weekly {
        var b;
        b, err := BuildThreatsWeekNode(oldWeekly, plan, cs, provided);
        if err.Pass? {
          weekly := Some(b);
          assert Slots() == Only(Weekly, b.View());
        }
      } else {
        assert c == NoSchedule;
        none := Some(oldNone.GetOr(BareNode(None)));
      }
    }

    function Summarize(): Summary
      reads this
    {
      if daily.Some? then
        ScheduleFields("daily", daily.value.action, StrVal(daily.value.at), None, syncToPeer, threshold,
                       newAppThreshold, daily.value.disableNewContent)
      else if hourly.Some? then
        ScheduleFields("hourly", hourly.value.action, MinuteAt(hourly.value.at), None, syncToPeer,
                       threshold, newAppThreshold, hourly.value.disableNewContent)
      else if every30Mins.Some? then
        ScheduleFields("every-30-mins", every30Mins.value.action, MinuteAt(every30Mins.value.at), None,
                       syncToPeer, threshold, newAppThreshold, every30Mins.value.disableNewContent)
      else if weekly.Some? then
        ScheduleFields("weekly", weekly.value.action, StrVal(weekly.value.at), weekly.value.dayOfWeek,
                       syncToPeer, threshold, newAppThreshold, weekly.value.disableNewContent)
      else if none.Some? then
        ScheduleFields("none", None, "", None, syncToPeer, threshold, newAppThreshold, None)
      else
        ScheduleFields("", None, "", None, syncToPeer, threshold, newAppThreshold, None)
    }

    lemma SummaryAgrees()
      ensures Summarize() == TableSummary(THREATS, View())
    {
      if daily.Some? {
        ActiveIs(THREATS.order, Slots(), 0);
      } else if hourly.Some? {
        ActiveIs(THREATS.order, Slots(), 1);
      } else if every30Mins.Some? {
        ActiveIs(THREATS.order, Slots(), 2);
      } else if weekly.Some? {
        ActiveIs(THREATS.order, Slots(), 3);
      } else if none.Some? {
        ActiveIs(THREATS.order, Slots(), 4);
      } else {
        NoneActive(THREATS.order, Slots());
      }
    }
  }

  // ----- WildFire -----

  class WildfireRecurring {
    var every15Mins: Option<PeerMinuteNode>
    var every30Mins: Option<PeerMinuteNode>
    var everyHour: Option<PeerMinuteNode>
    var everyMin: Option<PeerNode>
    var none: Option<BareNode>
    var realTime: Option<BareNode>

    constructor ()
      ensures View() == EMPTY
    {
      every15Mins, every30Mins, everyHour, everyMin, none, realTime :=
        None, None, None, None, None, None;
    }

    function Slots(): Branches
      reads this
    {
      NO_BRANCH.(every15 := if every15Mins.Some? then Some(every15Mins.value.View()) else None,
                 every30 := if every30Mins.Some? then Some(every30Mins.value.View()) else None,
                 everyHour := if everyHour.Some? then Some(everyHour.value.View()) else None,
                 everyMin := if everyMin.Some? then Some(everyMin.value.View()) else None,
                 none := if none.Some? then Some(none.value.View()) else None,
                 realTime := if realTime.Some? then Some(realTime.value.View()) else None)
    }

    function View(): Recurring
      reads this
    {
      Recurring(Level(None, None, None), Slots())
    }

    method Update(input: ScheduleInput) returns (err: Outcome<ScheduleError>)
      modifies this
      ensures var t := TableOverlay(WILDFIRE, old(View()), input);
              err == Verdict(t) && (t.Ok? ==> View() == t.value)
    {
      var plan := ParseSchedule(WILDFIRE, input);
      if plan.Err? { return Fail(plan.error); }
      ParsedPlanFits(WILDFIRE, input);
      err := Overlay(plan.value);
    }

    method Overlay(plan: Plan) returns (err: Outcome<ScheduleError>)
      requires PlanFits(WILDFIRE, plan)
      modifies this
      ensures var t := TableApply(WILDFIRE, old(View()), plan);
              err == Verdict(t) && (t.Ok? ==> View() == t.value)
    {
      if plan.cadence.None? {
        err := RequireOneCadence(every15Mins.Some? || every30Mins.Some? || everyHour.Some?
                                 || everyMin.Some? || realTime.Some? || none.Some?);
        return;
      }
      err := BuildCadence(plan);
    }

    method BuildCadence(plan: Plan) returns (err: Outcome<ScheduleError>)
      requires PlanFits(WILDFIRE, plan) && plan.cadence.Some?
      modifies `every15Mins, `every30Mins, `everyHour, `everyMin, `none, `realTime
      ensures var c := plan.cadence.value;
              var node := old(Slots()).Slot(c).GetOr(NO_FIELDS).Over(NodeFields(WILDFIRE, plan));
              && err == (if old(Slots()).Slot(c).Some? then Pass
                         else WILDFIRE.cadences.Slot(c).value.FirstMissing(node))
              && (err.Pass? ==> Slots() == Only(c, node))
    {
      var oldEvery15Mins, oldEvery30Mins, oldEveryHour, oldEveryMin, oldNone, oldRealTime :=
        every15Mins, every30Mins, everyHour, everyMin, none, realTime;
      every15Mins, every30Mins, everyHour, everyMin, none, realTime :=
        None, None, None, None, None, None;
      err := Pass;
      ghost var c, provided := plan.cadence.value, NodeFields(WILDFIRE, plan);
      ghost var cs := WILDFIRE.cadences.Slot(c).value;
      if plan.cadence.value == Every15Mins {
        var b;
        b, err := BuildPeerMinuteNode(oldEvery15Mins, plan, cs, provided);
        if err.Pass? {
          every15Mins := Some(b);
          assert Slots() == Only(Every15Mins, b.View());
        }
      } else if plan.cadence.value == Every30Mins {
        var b;
        b, err := BuildPeerMinuteNode(oldEvery30Mins, plan, cs, provided);
        if err.Pass? {
          every30Mins := Some(b);
          assert Slots() == Only(Every30Mins, b.View());
        }
      } else if plan.cadence.value == EveryHour {
        var b;
        b, err := BuildPeerMinuteNode(oldEveryHour, plan, cs, provided);
        if err.Pass? {
          everyHour := Some(b);
          assert Slots() == Only(EveryHour, b.View());
        }
      } else if plan.cadence.value == EveryMin {
        var b;
        b, err := BuildPeerNode(oldEveryMin, plan, cs, provided);
        if err.Pass? {
          everyMin := Some(b);
          assert Slots() == Only(EveryMin, b.View());
        }
      } else if plan.cadence.value == RealTime {
        realTime := Some(oldRealTime.GetOr(BareNode(None)));
      } else {
        assert c == NoSchedule;
        none := Some(oldNone.GetOr(BareNode(None)));
      }
    }

    function Summarize(): Summary
      reads this
    {
      if every15Mins.Some? then
        ScheduleFields("every-15-mins", every15Mins.value.action, MinuteAt(every15Mins.value.at), None,
                       every15Mins.value.syncToPeer, None, None, None)
      else if every30Mins.Some? then
        ScheduleFields("every-30-mins", every30Mins.value.action, MinuteAt(every30Mins.value.at), None,
                       every30Mins.value.syncToPeer, None, None, None)
      else if everyHour.Some? then
        ScheduleFields("every-hour", everyHour.value.action, MinuteAt(everyHour.value.at), None,
                       everyHour.value.syncToPeer, None, None, None)
      else if everyMin.Some? then
        ScheduleFields("every-min", everyMin.value.action, "", None, everyMin.value.syncToPeer, None, None, None)
      else if realTime.Some? then
        ScheduleFields("real-time", None, "", None, None, None, None, None)
      else if none.Some? then
        ScheduleFields("none", None, "", None, None, None, None, None)
      else
        ScheduleFields("", None, "", None, None, None, None, None)
    }

    lemma SummaryAgrees()
      ensures Summarize() == TableSummary(WILDFIRE, View())
    {
      if every15Mins.Some? {
        ActiveIs(WILDFIRE.order, Slots(), 0);
      } else if every30Mins.Some? {
        ActiveIs(WILDFIRE.order, Slots(), 1);
      } else if everyHour.Some? {
        ActiveIs(WILDFIRE.order, Slots(), 2);
      } else if everyMin.Some? {
        ActiveIs(WILDFIRE.order, Slots(), 3);
      } else if realTime.Some? {
        ActiveIs(WILDFIRE.order, Slots(), 4);
      } else if none.Some? {
        ActiveIs(WILDFIRE.order, Slots(), 5);
      } else {
        NoneActive(WILDFIRE.order, Slots());
      }
    }
  }

  // ----- WildFire private cloud -----

  class WfPrivateRecurring {
    var syncToPeer: Option<bool>
    var every5Mins: Option<MinuteNode>
    var every15Mins: Option<MinuteNode>
    var every30Mins: Option<MinuteNode>
    var everyHour: Option<MinuteNode>
    var none: Option<BareNode>

    constructor ()
      ensures View() == EMPTY
    {
      syncToPeer, every5Mins, every15Mins, every30Mins, everyHour, none :=
        None, None, None, None, None, None;
    }

    function Slots(): Branches
      reads this
    {
      NO_BRANCH.(every5 := if every5Mins.Some? then Some(every5Mins.value.View()) else None,
                 every15 := if every15Mins.Some? then Some(every15Mins.value.View()) else None,
                 every30 := if every30Mins.Some? then Some(every30Mins.value.View()) else None,
                 everyHour := if everyHour.Some? then Some(everyHour.value.View()) else None,
                 none := if none.Some? then Some(none.value.View()) else None)
    }

    function View(): Recurring
      reads this
    {
      Recurring(Level(syncToPeer, None, None), Slots())
    }

    method Update(input: ScheduleInput) returns (err: Outcome<ScheduleError>)
      modifies this
      ensures var t := TableOverlay(WF_PRIVATE, old(View()), input);
              err == Verdict(t) && (t.Ok? ==> View() == t.value)
    {
      var plan := ParseSchedule(WF_PRIVATE, input);
      if plan.Err? { return Fail(plan.error); }
      ParsedPlanFits(WF_PRIVATE, input);
      err := Overlay(plan.value);
    }

    method Overlay(plan: Plan) returns (err: Outcome<ScheduleError>)
      requires PlanFits(WF_PRIVATE, plan)
      modifies this
      ensures var t := TableApply(WF_PRIVATE, old(View()), plan);
              err == Verdict(t) && (t.Ok? ==> View() == t.value)
    {
      syncToPeer := SetPtr(syncToPeer, plan.syncToPeer);
      if plan.cadence.None? {
        err := RequireOneCadence(every5Mins.Some? || every15Mins.Some? || every30Mins.Some?
                                 || everyHour.Some? || none.Some?);
        return;
      }
      err := BuildCadence(plan);
    }

    method BuildCadence(plan: Plan) returns (err: Outcome<ScheduleError>)
      requires PlanFits(WF_PRIVATE, plan) && plan.cadence.Some?
      modifies `every5Mins, `every15Mins, `every30Mins, `everyHour, `none
      ensures var c := plan.cadence.value;
              var node := old(Slots()).Slot(c).GetOr(NO_FIELDS).Over(NodeFields(WF_PRIVATE, plan));
              && err == (if old(Slots()).Slot(c).Some? then Pass
                         else WF_PRIVATE.cadences.Slot(c).value.FirstMissing(node))
              && (err.Pass? ==> Slots() == Only(c, node))
    {
      var oldEvery5Mins, oldEvery15Mins, oldEvery30Mins, oldEveryHour, oldNone :=
        every5Mins, every15Mins, every30Mins, everyHour, none;
      every5Mins, every15Mins, every30Mins, everyHour, none :=
        None, None, None, None, None;
      err := Pass;
      ghost var c, provided := plan.cadence.value, NodeFields(WF_PRIVATE, plan);
      ghost var cs := WF_PRIVATE.cadences.Slot(c).value;
      if plan.cadence.value == Every5Mins {
        var b;
        b, err := BuildMinuteNode(oldEvery5Mins, plan, cs, provided);
        if err.Pass? {
          every5Mins := Some(b);
          assert Slots() == Only(Every5Mins, b.View());
        }
      } else if plan.cadence.value == Every15Mins {
        var b;
        b, err := BuildMinuteNode(oldEvery15Mins, plan, cs, provided);
        if err.Pass? {
          every15Mins := Some(b);
          assert Slots() == Only(Every15Mins, b.View());
        }
      } else if plan.cadence.value == Every30Mins {
        var b;
        b, err := BuildMinuteNode(oldEvery30Mins, plan, cs, provided);
        if err.Pass? {
          every30Mins := Some(b);
          assert Slots() == Only(Every30Mins, b.View());
        }
      } else if plan.cadence.value == EveryHour {
        var b;
        b, err := BuildMinuteNode(oldEveryHour, plan, cs, provided);
        if err.Pass? {
          everyHour := Some(b);
          assert Slots() == Only(EveryHour, b.View());
        }
      } else {
        assert c == NoSchedule;
        none := Some(oldNone.GetOr(BareNode(None)));
      }
    }

    function Summarize(): Summary
      reads this
    {
      if every5Mins.Some? then
        ScheduleFields("every-5-mins", every5Mins.value.action, MinuteAt(every5Mins.value.at), None,
                       syncToPeer, None, None, None)
      else if every15Mins.Some? then
        ScheduleFields("every-15-mins", every15Mins.value.action, MinuteAt(every15Mins.value.at), None,
                       syncToPeer, None, None, None)
      else if every30Mins.Some? then
        ScheduleFields("every-30-mins", every30Mins.value.action, MinuteAt(every30Mins.value.at), None,
                       syncToPeer, None, None, None)
      else if everyHour.Some? then
        ScheduleFields("every-hour", everyHour.value.action, MinuteAt(everyHour.value.at), None,
                       syncToPeer, None, None, None)
      else if none.Some? then
        ScheduleFields("none", None, "", None, syncToPeer, None, None, None)
      else
        ScheduleFields("", None, "", None, syncToPeer, None, None, None)
    }

    lemma SummaryAgrees()
      ensures Summarize() == TableSummary(WF_PRIVATE, View())
    {
      if every5Mins.Some? {
        ActiveIs(WF_PRIVATE.order, Slots(), 0);
      } else if every15Mins.Some? {
        ActiveIs(WF_PRIVATE.order, Slots(), 1);
      } else if every30Mins.Some? {
        ActiveIs(WF_PRIVATE.order, Slots(), 2);
      } else if everyHour.Some? {
        ActiveIs(WF_PRIVATE.order, Slots(), 3);
      } else if none.Some? {
        ActiveIs(WF_PRIVATE.order, Slots(), 4);
      } else {
        NoneActive(WF_PRIVATE.order, Slots());
      }
    }
  }

  // ----- GlobalProtect data file -----

  class GpDatafileRecurring {
    var daily: Option<ClockNode>
    var hourly: Option<MinuteNode>
    var none: Option<BareNode>
    var weekly: Option<WeekNode>

    constructor ()
      ensures View() == EMPTY
    {
      daily, hourly, none, weekly :=
        None, None, None, None;
    }

    function Slots(): Branches
      reads this
    {
      NO_BRANCH.(daily := if daily.Some? then Some(daily.value.View()) else None,
                 hourly := if hourly.Some? then Some(hourly.value.View()) else None,
                 none := if none.Some? then Some(none.value.View()) else None,
                 weekly := if weekly.Some? then Some(weekly.value.View()) else None)
    }

    function View(): Recurring
      reads this
    {
      Recurring(Level(None, None, None), Slots())
    }

    method Update(input: ScheduleInput) returns (err: Outcome<ScheduleError>)
      modifies this
      ensures var t := TableOverlay(GP_FEED, old(View()), input);
              err == Verdict(t) && (t.Ok? ==> View() == t.value)
    {
      var plan := ParseSchedule(GP_FEED, input);
      if plan.Err? { return Fail(plan.error); }
      ParsedPlanFits(GP_FEED, input);
      err := Overlay(plan.value);
    }

    method Overlay(plan: Plan) returns (err: Outcome<ScheduleError>)
      requires PlanFits(GP_FEED, plan)
      modifies this
      ensures var t := TableApply(GP_FEED, old(View()), plan);
              err == Verdict(t) && (t.Ok? ==> View() == t.value)
    {
      if plan.cadence.None? {
        err := RequireOneCadence(daily.Some? || hourly.Some? || weekly.Some? || none.Some?);
        return;
      }
      err := BuildCadence(plan);
    }

    method BuildCadence(plan: Plan) returns (err: Outcome<ScheduleError>)
      requires PlanFits(GP_FEED, plan) && plan.cadence.Some?
      modifies `daily, `hourly, `none, `weekly
      ensures var c := plan.cadence.value;
              var node := old(Slots()).Slot(c).GetOr(NO_FIELDS).Over(NodeFields(GP_FEED, plan));
              && err == (if old(Slots()).Slot(c).Some? then Pass
                         else GP_FEED.cadences.Slot(c).value.FirstMissing(node))
              && (err.Pass? ==> Slots() == Only(c, node))
    {
      var oldDaily, oldHourly, oldNone, oldWeekly :=
        daily, hourly, none, weekly;
      daily, hourly, none, weekly :=
        None, None, None, None;
      err := Pass;
      ghost var c, provided := plan.cadence.value, NodeFields(GP_FEED, plan);
      ghost var cs := GP_FEED.cadences.Slot(c).value;
      if plan.cadence.value == Daily {
        var b;
        b, err := BuildClockNode(oldDaily, plan, cs, provided);
        if err.Pass? { daily := Some(b); }
      } else if plan.cadence.value == Hourly {
        var b;
        b, err := BuildMinuteNode(oldHourly, plan, cs, provided);
        if err.Pass? { hourly := Some(b); }
      } else if plan.cadence.value == Weekly {
        var b;
        b, err := BuildWeekNode(oldWeekly, plan, cs, provided);
        if err.Pass? { weekly := Some(b); }
      } else {
        assert c == NoSchedule;
        none := Some(oldNone.GetOr(BareNode(None)));
      }
    }

    function Summarize(): Summary
      reads this
    {
      if daily.Some? then
        ScheduleFields("daily", daily.value.action, StrVal(daily.value.at), None, None, None, None, None)
      else if hourly.Some? then
        ScheduleFields("hourly", hourly.value.action, MinuteAt(hourly.value.at), None, None, None, None, None)
      else if weekly.Some? then
        ScheduleFields("weekly", weekly.value.action, StrVal(weekly.value.at), weekly.value.dayOfWeek,
                       None, None, None, None)
      else if none.Some? then
        ScheduleFields("none", None, "", None, None, None, None, None)
      else
        ScheduleFields("", None, "", None, None, None, None, None)
    }

    lemma SummaryAgrees()
      ensures Summarize() == TableSummary(GP_FEED, View())
    {
      if daily.Some? {
        ActiveIs(GP_FEED.order, Slots(), 0);
      } else if hourly.Some? {
        ActiveIs(GP_FEED.order, Slots(), 1);
      } else if weekly.Some? {
        ActiveIs(GP_FEED.order, Slots(), 2);
      } else if none.Some? {
        ActiveIs(GP_FEED.order, Slots(), 3);
      } else {
        NoneActive(GP_FEED.order, Slots());
      }
    }
  }

  // ----- GlobalProtect clientless VPN -----

  class GpClientlessRecurring {
    var daily: Option<ClockNode>
    var hourly: Option<MinuteNode>
    var none: Option<BareNode>
    var weekly: Option<WeekNode>

    constructor ()
      ensures View() == EMPTY
    {
      daily, hourly, none, weekly :=
        None, None, None, None;
    }

    function Slots(): Branches
      reads this
    {
      NO_BRANCH.(daily := if daily.Some? then Some(daily.value.View()) else None,
                 hourly := if hourly.Some? then Some(hourly.value.View()) else None,
                 none := if none.Some? then Some(none.value.View()) else None,
                 weekly := if weekly.Some? then Some(weekly.value.View()) else None)
    }

    function View(): Recurring
      reads this
    {
      Recurring(Level(None, None, None), Slots())
    }

    method Update(input: ScheduleInput) returns (err: Outcome<ScheduleError>)
      modifies this
      ensures var t := TableOverlay(GP_FEED, old(View()), input);
              err == Verdict(t) && (t.Ok? ==> View() == t.value)
    {
      var plan := ParseSchedule(GP_FEED, input);
      if plan.Err? { return Fail(plan.error); }
      ParsedPlanFits(GP_FEED, input);
      err := Overlay(plan.value);
    }

    method Overlay(plan: Plan) returns (err: Outcome<ScheduleError>)
      requires PlanFits(GP_FEED, plan)
      modifies this
      ensures var t := TableApply(GP_FEED, old(View()), plan);
              err == Verdict(t) && (t.Ok? ==> View() == t.value)
    {
      if plan.cadence.None? {
        err := RequireOneCadence(daily.Some? || hourly.Some? || weekly.Some? || none.Some?);
        return;
      }
      err := BuildCadence(plan);
    }

    method BuildCadence(plan: Plan) returns (err: Outcome<ScheduleError>)
      requires PlanFits(GP_FEED, plan) && plan.cadence.Some?
      modifies `daily, `hourly, `none, `weekly
      ensures var c := plan.cadence.value;
              var node := old(Slots()).Slot(c).GetOr(NO_FIELDS).Over(NodeFields(GP_FEED, plan));
              && err == (if old(Slots()).Slot(c).Some? then Pass
                         else GP_FEED.cadences.Slot(c).value.FirstMissing(node))
              && (err.Pass? ==> Slots() == Only(c, node))
    {
      var oldDaily, oldHourly, oldNone, oldWeekly :=
        daily, hourly, none, weekly;
      daily, hourly, none, weekly :=
        None, None, None, None;
      err := Pass;
      ghost var c, provided := plan.cadence.value, NodeFields(GP_FEED, plan);
      ghost var cs := GP_FEED.cadences.Slot(c).value;
      if plan.cadence.value == Daily {
        var b;
        b, err := BuildClockNode(oldDaily, plan, cs, provided);
        if err.Pass? { daily := Some(b); }
      } else if plan.cadence.value == Hourly {
        var b;
        b, err := BuildMinuteNode(oldHourly, plan, cs, provided);
        if err.Pass? { hourly := Some(b); }
      } else if plan.cadence.value == Weekly {
        var b;
        b, err := BuildWeekNode(oldWeekly, plan, cs, provided);
        if err.Pass? { weekly := Some(b); }
      } else {
        assert c == NoSchedule;
        none := Some(oldNone.GetOr(BareNode(None)));
      }
    }

    function Summarize(): Summary
      reads this
    {
      if daily.Some? then
        ScheduleFields("daily", daily.value.action, StrVal(daily.value.at), None, None, None, None, None)
      else if hourly.Some? then
        ScheduleFields("hourly", hourly.value.action, MinuteAt(hourly.value.at), None, None, None, None, None)
      else if weekly.Some? then
        ScheduleFields("weekly", weekly.value.action, StrVal(weekly.value.at), weekly.value.dayOfWeek,
                       None, None, None, None)
      else if none.Some? then
        ScheduleFields("none", None, "", None, None, None, None, None)
      else
        ScheduleFields("", None, "", None, None, None, None, None)
    }

    lemma SummaryAgrees()
      ensures Summarize() == TableSummary(GP_FEED, View())
    {
      if daily.Some? {
        ActiveIs(GP_FEED.order, Slots(), 0);
      } else if hourly.Some? {
        ActiveIs(GP_FEED.order, Slots(), 1);
      } else if weekly.Some? {
        ActiveIs(GP_FEED.order, Slots(), 2);
      } else if none.Some? {
        ActiveIs(GP_FEED.order, Slots(), 3);
      } else {
        NoneActive(GP_FEED.order, Slots());
      }
    }
  }
}
