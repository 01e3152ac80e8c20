/** Schedule inputs in the words the tool takes: exactly which are accepted, and exactly what an update then says. */
module ScheduleWords {
  import opened Wrappers
  import opened Decimal
  import opened WallClock
  import opened ScheduleSpec
  import opened ScheduleRoundTrip

  /** The recurrences of a feature. */
  predicate Offers(f: Feature, word: string) {
    || word == "none"
    || match f
       case AntiVirus => word in {"daily", "weekly", "hourly"}
       case AppProfile => word in {"daily", "weekly"}
       case Threats => word in {"daily", "weekly", "hourly", "every-30-mins"}
       case Wildfire => word in {"real-time", "every-min", "every-15-mins", "every-30-mins", "every-hour"}
       case WfPrivate => word in {"every-5-mins", "every-15-mins", "every-30-mins", "every-hour"}
       case GpDatafile => word in {"daily", "weekly", "hourly"}
       case GpClientless => word in {"daily", "weekly", "hourly"}
  }

  /** The last minute past the boundary at which such an update can start. */
  function LastMinute(word: string): int {
    if word == "hourly" || word == "every-hour" then 59
    else if word == "every-30-mins" then 29
    else if word == "every-15-mins" then 14
    else if word == "every-5-mins" then 4
    else -1
  }

  /** A time of day for daily and weekly, minutes for what recurs within the hour, and nothing else has a time. */
  predicate TimeFits(word: string, at: string) {
    if word == "daily" || word == "weekly" then ParseWallClock(at).Some?
    else
      var n := Atoi(TrimSpace(at));
      n.Some? && 0 <= n.value <= LastMinute(word)
  }

  predicate RunsSometimes(word: string) {
    word != "none" && word != "real-time"
  }

  predicate InHours(v: Option<int>) {
    v.Some? ==> 1 <= v.value <= 336
  }

  /** What every field must be, and which features have it. */
  predicate FieldsFit(f: Feature, i: ScheduleInput) {
    && (i.threshold.Some? ==> f.AntiVirus? || f.AppProfile? || f.Threats?) && InHours(i.threshold)
    && (i.newAppThreshold.Some? ==> f.Threats?) && InHours(i.newAppThreshold)
    && (i.disableNewContent.Some? ==> f.Threats?)
    && (i.syncToPeer.Some? ==> !f.GpDatafile? && !f.GpClientless?)
    && (i.action.Some? ==> i.action.value in {"download-only", "download-and-install"})
    && (i.dayOfWeek.Some? ==>
          i.dayOfWeek.value
          in {"sunday", "monday", "tuesday", "wednesday", "thursday", "friday", "saturday"})
  }

  /** Which fields a recurrence has. */
  predicate RecurrenceFits(f: Feature, i: ScheduleInput) {
    if i.recurrence.None? then
      && i.action.None? && i.at.None? && i.dayOfWeek.None? && i.disableNewContent.None?
      && (i.syncToPeer.Some? ==> !f.Wildfire?)
    else
      var word := i.recurrence.value;
      && Offers(f, word)
      && (i.action.Some? ==> RunsSometimes(word))
      && (i.dayOfWeek.Some? ==> word == "weekly")
      && (i.disableNewContent.Some? ==> word != "none")
      && (i.syncToPeer.Some? && f.Wildfire? ==> RunsSometimes(word))
      && (i.at.Some? ==> TimeFits(word, i.at.value))
  }

  lemma OffersExactly(f: Feature, word: string)
    ensures NamedCadence(word).Some? && SpecOf(f).cadences.Slot(NamedCadence(word).value).Some? <==> Offers(f, word)
  {
  }

  lemma FieldsFitExactly(f: Feature, i: ScheduleInput)
    ensures ValidateFeatureScalars(SpecOf(f), i).Pass? && ValidateScheduleEnums(i).Pass? <==> FieldsFit(f, i)
  {
  }

  lemma OmittedFitsExactly(f: Feature, i: ScheduleInput)
    requires i.recurrence.None?
    ensures RejectCadenceFieldsWhenNoRecurrence(SpecOf(f), i).Pass? <==> RecurrenceFits(f, i)
  {
  }

  /** What a cadence of a feature has, in words. */
  lemma SpecInWords(f: Feature, word: string)
    requires Offers(f, word)
    ensures NamedCadence(word).Some? && SpecOf(f).cadences.Slot(NamedCadence(word).value).Some?
    ensures var cs := SpecOf(f).cadences.Slot(NamedCadence(word).value).value;
            && (cs.hasAction <==> RunsSometimes(word))
            && (cs.hasDay <==> word == "weekly")
            && (f.Threats? ==> (cs.hasDisable <==> word != "none"))
            && (f.Wildfire? ==> (cs.hasSync <==> RunsSometimes(word)))
            && (cs.at.AtWallClock? <==> word == "daily" || word == "weekly")
            && (cs.at.AtMinutes? <==> LastMinute(word) >= 0)
            && (cs.at.AtMinutes? ==> cs.at.max == LastMinute(word))
  {
    OffersExactly(f, word);
    TimesInWords(f, word);
  }

  lemma TimesInWords(f: Feature, word: string)
    requires Offers(f, word) && NamedCadence(word).Some? && SpecOf(f).cadences.Slot(NamedCadence(word).value).Some?
    ensures var at := SpecOf(f).cadences.Slot(NamedCadence(word).value).value.at;
            && (at.AtWallClock? <==> word == "daily" || word == "weekly")
            && (at.AtMinutes? <==> LastMinute(word) >= 0)
            && (at.AtMinutes? ==> at.max == LastMinute(word))
  {
    TimeOfCadence(f, NamedCadence(word).value);
  }

  lemma TimeOfCadence(f: Feature, c: Cadence)
    requires SpecOf(f).cadences.Slot(c).Some?
    ensures SpecOf(f).cadences.Slot(c).value.at
            == match c
               case Daily | Weekly => AtWallClock
               case Hourly | EveryHour => AtMinutes(59)
               case Every30Mins => AtMinutes(29)
               case Every15Mins => AtMinutes(14)
               case Every5Mins => AtMinutes(4)
               case NoSchedule | RealTime | EveryMin => AtNone
  {
  }

  lemma CadenceFitsExactly(f: Feature, i: ScheduleInput)
    requires i.recurrence.Some? && Offers(f, i.recurrence.value) && FieldsFit(f, i)
    ensures NamedCadence(i.recurrence.value).Some?
    ensures SpecOf(f).cadences.Slot(NamedCadence(i.recurrence.value).value).Some?
    ensures var cs := SpecOf(f).cadences.Slot(NamedCadence(i.recurrence.value).value).value;
            ValidateCadenceFields(SpecOf(f), cs, i).Pass? && ParseScheduleAt(cs, i.at).Ok? <==> RecurrenceFits(f, i)
  {
    SpecInWords(f, i.recurrence.value);
    SyncOfWildfire(f);
  }

  lemma SyncOfWildfire(f: Feature)
    ensures SpecOf(f).sync.SyncCadence? <==> f.Wildfire?
  {
  }

  /** Exactly which inputs pass validation. */
  lemma AcceptsExactly(f: Feature, i: ScheduleInput)
    ensures ParseSchedule(SpecOf(f), i).Ok? <==> FieldsFit(f, i) && RecurrenceFits(f, i)
  {
    FieldsFitExactly(f, i);
    if i.recurrence.None? {
      OmittedFitsExactly(f, i);
    } else {
      OffersExactly(f, i.recurrence.value);
      if FieldsFit(f, i) && Offers(f, i.recurrence.value) {
        CadenceFitsExactly(f, i);
      }
    }
  }

  /**
   * What an accepted input says of a stored schedule. Without a recurrence there must be a schedule to edit. A
   * recurrence that is not stored yet must come with its action, then its time, then its day, and the first of these
   * that is missing is named; one that is stored already inherits them, and is never refused.
   */
  lemma VerdictInWords(f: Feature, r: Recurring, i: ScheduleInput)
    requires FieldsFit(f, i) && RecurrenceFits(f, i)
    ensures i.recurrence.Some? ==> NamedCadence(i.recurrence.value).Some?
    ensures Verdict(TableOverlay(SpecOf(f), r, i))
            == if i.recurrence.None? then
                 if r.nodes == NO_BRANCH then Fail(NothingStored) else Pass
               else
                 var word := i.recurrence.value;
                 if r.nodes.Slot(NamedCadence(word).value).Some? then Pass
                 else if RunsSometimes(word) && i.action.None? then Fail(Missing(Action))
                 else if RunsSometimes(word) && word != "every-min" && i.at.None? then Fail(Missing(At))
                 else if word == "weekly" && i.dayOfWeek.None? then Fail(Missing(DayOfWeek))
                 else Pass
  {
    AcceptsExactly(f, i);
    if i.recurrence.Some? {
      var word := i.recurrence.value;
      SpecInWords(f, word);
      FreshNode(f, r, i);
    }
  }

  /** The node a fresh cadence starts from has what the input provides, and nothing else. */
  lemma FreshNode(f: Feature, r: Recurring, i: ScheduleInput)
    requires FieldsFit(f, i) && RecurrenceFits(f, i) && i.recurrence.Some?
    requires ParseSchedule(SpecOf(f), i).Ok?
    ensures var p := ParseSchedule(SpecOf(f), i).value;
            && p.cadence == NamedCadence(i.recurrence.value) && p.cadence.Some?
            && var n := NO_FIELDS.Over(NodeFields(SpecOf(f), p));
               && n.action == i.action && n.dayOfWeek == i.dayOfWeek && (n.at.Some? <==> i.at.Some?)
  {
  }

  // ----- What is wrong with the others -----

  function FieldProblem(f: Feature, i: ScheduleInput): Option<ScheduleError> {
    if i.threshold.Some? && !(f.AntiVirus? || f.AppProfile? || f.Threats?) then Some(Unsupported(Threshold))
    else if !InHours(i.threshold) then Some(OutOfRange(Threshold))
    else if i.newAppThreshold.Some? && !f.Threats? then Some(Unsupported(NewAppThreshold))
    else if !InHours(i.newAppThreshold) then Some(OutOfRange(NewAppThreshold))
    else if i.disableNewContent.Some? && !f.Threats? then Some(Unsupported(DisableNewContent))
    else if i.syncToPeer.Some? && (f.GpDatafile? || f.GpClientless?) then Some(Unsupported(SyncToPeer))
    else if i.action.Some? && i.action.value !in {"download-only", "download-and-install"} then Some(BadAction)
    else if !FieldsFit(f, i) then Some(BadDay)
    else None
  }

  function OmittedProblem(f: Feature, i: ScheduleInput): Option<ScheduleError> {
    if i.action.Some? then Some(RequiresRecurrence(Action))
    else if i.at.Some? then Some(RequiresRecurrence(At))
    else if i.dayOfWeek.Some? then Some(RequiresRecurrence(DayOfWeek))
    else if i.disableNewContent.Some? then Some(RequiresRecurrence(DisableNewContent))
    else if i.syncToPeer.Some? && f.Wildfire? then Some(RequiresRecurrence(SyncToPeer))
    else None
  }

  function RecurrenceProblem(f: Feature, i: ScheduleInput, word: string): Option<ScheduleError> {
    if !Offers(f, word) then Some(BadRecurrence)
    else if i.action.Some? && !RunsSometimes(word) then Some(NotForCadence(Action))
    else if i.dayOfWeek.Some? && word != "weekly" then Some(NotForCadence(DayOfWeek))
    else if i.disableNewContent.Some? && word == "none" then Some(NotForCadence(DisableNewContent))
    else if i.syncToPeer.Some? && f.Wildfire? && !RunsSometimes(word) then Some(NotForCadence(SyncToPeer))
    else if i.at.Some? && (!RunsSometimes(word) || word == "every-min") then Some(NotForCadence(At))
    else if i.at.Some? && !TimeFits(word, i.at.value) then Some(BadAt)
    else None
  }

  /** The first problem of an input, in the order in which it is looked for. */
  function Problem(f: Feature, i: ScheduleInput): Option<ScheduleError> {
    if FieldProblem(f, i).Some? then FieldProblem(f, i)
    else if i.recurrence.None? then OmittedProblem(f, i)
    else RecurrenceProblem(f, i, i.recurrence.value)
  }

  lemma FieldProblemNamed(f: Feature, i: ScheduleInput)
    ensures var scalars, enums := ValidateFeatureScalars(SpecOf(f), i), ValidateScheduleEnums(i);
            FieldProblem(f, i)
            == if scalars.Fail? then Some(scalars.error) else if enums.Fail? then Some(enums.error) else None
  {
  }

  lemma RecurrenceProblemNamed(f: Feature, i: ScheduleInput)
    requires FieldProblem(f, i).None? && i.recurrence.Some?
    ensures var parsed := ParseSchedule(SpecOf(f), i);
            RecurrenceProblem(f, i, i.recurrence.value) == if parsed.Err? then Some(parsed.error) else None
  {
    FieldProblemNamed(f, i);
    OffersExactly(f, i.recurrence.value);
    if Offers(f, i.recurrence.value) {
      SpecInWords(f, i.recurrence.value);
      SyncOfWildfire(f);
      FieldsFitExactly(f, i);
    }
  }

  /** A refused input is refused for its first problem, and an input is accepted if it has none. */
  lemma ProblemNamed(f: Feature, i: ScheduleInput)
    ensures var parsed := ParseSchedule(SpecOf(f), i);
            Problem(f, i) == if parsed.Err? then Some(parsed.error) else None
  {
    FieldProblemNamed(f, i);
    if FieldProblem(f, i).None? {
      if i.recurrence.None? {
        SyncOfWildfire(f);
      } else {
        RecurrenceProblemNamed(f, i);
      }
    }
  }

  // ----- Which cadence a get reports -----

  /** The order in which a get looks for a cadence, the same for every feature. */
  function Rank(c: Cadence): nat {
    match c
    case Daily => 0
    case Hourly => 1
    case Every5Mins => 2
    case Every15Mins => 3
    case Every30Mins => 4
    case EveryHour => 5
    case EveryMin => 6
    case Weekly => 7
    case RealTime => 8
    case NoSchedule => 9
  }

  /** The cadence a get is about, also when another tool left several. */
  ghost predicate Reported(f: Feature, b: Branches, c: Cadence) {
    && SpecOf(f).cadences.Slot(c).Some? && b.Slot(c).Some?
    && forall d :: SpecOf(f).cadences.Slot(d).Some? && b.Slot(d).Some? ==> Rank(c) <= Rank(d)
  }

  ghost predicate Ascends(order: seq<Cadence>) {
    forall i :: 0 < i < |order| ==> Rank(order[i - 1]) < Rank(order[i])
  }

  lemma {:induction false} FirstInOrder(order: seq<Cadence>, b: Branches, c: Cadence)
    requires c in order && b.Slot(c).Some? && Ascends(order)
    requires forall d :: d in order && b.Slot(d).Some? ==> Rank(c) <= Rank(d)
    ensures Active(order, b) == Some(c) && Rank(order[0]) <= Rank(c)
  {
    if order[0] != c {
      var rest := order[1..];
      forall i | 0 < i < |rest| ensures Rank(rest[i - 1]) < Rank(rest[i]) {
        assert rest[i] == order[i + 1];
      }
      FirstInOrder(rest, b, c);
    }
  }

  lemma OrderIsRanked(f: Feature)
    ensures Ascends(SpecOf(f).order)
  {
    var order := SpecOf(f).order;
    forall i | 0 < i < |order| ensures Rank(order[i - 1]) < Rank(order[i]) {
      assert i == 1 || i == 2 || i == 3 || i == 4 || i == 5;
    }
  }

  lemma OrderIsOffered(f: Feature)
    ensures forall d :: d in SpecOf(f).order ==> SpecOf(f).cadences.Slot(d).Some?
  {
  }

  /** What is reported of the first cadence present: its name, and each of its fields. */
  lemma ReportsOneCadence(f: Feature, r: Recurring, c: Cadence)
    requires Reported(f, r.nodes, c)
    ensures var s, n := TableSummary(SpecOf(f), r), r.nodes.Slot(c).value;
            && s.recurrence == CadenceName(c)
            && s.action == (if RunsSometimes(CadenceName(c)) then Some(StrVal(n.action)) else None)
            && s.dayOfWeek == n.dayOfWeek && s.disableNewContent == n.disableNewContent
            && s.syncToPeer == (if f.Wildfire? then n.syncToPeer else r.level.syncToPeer)
            && s.threshold == r.level.threshold && s.newAppThreshold == r.level.newAppThreshold
            && s.at == (if !RunsSometimes(CadenceName(c)) || c == EveryMin then None
                        else Some(match n.at
                                  case None => ""
                                  case Some(Clock(time)) => time
                                  case Some(Minute(minutes)) => Itoa(minutes)))
  {
    OrderIsRanked(f);
    OrderIsOffered(f);
    SpecShape(f, c);
    FirstInOrder(SpecOf(f).order, r.nodes, c);
    SyncOfWildfire(f);
    NamesDiffer(c);
  }

  /** A feature without a cadence is reported with an empty recurrence, and with its own fields only. */
  lemma ReportsNoCadence(f: Feature, r: Recurring)
    requires forall d :: SpecOf(f).cadences.Slot(d).Some? ==> r.nodes.Slot(d).None?
    ensures TableSummary(SpecOf(f), r)
            == Summary("", None, None, None, if f.Wildfire? then None else r.level.syncToPeer,
                       r.level.threshold, r.level.newAppThreshold, None)
  {
    OrderIsOffered(f);
    SyncOfWildfire(f);
    NoneActive(SpecOf(f).order, r.nodes);
  }
}
