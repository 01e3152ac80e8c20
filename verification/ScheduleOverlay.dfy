/** The update-schedule singleton: all seven features and the statistics toggles under one overlay and one summary. */
module ScheduleOverlay {
  import opened Wrappers
  import opened ScheduleSpec
  import opened ScheduleNodes
  import opened ScheduleFeatures

  datatype Toggle =
    | ApplicationReports | FileIdentificationReports | HealthPerformanceReports | PassiveDnsMonitoring
    | ThreatPreventionInformation | ThreatPreventionPcap | ThreatPreventionReports | UrlReports

  /** The toggles that are set; a toggle left out of an input is not in its map. */
  type Toggles = map<Toggle, bool>

  /** One optional item per feature. */
  datatype PerFeature<+T> = PerFeature(
    antiVirus: Option<T>, appProfile: Option<T>, threats: Option<T>, wildfire: Option<T>, wfPrivate: Option<T>,
    gpDatafile: Option<T>, gpClientless: Option<T>)
  {
    function Item(f: Feature): Option<T> {
      match f
      case AntiVirus => antiVirus
      case AppProfile => appProfile
      case Threats => threats
      case Wildfire => wildfire
      case WfPrivate => wfPrivate
      case GpDatafile => gpDatafile
      case GpClientless => gpClientless
    }

    function With(f: Feature, item: Option<T>): PerFeature<T> {
      match f
      case AntiVirus => this.(antiVirus := item)
      case AppProfile => this.(appProfile := item)
      case Threats => this.(threats := item)
      case Wildfire => this.(wildfire := item)
      case WfPrivate => this.(wfPrivate := item)
      case GpDatafile => this.(gpDatafile := item)
      case GpClientless => this.(gpClientless := item)
    }
  }

  datatype Config = Config(features: PerFeature<Recurring>, statistics: Option<Toggles>)

  datatype UpdatesInput = UpdatesInput(features: PerFeature<ScheduleInput>, statistics: Option<Toggles>)

  const NO_FEATURE: PerFeature<Recurring> := PerFeature(None, None, None, None, None, None, None)
  const EMPTY_CONFIG := Config(NO_FEATURE, None)

  predicate Provides(input: UpdatesInput) {
    input.statistics.Some? || exists f: Feature :: input.features.Item(f).Some?
  }

  /** What one feature's part of the input does to that feature, by the table. */
  function FeatureStep(f: Feature, stored: Option<Recurring>, input: Option<ScheduleInput>)
    : Result<Option<Recurring>, ScheduleError>
  {
    if input.None? then Ok(stored)
    else
      var r := TableOverlay(SpecOf(f), stored.GetOr(EMPTY), input.value);
      if r.Err? then Err(r.error) else Ok(Some(r.value))
  }

  function StatisticsStep(stored: Option<Toggles>, input: Option<Toggles>): Option<Toggles> {
    if input.None? then stored else Some(stored.GetOr(map[]) + input.value)
  }

  /** The features in the order the overlay visits them. */
  function Visited(n: nat): Feature
    requires n < 7
  {
    if n == 0 then AntiVirus else if n == 1 then AppProfile else if n == 2 then Threats else if n == 3 then Wildfire
    else if n == 4 then WfPrivate else if n == 5 then GpDatafile else GpClientless
  }

  /** The table-driven overlay of the features from the `n`-th on, then of the toggles; the first error ends it. */
  function TableFrom(n: nat, c: Config, input: UpdatesInput): Result<Config, ScheduleError>
    requires n <= 7
    decreases 7 - n
  {
    if n == 7 then Ok(c.(statistics := StatisticsStep(c.statistics, input.statistics)))
    else
      var f := Visited(n);
      var r := FeatureStep(f, c.features.Item(f), input.features.Item(f));
      if r.Err? then Err(r.error) else TableFrom(n + 1, c.(features := c.features.With(f, r.value)), input)
  }

  function TableConfig(c: Config, input: UpdatesInput): Result<Config, ScheduleError> {
    if !Provides(input) then Err(NoFeature) else TableFrom(0, c, input)
  }

  class UpdateSchedule {
    var antiVirus: AntiVirusRecurring?
    var appProfile: AppProfileRecurring?
    var threats: ThreatsRecurring?
    var wildfire: WildfireRecurring?
    var wfPrivate: WfPrivateRecurring?
    var gpDatafile: GpDatafileRecurring?
    var gpClientless: GpClientlessRecurring?
    var statistics: Option<Toggles>

    constructor ()
      ensures View() == EMPTY_CONFIG
      ensures antiVirus == null && appProfile == null && threats == null && wildfire == null
      ensures wfPrivate == null && gpDatafile == null && gpClientless == null
    {
      antiVirus, appProfile, threats, wildfire, wfPrivate, gpDatafile, gpClientless :=
        null, null, null, null, null, null, null;
      statistics := None;
    }

    function AntiVirusView(): Option<Recurring>
      reads `antiVirus, antiVirus
    {
      if antiVirus == null then None else Some(antiVirus.View())
    }

    function AppProfileView(): Option<Recurring>
      reads `appProfile, appProfile
    {
      if appProfile == null then None else Some(appProfile.View())
    }

    function ThreatsView(): Option<Recurring>
      reads `threats, threats
    {
      if threats == null then None else Some(threats.View())
    }

    function WildfireView(): Option<Recurring>
      reads `wildfire, wildfire
    {
      if wildfire == null then None else Some(wildfire.View())
    }

    function WfPrivateView(): Option<Recurring>
      reads `wfPrivate, wfPrivate
    {
      if wfPrivate == null then None else Some(wfPrivate.View())
    }

    function GpDatafileView(): Option<Recurring>
      reads `gpDatafile, gpDatafile
    {
      if gpDatafile == null then None else Some(gpDatafile.View())
    }

    function GpClientlessView(): Option<Recurring>
      reads `gpClientless, gpClientless
    {
      if gpClientless == null then None else Some(gpClientless.View())
    }

    function View(): Config
      reads this, antiVirus, appProfile, threats, wildfire, wfPrivate, gpDatafile, gpClientless
    {
      Config(PerFeature(AntiVirusView(), AppProfileView(), ThreatsView(), WildfireView(),
                        WfPrivateView(), GpDatafileView(), GpClientlessView()),
             statistics)
    }

    method EditAntiVirus(input: ScheduleInput) returns (err: Outcome<ScheduleError>)
      modifies `antiVirus, antiVirus
      ensures var t := TableOverlay(SpecOf(AntiVirus), old(AntiVirusView()).GetOr(EMPTY), input);
              err == Verdict(t) && (t.Ok? ==> AntiVirusView() == Some(t.value))
    {
      if antiVirus == null {
        antiVirus := new AntiVirusRecurring();
      }
      assert antiVirus.View() == old(AntiVirusView()).GetOr(EMPTY);
      err := antiVirus.Update(input);
    }

    method ApplyAntiVirus(input: Option<ScheduleInput>) returns (err: Outcome<ScheduleError>)
      modifies `antiVirus, antiVirus
      ensures View() == old(View()).(features := old(View()).features.(antiVirus := AntiVirusView()))
      ensures var t := FeatureStep(AntiVirus, old(AntiVirusView()), input);
              err == Verdict(t) && (t.Ok? ==> AntiVirusView() == t.value)
    {
      err := Pass;
      if input.Some? {
        err := EditAntiVirus(input.value);
      }
    }

    method EditAppProfile(input: ScheduleInput) returns (err: Outcome<ScheduleError>)
      modifies `appProfile, appProfile
      ensures var t := TableOverlay(SpecOf(AppProfile), old(AppProfileView()).GetOr(EMPTY), input);
              err == Verdict(t) && (t.Ok? ==> AppProfileView() == Some(t.value))
    {
      if appProfile == null {
        appProfile := new AppProfileRecurring();
      }
      assert appProfile.View() == old(AppProfileView()).GetOr(EMPTY);
      err := appProfile.Update(input);
    }

    method ApplyAppProfile(input: Option<ScheduleInput>) returns (err: Outcome<ScheduleError>)
      modifies `appProfile, appProfile
      ensures View() == old(View()).(features := old(View()).features.(appProfile := AppProfileView()))
      ensures var t := FeatureStep(AppProfile, old(AppProfileView()), input);
              err == Verdict(t) && (t.Ok? ==> AppProfileView() == t.value)
    {
      err := Pass;
      if input.Some? {
        err := EditAppProfile(input.value);
      }
    }

    method EditThreats(input: ScheduleInput) returns (err: Outcome<ScheduleError>)
      modifies `threats, threats
      ensures var t := TableOverlay(SpecOf(Threats), old(ThreatsView()).GetOr(EMPTY), input);
              err == Verdict(t) && (t.Ok? ==> ThreatsView() == Some(t.value))
    {
      if threats == null {
        threats := new ThreatsRecurring();
      }
      assert threats.View() == old(ThreatsView()).GetOr(EMPTY);
      err := threats.Update(input);
    }

    method ApplyThreats(input: Option<ScheduleInput>) returns (err: Outcome<ScheduleError>)
      modifies `threats, threats
      ensures View() == old(View()).(features := old(View()).features.(threats := ThreatsView()))
      ensures var t := FeatureStep(Threats, old(ThreatsView()), input);
              err == Verdict(t) && (t.Ok? ==> ThreatsView() == t.value)
    {
      err := Pass;
      if input.Some? {
        err := EditThreats(input.value);
      }
    }

    method EditWildfire(input: ScheduleInput) returns (err: Outcome<ScheduleError>)
      modifies `wildfire, wildfire
      ensures var t := TableOverlay(SpecOf(Wildfire), old(WildfireView()).GetOr(EMPTY), input);
              err == Verdict(t) && (t.Ok? ==> WildfireView() == Some(t.value))
    {
      if wildfire == null {
        wildfire := new WildfireRecurring();
      }
      assert wildfire.View() == old(WildfireView()).GetOr(EMPTY);
      err := wildfire.Update(input);
    }

    method ApplyWildfire(input: Option<ScheduleInput>) returns (err: Outcome<ScheduleError>)
      modifies `wildfire, wildfire
      ensures View() == old(View()).(features := old(View()).features.(wildfire := WildfireView()))
      ensures var t := FeatureStep(Wildfire, old(WildfireView()), input);
              err == Verdict(t) && (t.Ok? ==> WildfireView() == t.value)
    {
      err := Pass;
      if input.Some? {
        err := EditWildfire(input.value);
      }
    }

    method EditWfPrivate(input: ScheduleInput) returns (err: Outcome<ScheduleError>)
      modifies `wfPrivate, wfPrivate
      ensures var t := TableOverlay(SpecOf(WfPrivate), old(WfPrivateView()).GetOr(EMPTY), input);
              err == Verdict(t) && (t.Ok? ==> WfPrivateView() == Some(t.value))
    {
      if wfPrivate == null {
        wfPrivate := new WfPrivateRecurring();
      }
      assert wfPrivate.View() == old(WfPrivateView()).GetOr(EMPTY);
      err := wfPrivate.Update(input);
    }

    method ApplyWfPrivate(input: Option<ScheduleInput>) returns (err: Outcome<ScheduleError>)
      modifies `wfPrivate, wfPrivate
      ensures View() == old(View()).(features := old(View()).features.(wfPrivate := WfPrivateView()))
      ensures var t := FeatureStep(WfPrivate, old(WfPrivateView()), input);
              err == Verdict(t) && (t.Ok? ==> WfPrivateView() == t.value)
    {
      err := Pass;
      if input.Some? {
        err := EditWfPrivate(input.value);
      }
    }

    method EditGpDatafile(input: ScheduleInput) returns (err: Outcome<ScheduleError>)
      modifies `gpDatafile, gpDatafile
      ensures var t := TableOverlay(SpecOf(GpDatafile), old(GpDatafileView()).GetOr(EMPTY), input);
              err == Verdict(t) && (t.Ok? ==> GpDatafileView() == Some(t.value))
    {
      if gpDatafile == null {
        gpDatafile := new GpDatafileRecurring();
      }
      assert gpDatafile.View() == old(GpDatafileView()).GetOr(EMPTY);
      err := gpDatafile.Update(input);
    }

    method ApplyGpDatafile(input: Option<ScheduleInput>) returns (err: Outcome<ScheduleError>)
      modifies `gpDatafile, gpDatafile
      ensures View() == old(View()).(features := old(View()).features.(gpDatafile := GpDatafileView()))
      ensures var t := FeatureStep(GpDatafile, old(GpDatafileView()), input);
              err == Verdict(t) && (t.Ok? ==> GpDatafileView() == t.value)
    {
      err := Pass;
      if input.Some? {
        err := EditGpDatafile(input.value);
      }
    }

    method EditGpClientless(input: ScheduleInput) returns (err: Outcome<ScheduleError>)
      modifies `gpClientless, gpClientless
      ensures var t := TableOverlay(SpecOf(GpClientless), old(GpClientlessView()).GetOr(EMPTY), input);
              err == Verdict(t) && (t.Ok? ==> GpClientlessView() == Some(t.value))
    {
      if gpClientless == null {
        gpClientless := new GpClientlessRecurring();
      }
      assert gpClientless.View() == old(GpClientlessView()).GetOr(EMPTY);
      err := gpClientless.Update(input);
    }

    method ApplyGpClientless(input: Option<ScheduleInput>) returns (err: Outcome<ScheduleError>)
      modifies `gpClientless, gpClientless
      ensures View() == old(View()).(features := old(View()).features.(gpClientless := GpClientlessView()))
      ensures var t := FeatureStep(GpClientless, old(GpClientlessView()), input);
              err == Verdict(t) && (t.Ok? ==> GpClientlessView() == t.value)
    {
      err := Pass;
      if input.Some? {
        err := EditGpClientless(input.value);
      }
    }

    method ApplyStatistics(input: Option<Toggles>)
      modifies `statistics
      ensures View() == old(View()).(statistics := StatisticsStep(old(View()).statistics, input))
    {
      if input.Some? {
        statistics := Some(statistics.GetOr(map[]) + input.value);
      }
    }

    method Overlay(input: UpdatesInput) returns (err: Outcome<ScheduleError>)
      modifies this, antiVirus, appProfile, threats, wildfire, wfPrivate, gpDatafile, gpClientless
      ensures var t := TableConfig(old(View()), input); err == Verdict(t) && (t.Ok? ==> View() == t.value)
    {
      if !Provides(input) { return Fail(NoFeature); }
      err := OverlayAntiVirusOn(input);
    }

    method OverlayAntiVirusOn(input: UpdatesInput) returns (err: Outcome<ScheduleError>)
      modifies `antiVirus, `appProfile, `threats, `wildfire, `wfPrivate, `gpDatafile, `gpClientless, `statistics
      modifies antiVirus, appProfile, threats, wildfire, wfPrivate, gpDatafile, gpClientless
      ensures var t := TableFrom(0, old(View()), input); err == Verdict(t) && (t.Ok? ==> View() == t.value)
    {
      err := ApplyAntiVirus(input.features.antiVirus);
      if err.Fail? { return; }
      err := OverlayAppProfileOn(input);
    }

    method OverlayAppProfileOn(input: UpdatesInput) returns (err: Outcome<ScheduleError>)
      modifies `appProfile, `threats, `wildfire, `wfPrivate, `gpDatafile, `gpClientless, `statistics
      modifies appProfile, threats, wildfire, wfPrivate, gpDatafile, gpClientless
      ensures var t := TableFrom(1, old(View()), input); err == Verdict(t) && (t.Ok? ==> View() == t.value)
    {
      err := ApplyAppProfile(input.features.appProfile);
      if err.Fail? { return; }
      err := OverlayThreatsOn(input);
    }

    method OverlayThreatsOn(input: UpdatesInput) returns (err: Outcome<ScheduleError>)
      modifies `threats, `wildfire, `wfPrivate, `gpDatafile, `gpClientless, `statistics
      modifies threats, wildfire, wfPrivate, gpDatafile, gpClientless
      ensures var t := TableFrom(2, old(View()), input); err == Verdict(t) && (t.Ok? ==> View() == t.value)
    {
      err := ApplyThreats(input.features.threats);
      if err.Fail? { return; }
      err := OverlayWildfireOn(input);
    }

    method OverlayWildfireOn(input: UpdatesInput) returns (err: Outcome<ScheduleError>)
      modifies `wildfire, `wfPrivate, `gpDatafile, `gpClientless, `statistics
      modifies wildfire, wfPrivate, gpDatafile, gpClientless
      ensures var t := TableFrom(3, old(View()), input); err == Verdict(t) && (t.Ok? ==> View() == t.value)
    {
      err := ApplyWildfire(input.features.wildfire);
      if err.Fail? { return; }
      err := OverlayWfPrivateOn(input);
    }

    method OverlayWfPrivateOn(input: UpdatesInput) returns (err: Outcome<ScheduleError>)
      modifies `wfPrivate, `gpDatafile, `gpClientless, `statistics
      modifies wfPrivate, gpDatafile, gpClientless
      ensures var t := TableFrom(4, old(View()), input); err == Verdict(t) && (t.Ok? ==> View() == t.value)
    {
      err := ApplyWfPrivate(input.features.wfPrivate);
      if err.Fail? { return; }
      err := OverlayGpDatafileOn(input);
    }

    method OverlayGpDatafileOn(input: UpdatesInput) returns (err: Outcome<ScheduleError>)
      modifies `gpDatafile, `gpClientless, `statistics
      modifies gpDatafile, gpClientless
      ensures var t := TableFrom(5, old(View()), input); err == Verdict(t) && (t.Ok? ==> View() == t.value)
    {
      err := ApplyGpDatafile(input.features.gpDatafile);
      if err.Fail? { return; }
      err := OverlayGpClientlessOn(input);
    }

    method OverlayGpClientlessOn(input: UpdatesInput) returns (err: Outcome<ScheduleError>)
      modifies `gpClientless, `statistics
      modifies gpClientless
      ensures var t := TableFrom(6, old(View()), input); err == Verdict(t) && (t.Ok? ==> View() == t.value)
    {
      err := ApplyGpClientless(input.features.gpClientless);
      if err.Fail? { return; }
      ApplyStatistics(input.statistics);
    }

    function AntiVirusSummary(): (s: Option<Summary>)
      reads `antiVirus, antiVirus
      ensures s == SummaryItem(AntiVirus, AntiVirusView())
    {
      if antiVirus == null then None
      else
        antiVirus.SummaryAgrees();
        Some(antiVirus.Summarize())
    }

    function AppProfileSummary(): (s: Option<Summary>)
      reads `appProfile, appProfile
      ensures s == SummaryItem(AppProfile, AppProfileView())
    {
      if appProfile == null then None
      else
        appProfile.SummaryAgrees();
        Some(appProfile.Summarize())
    }

    function ThreatsSummary(): (s: Option<Summary>)
      reads `threats, threats
      ensures s == SummaryItem(Threats, ThreatsView())
    {
      if threats == null then None
      else
        threats.SummaryAgrees();
        Some(threats.Summarize())
    }

    function WildfireSummary(): (s: Option<Summary>)
      reads `wildfire, wildfire
      ensures s == SummaryItem(Wildfire, WildfireView())
    {
      if wildfire == null then None
      else
        wildfire.SummaryAgrees();
        Some(wildfire.Summarize())
    }

    function WfPrivateSummary(): (s: Option<Summary>)
      reads `wfPrivate, wfPrivate
      ensures s == SummaryItem(WfPrivate, WfPrivateView())
    {
      if wfPrivate == null then None
      else
        wfPrivate.SummaryAgrees();
        Some(wfPrivate.Summarize())
    }

    function GpDatafileSummary(): (s: Option<Summary>)
      reads `gpDatafile, gpDatafile
      ensures s == SummaryItem(GpDatafile, GpDatafileView())
    {
      if gpDatafile == null then None
      else
        gpDatafile.SummaryAgrees();
        Some(gpDatafile.Summarize())
    }

    function GpClientlessSummary(): (s: Option<Summary>)
      reads `gpClientless, gpClientless
      ensures s == SummaryItem(GpClientless, GpClientlessView())
    {
      if gpClientless == null then None
      else
        gpClientless.SummaryAgrees();
        Some(gpClientless.Summarize())
    }

    /** `dynamicUpdatesSummary`: one summary per feature present. */
    function Summarize(): (s: ConfigSummary)
      reads this, antiVirus, appProfile, threats, wildfire, wfPrivate, gpDatafile, gpClientless
      ensures s == TableConfigSummary(View())
    {
      ConfigSummary(PerFeature(AntiVirusSummary(), AppProfileSummary(), ThreatsSummary(), WildfireSummary(),
                               WfPrivateSummary(), GpDatafileSummary(), GpClientlessSummary()),
                    statistics)
    }
  }

  datatype ConfigSummary = ConfigSummary(features: PerFeature<Summary>, statistics: Option<Toggles>)

  function SummaryItem(f: Feature, r: Option<Recurring>): Option<Summary> {
    if r.None? then None else Some(TableSummary(SpecOf(f), r.value))
  }

  function TableConfigSummary(c: Config): ConfigSummary {
    ConfigSummary(PerFeature(SummaryItem(AntiVirus, c.features.antiVirus),
                             SummaryItem(AppProfile, c.features.appProfile),
                             SummaryItem(Threats, c.features.threats), SummaryItem(Wildfire, c.features.wildfire),
                             SummaryItem(WfPrivate, c.features.wfPrivate),
                             SummaryItem(GpDatafile, c.features.gpDatafile),
                             SummaryItem(GpClientless, c.features.gpClientless)), c.statistics)
  }
}
