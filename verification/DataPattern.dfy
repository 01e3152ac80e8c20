/** The pattern type of a data pattern: exactly one of three branches, each with its own kind of entries. */
module DataPattern {
  import opened Wrappers
  import opened OneOf

  datatype Kind = FileProperties | Predefined | Regex

  datatype FileProperty = FileProperty(
    name: string, fileType: Option<string>, fileProperty: Option<string>, propertyValue: Option<string>)

  datatype PredefinedPattern = PredefinedPattern(name: string, fileType: Option<seq<string>>)

  datatype RegexPattern = RegexPattern(name: string, fileType: Option<seq<string>>, regex: Option<string>)

  /** A branch: its entries, which may be missing, and the XML this server does not model. */
  datatype Branch<P> = Branch(patterns: Option<seq<P>>, unmodeled: Option<string>)

  datatype PatternType = PatternType(
    fileProperties: Option<Branch<FileProperty>>, predefined: Option<Branch<PredefinedPattern>>,
    regex: Option<Branch<RegexPattern>>, unmodeled: Option<string>)

  const NO_TYPE := PatternType(None, None, None, None)

  /** The branch inputs; a branch sent without entries selects it and keeps its entries. */
  datatype PatternInput = PatternInput(
    fileProperties: Option<Option<seq<FileProperty>>>, predefined: Option<Option<seq<PredefinedPattern>>>,
    regex: Option<Option<seq<RegexPattern>>>)

  datatype PatternError = SeveralBranches | NameRequired

  // ----- The builders -----

  method BuildFilePropertyPatterns(input: Option<seq<FileProperty>>)
    returns (r: Result<Option<seq<FileProperty>>, PatternError>)
    ensures r == if forall p :: p in input.GetOr([]) ==> p.name != "" then Ok(input) else Err(NameRequired)
  {
    if input.None? {
      return Ok(None);
    }
    var out := [];
    for i := 0 to |input.value|
      invariant out == input.value[..i]
      invariant forall j :: 0 <= j < i ==> input.value[j].name != ""
    {
      var p := input.value[i];
      if p.name == "" {
        assert p in input.GetOr([]);
        return Err(NameRequired);
      }
      out := out + [FileProperty(p.name, p.fileType, p.fileProperty, p.propertyValue)];
    }
    assert input.value[..|input.value|] == input.value;
    r := Ok(Some(out));
  }

  method BuildPredefinedPatterns(input: Option<seq<PredefinedPattern>>)
    returns (r: Result<Option<seq<PredefinedPattern>>, PatternError>)
    ensures r == if forall p :: p in input.GetOr([]) ==> p.name != "" then Ok(input) else Err(NameRequired)
  {
    if input.None? {
      return Ok(None);
    }
    var out := [];
    for i := 0 to |input.value|
      invariant out == input.value[..i]
      invariant forall j :: 0 <= j < i ==> input.value[j].name != ""
    {
      var p := input.value[i];
      if p.name == "" {
        assert p in input.GetOr([]);
        return Err(NameRequired);
      }
      out := out + [PredefinedPattern(p.name, p.fileType)];
    }
    assert input.value[..|input.value|] == input.value;
    r := Ok(Some(out));
  }

  method BuildRegexPatterns(input: Option<seq<RegexPattern>>)
    returns (r: Result<Option<seq<RegexPattern>>, PatternError>)
    ensures r == if forall p :: p in input.GetOr([]) ==> p.name != "" then Ok(input) else Err(NameRequired)
  {
    if input.None? {
      return Ok(None);
    }
    var out := [];
    for i := 0 to |input.value|
      invariant out == input.value[..i]
      invariant forall j :: 0 <= j < i ==> input.value[j].name != ""
    {
      var p := input.value[i];
      if p.name == "" {
        assert p in input.GetOr([]);
        return Err(NameRequired);
      }
      out := out + [RegexPattern(p.name, p.fileType, p.regex)];
    }
    assert input.value[..|input.value|] == input.value;
    r := Ok(Some(out));
  }

  // ----- The overlay -----

  function CountSet(i: PatternInput): nat {
    (if i.fileProperties.Some? then 1 else 0) + (if i.predefined.Some? then 1 else 0) + (if i.regex.Some? then 1 else 0)
  }

  /** Every entry of the chosen branch has a name. */
  predicate EntriesNamed(i: PatternInput) {
    && (forall p :: p in i.fileProperties.GetOr(None).GetOr([]) ==> p.name != "")
    && (forall p :: p in i.predefined.GetOr(None).GetOr([]) ==> p.name != "")
    && (forall p :: p in i.regex.GetOr(None).GetOr([]) ==> p.name != "")
  }

  /** The chosen branch, seeded from what was stored in it. */
  function Rebuilt<P>(was: Option<Branch<P>>, chosen: Option<Option<seq<P>>>): Option<Branch<P>> {
    if chosen.None? then None
    else
      var b := was.GetOr(Branch(None, None));
      Some(b.(patterns := SetPtr(b.patterns, chosen.value)))
  }

  function OverlayType(t: PatternType, i: PatternInput): Result<PatternType, PatternError> {
    if CountSet(i) == 0 then Ok(t)
    else if CountSet(i) > 1 then Err(SeveralBranches)
    else if !EntriesNamed(i) then Err(NameRequired)
    else
      Ok(PatternType(Rebuilt(t.fileProperties, i.fileProperties), Rebuilt(t.predefined, i.predefined),
                     Rebuilt(t.regex, i.regex), t.unmodeled))
  }

  class TypeNode {
    var fileProperties: Option<Branch<FileProperty>>
    var predefined: Option<Branch<PredefinedPattern>>
    var regex: Option<Branch<RegexPattern>>
    var unmodeled: Option<string>

    constructor ()
      ensures View() == NO_TYPE
    {
      fileProperties, predefined, regex, unmodeled := None, None, None, None;
    }

    function View(): PatternType
      reads this
    {
      PatternType(fileProperties, predefined, regex, unmodeled)
    }

    /** Capture, clear and rebuild; when an entry has no name the branches stay cleared and the holder discards them. */
    method Choose(i: PatternInput) returns (err: Outcome<PatternError>)
      requires CountSet(i) == 1
      modifies this
      ensures match OverlayType(old(View()), i)
              case Ok(t) => err == Pass && View() == t
              case Err(e) => err == Fail(e) && View() == NO_TYPE.(unmodeled := old(View()).unmodeled)
    {
      var oldFileProperties, oldPredefined, oldRegex := fileProperties, predefined, regex;
      fileProperties, predefined, regex := None, None, None;
      if i.fileProperties.Some? {
        var b := oldFileProperties.GetOr(Branch(None, None));
        var patterns := BuildFilePropertyPatterns(i.fileProperties.value);
        if patterns.Err? {
          return Fail(patterns.error);
        }
        fileProperties := Some(if patterns.value.Some? then b.(patterns := patterns.value) else b);
      } else if i.predefined.Some? {
        var b := oldPredefined.GetOr(Branch(None, None));
        var patterns := BuildPredefinedPatterns(i.predefined.value);
        if patterns.Err? {
          return Fail(patterns.error);
        }
        predefined := Some(if patterns.value.Some? then b.(patterns := patterns.value) else b);
      } else {
        var b := oldRegex.GetOr(Branch(None, None));
        var patterns := BuildRegexPatterns(i.regex.value);
        if patterns.Err? {
          return Fail(patterns.error);
        }
        regex := Some(if patterns.value.Some? then b.(patterns := patterns.value) else b);
      }
      err := Pass;
    }
  }

  /**
   * What an input makes of an entry, whose pattern type may be missing. An entry without a name is found only after the
   * branches were cleared, so that refusal leaves an emptied pattern type to be discarded.
   */
  function Applied(stored: Option<PatternType>, i: PatternInput): (Outcome<PatternError>, Option<PatternType>) {
    var t := stored.GetOr(NO_TYPE);
    match OverlayType(t, i)
    case Ok(t') => (Pass, if CountSet(i) == 0 then stored else Some(t'))
    case Err(e) => (Fail(e), if e == NameRequired then Some(NO_TYPE.(unmodeled := t.unmodeled)) else stored)
  }

  /** An accepted input leaves the overlaid document, and an input that provides nothing leaves the entry alone. */
  lemma AppliedOverlays(stored: Option<PatternType>, i: PatternInput)
    requires Applied(stored, i).0.Pass?
    ensures OverlayType(stored.GetOr(NO_TYPE), i) == Ok(Applied(stored, i).1.GetOr(NO_TYPE))
    ensures i.fileProperties.None? && i.predefined.None? && i.regex.None? ==> Applied(stored, i).1 == stored
  {
  }

  class Pattern {
    var node: TypeNode?

    function View(): Option<PatternType>
      reads this, node
    {
      if node == null then None else Some(node.View())
    }

    /** `applyDataPatternType`, refusals included. */
    method Apply(i: PatternInput) returns (err: Outcome<PatternError>)
      modifies this, node
      ensures (err, View()) == Applied(old(View()), i)
    {
      if CountSet(i) == 0 {
        return Pass;
      }
      if CountSet(i) > 1 {
        return Fail(SeveralBranches);
      }
      if node == null {
        node := new TypeNode();
      }
      err := node.Choose(i);
    }
  }

  /** `dataPatternTypeString`. */
  function TypeString(t: Option<PatternType>): string {
    if t.None? then ""
    else if t.value.fileProperties.Some? then "file-properties"
    else if t.value.predefined.Some? then "predefined"
    else if t.value.regex.Some? then "regex"
    else ""
  }

  /** Exactly which inputs are refused: two branches or more, or an entry without a name in the one branch. */
  lemma RefusesExactly(t: PatternType, i: PatternInput)
    ensures var several := (i.fileProperties.Some? && (i.predefined.Some? || i.regex.Some?))
                           || (i.predefined.Some? && i.regex.Some?);
            var nameless := (exists p :: p in i.fileProperties.GetOr(None).GetOr([]) && p.name == "")
                            || (exists p :: p in i.predefined.GetOr(None).GetOr([]) && p.name == "")
                            || (exists p :: p in i.regex.GetOr(None).GetOr([]) && p.name == "");
            && (OverlayType(t, i) == Err(SeveralBranches) <==> several)
            && (OverlayType(t, i) == Err(NameRequired) <==> !several && nameless)
  {
  }

  // ----- The report -----

  /** One entry as the report shows it: a missing string reads as empty, a missing list as an empty one. */
  datatype ShownEntry =
    | ShownFile(name: string, file: string, property: string, value: string)
    | ShownPredefined(name: string, files: seq<string>)
    | ShownRegex(name: string, files: seq<string>, regex: string)

  function ShowFiles(entries: seq<FileProperty>): seq<ShownEntry> {
    seq(|entries|, i requires 0 <= i < |entries| =>
      ShownFile(entries[i].name, StrVal(entries[i].fileType), StrVal(entries[i].fileProperty),
                StrVal(entries[i].propertyValue)))
  }

  function ShowPredefined(entries: seq<PredefinedPattern>): seq<ShownEntry> {
    seq(|entries|, i requires 0 <= i < |entries| => ShownPredefined(entries[i].name, entries[i].fileType.GetOr([])))
  }

  function ShowRegexes(entries: seq<RegexPattern>): seq<ShownEntry> {
    seq(|entries|, i requires 0 <= i < |entries| =>
      ShownRegex(entries[i].name, entries[i].fileType.GetOr([]), StrVal(entries[i].regex)))
  }

  /** `dataPatternTypeDetail`; a report without entries leaves them out. */
  function TypeDetail(t: Option<PatternType>): seq<ShownEntry> {
    if t.None? then []
    else if t.value.fileProperties.Some? then ShowFiles(t.value.fileProperties.value.patterns.GetOr([]))
    else if t.value.predefined.Some? then ShowPredefined(t.value.predefined.value.patterns.GetOr([]))
    else if t.value.regex.Some? then ShowRegexes(t.value.regex.value.patterns.GetOr([]))
    else []
  }

  /** What is shown of an entry: every field of it, under its own name. */
  lemma ShowsEveryField(
      files: seq<FileProperty>, predefined: seq<PredefinedPattern>, regexes: seq<RegexPattern>, n: nat)
    ensures |ShowFiles(files)| == |files| && |ShowPredefined(predefined)| == |predefined|
    ensures |ShowRegexes(regexes)| == |regexes|
    ensures n < |files| ==>
              var e := ShowFiles(files)[n];
              && e.ShownFile? && e.name == files[n].name && e.file == files[n].fileType.GetOr("")
              && e.property == files[n].fileProperty.GetOr("") && e.value == files[n].propertyValue.GetOr("")
    ensures n < |predefined| ==>
              var e := ShowPredefined(predefined)[n];
              e.ShownPredefined? && e.name == predefined[n].name && e.files == predefined[n].fileType.GetOr([])
    ensures n < |regexes| ==>
              var e := ShowRegexes(regexes)[n];
              && e.ShownRegex? && e.name == regexes[n].name && e.files == regexes[n].fileType.GetOr([])
              && e.regex == regexes[n].regex.GetOr("")
  {
  }

  // ----- The one-of law -----

  datatype Key = Entries | Unmodeled

  datatype Val = FileEntries(f: seq<FileProperty>) | PredefinedEntries(p: seq<PredefinedPattern>)
               | RegexEntries(r: seq<RegexPattern>) | Xml(text: string)

  function FieldIn<P>(b: Option<Branch<P>>, wrap: seq<P> -> Val, f: Key): Option<Val> {
    if b.None? then None
    else if f == Entries then (if b.value.patterns.Some? then Some(wrap(b.value.patterns.value)) else None)
    else if b.value.unmodeled.Some? then Some(Xml(b.value.unmodeled.value)) else None
  }

  function Given<P>(chosen: Option<Option<seq<P>>>, wrap: seq<P> -> Val, f: Key): Option<Val> {
    if f == Entries && chosen.GetOr(None).Some? then Some(wrap(chosen.value.value)) else None
  }

  predicate Present(t: PatternType, k: Kind) {
    match k
    case FileProperties => t.fileProperties.Some?
    case Predefined => t.predefined.Some?
    case Regex => t.regex.Some?
  }

  function FieldOf(t: PatternType, k: Kind, f: Key): Option<Val> {
    match k
    case FileProperties => FieldIn(t.fileProperties, x => FileEntries(x), f)
    case Predefined => FieldIn(t.predefined, x => PredefinedEntries(x), f)
    case Regex => FieldIn(t.regex, x => RegexEntries(x), f)
  }

  function GivenFor(i: PatternInput, k: Kind, f: Key): Option<Val> {
    match k
    case FileProperties => Given(i.fileProperties, x => FileEntries(x), f)
    case Predefined => Given(i.predefined, x => PredefinedEntries(x), f)
    case Regex => Given(i.regex, x => RegexEntries(x), f)
  }

  function Fields(t: PatternType, k: Kind): (fields: map<Key, Val>)
    ensures forall f :: Get(fields, f) == FieldOf(t, k, f)
  {
    map f: Key | FieldOf(t, k, f).Some? :: FieldOf(t, k, f).value
  }

  function Provided(i: PatternInput, k: Kind): (fields: map<Key, Val>)
    ensures forall f :: Get(fields, f) == GivenFor(i, k, f)
  {
    map f: Key | GivenFor(i, k, f).Some? :: GivenFor(i, k, f).value
  }

  function Branches(t: PatternType): (b: map<Kind, map<Key, Val>>)
    ensures forall k :: Get(b, k) == if Present(t, k) then Some(Fields(t, k)) else None
  {
    map k: Kind | Present(t, k) :: Fields(t, k)
  }

  function Selected(i: PatternInput): Kind
    requires CountSet(i) == 1
  {
    if i.fileProperties.Some? then FileProperties else if i.predefined.Some? then Predefined else Regex
  }

  function EditOf(i: PatternInput): Edit<Kind, Key, Val> {
    if CountSet(i) != 1 then Keep else Choose(Selected(i), Provided(i, Selected(i)))
  }

  lemma ChosenField(t: PatternType, i: PatternInput, f: Key)
    requires OverlayType(t, i).Ok? && CountSet(i) == 1
    ensures var k := Selected(i);
            FieldOf(OverlayType(t, i).value, k, f)
            == if GivenFor(i, k, f).Some? then GivenFor(i, k, f) else FieldOf(t, k, f)
  {
  }

  lemma AbsentHasNoFields(t: PatternType, k: Kind)
    requires !Present(t, k)
    ensures Fields(t, k) == map[]
  {
    SameFields(Fields(t, k), map[]);
  }

  /** A successful overlay is one edit of the one-of. */
  lemma OverlayIsStep(t: PatternType, i: PatternInput)
    requires OverlayType(t, i).Ok?
    ensures Branches(OverlayType(t, i).value) == Step(Branches(t), EditOf(i))
  {
    if CountSet(i) == 1 {
      var t', k := OverlayType(t, i).value, Selected(i);
      var stored := Stored(Branches(t), k);
      assert Get(Branches(t), k) == if Present(t, k) then Some(Fields(t, k)) else None;
      assert stored == Fields(t, k) by {
        if !Present(t, k) {
          AbsentHasNoFields(t, k);
        }
      }
      forall f ensures Get(Fields(t', k), f) == Get(stored + Provided(i, k), f) {
        ChosenField(t, i, f);
        assert Get(Provided(i, k), f) == GivenFor(i, k, f) && Get(Fields(t, k), f) == FieldOf(t, k, f);
      }
      SameFields(Fields(t', k), stored + Provided(i, k));
      SameFields(Branches(t'), Select(Branches(t), k, Provided(i, k)));
    }
  }

  function RunType(t: PatternType, inputs: seq<PatternInput>): Option<PatternType> {
    if inputs == [] then Some(t)
    else
      var before := RunType(t, inputs[..|inputs| - 1]);
      if before.None? then None
      else
        var r := OverlayType(before.value, inputs[|inputs| - 1]);
        if r.Err? then None else Some(r.value)
  }

  function EditsOf(inputs: seq<PatternInput>): (edits: seq<Edit<Kind, Key, Val>>)
    ensures |edits| == |inputs|
  {
    if inputs == [] then [] else EditsOf(inputs[..|inputs| - 1]) + [EditOf(inputs[|inputs| - 1])]
  }

  lemma EditsPush(inputs: seq<PatternInput>)
    requires inputs != []
    ensures var m := |inputs| - 1;
            EditsOf(inputs)[..m] == EditsOf(inputs[..m]) && EditsOf(inputs)[m] == EditOf(inputs[m])
  {
  }

  /** Every run of accepted creates and updates: at most one branch, the last chosen, with the law's contents. */
  lemma {:induction false} TypeHistory(t: PatternType, inputs: seq<PatternInput>)
    requires AtMostOne(Branches(t)) && RunType(t, inputs).Some?
    ensures var after := RunType(t, inputs).value;
            && Branches(after) == Run(Branches(t), EditsOf(inputs))
            && AtMostOne(Branches(after)) && after.unmodeled == t.unmodeled
            && (LastChoice(EditsOf(inputs)).Some? ==> Branches(after).Keys == {LastChoice(EditsOf(inputs)).value})
  {
    if inputs != [] {
      var front, last := inputs[..|inputs| - 1], inputs[|inputs| - 1];
      TypeHistory(t, front);
      OverlayIsStep(RunType(t, front).value, last);
      EditsPush(inputs);
    }
    RunKeepsOne(Branches(t), EditsOf(inputs));
  }

  function KindName(k: Kind): string {
    match k
    case FileProperties => "file-properties"
    case Predefined => "predefined"
    case Regex => "regex"
  }

  /** A stored list of entries as shown. */
  function Show(v: Option<Val>): seq<ShownEntry> {
    match v
    case Some(FileEntries(f)) => ShowFiles(f)
    case Some(PredefinedEntries(p)) => ShowPredefined(p)
    case Some(RegexEntries(r)) => ShowRegexes(r)
    case _ => []
  }

  /** The order in which a report looks for a branch. */
  function Rank(k: Kind): nat {
    match k
    case FileProperties => 0
    case Predefined => 1
    case Regex => 2
  }

  /** The branch a report is about. */
  ghost predicate Active(t: PatternType, k: Kind) {
    Present(t, k) && forall j :: Present(t, j) ==> Rank(k) <= Rank(j)
  }

  /** Also when another tool left several branches, the type named and the entries shown are of the same one. */
  lemma ReportsOneBranch(t: PatternType, k: Kind)
    requires Active(t, k)
    ensures TypeString(Some(t)) == KindName(k) && TypeDetail(Some(t)) == Show(FieldOf(t, k, Entries))
  {
    assert Present(t, FileProperties) ==> Rank(k) <= 0;
    assert Present(t, Predefined) ==> Rank(k) <= 1;
    assert Present(t, Regex) ==> Rank(k) <= 2;
    assert ShowFiles([]) == [] && ShowPredefined([]) == [] && ShowRegexes([]) == [];
  }

  lemma ReportsNothing(t: Option<PatternType>)
    requires t.Some? ==> forall k :: !Present(t.value, k)
    ensures TypeString(t) == "" && TypeDetail(t) == []
  {
    if t.Some? {
      assert !Present(t.value, FileProperties) && !Present(t.value, Predefined) && !Present(t.value, Regex);
    }
  }

  lemma OnlyBranch(t: PatternType, k: Kind)
    requires Branches(t).Keys == {k}
    ensures forall j :: Present(t, j) <==> j == k
  {
    forall j ensures Present(t, j) <==> j == k {
      assert Get(Branches(t), j) == if Present(t, j) then Some(Fields(t, j)) else None;
      assert j in Branches(t) <==> j in Branches(t).Keys;
    }
  }

  lemma NoBranch()
    ensures Branches(NO_TYPE) == map[] && AtMostOne(Branches(NO_TYPE))
  {
    forall k ensures k !in Branches(NO_TYPE) {
      assert Get(Branches(NO_TYPE), k) == None;
    }
  }

  /**
   * After any run of accepted inputs on a new pattern, the report names the branch last chosen and shows the entries
   * last supplied for it since it was last switched to: a branch sent without entries keeps those it had.
   */
  lemma ReportHistory(inputs: seq<PatternInput>)
    requires RunType(NO_TYPE, inputs).Some? && LastChoice(EditsOf(inputs)).Some?
    ensures var t, edits := RunType(NO_TYPE, inputs).value, EditsOf(inputs);
            var k := LastChoice(edits).value;
            && TypeString(Some(t)) == KindName(k)
            && TypeDetail(Some(t)) == Show(LastSupplied(edits, AfterLastOther(edits, k), Entries))
  {
    var t, edits := RunType(NO_TYPE, inputs).value, EditsOf(inputs);
    var k := LastChoice(edits).value;
    NoBranch();
    TypeHistory(NO_TYPE, inputs);
    OnlyBranch(t, k);
    ReportsOneBranch(t, k);
    RunHistory(Branches(NO_TYPE), edits, k, Entries);
    assert Get(Branches(t), k) == Some(Fields(t, k));
    assert Get(Fields(t, k), Entries) == FieldOf(t, k, Entries);
    assert Get(Stored(Branches(NO_TYPE), k), Entries) == None;
  }

  lemma ChosenPresent(t: PatternType, i: PatternInput, j: Kind)
    requires OverlayType(t, i).Ok? && CountSet(i) == 1
    ensures Present(OverlayType(t, i).value, j) <==> j == Selected(i)
  {
  }

  /** A selecting update reads back over whatever was stored: its branch, with its entries or the old ones. */
  lemma SelectionReadsBack(t: PatternType, i: PatternInput)
    requires OverlayType(t, i).Ok? && CountSet(i) == 1
    ensures var t', k := OverlayType(t, i).value, Selected(i);
            && TypeString(Some(t')) == KindName(k)
            && TypeDetail(Some(t'))
               == Show(if GivenFor(i, k, Entries).Some? then GivenFor(i, k, Entries) else FieldOf(t, k, Entries))
  {
    forall j ensures Present(OverlayType(t, i).value, j) <==> j == Selected(i) {
      ChosenPresent(t, i, j);
    }
    ReportsOneBranch(OverlayType(t, i).value, Selected(i));
    ChosenField(t, i, Entries);
  }
}
