/** The role of an administrator: exactly one of eight branches, chosen by name or by a custom role profile. */
module AdminRole {
  import opened Wrappers
  import opened FieldValues
  import opened OneOf

  datatype Kind =
    | Superuser | Superreader | PanoramaAdmin | DeviceAdmin | DeviceReader | VsysAdmin | VsysReader | CustomRole

  datatype Key = Mark | Members | Profile | Vsys | Unmodeled

  /** The custom branch. */
  datatype Custom = Custom(profile: Option<string>, vsys: Option<seq<string>>, unmodeled: Option<string>)

  /** Three flags, four lists that are absent when empty, and the custom branch. */
  datatype RoleBased = RoleBased(
    superuser: Option<string>, superreader: Option<string>, panoramaAdmin: Option<string>,
    deviceAdmin: seq<string>, deviceReader: seq<string>, vsysAdmin: seq<string>, vsysReader: seq<string>,
    custom: Option<Custom>, unmodeled: Option<string>)

  const NO_ROLE := RoleBased(None, None, None, [], [], [], [], None, None)

  const NEW_CUSTOM := Custom(None, None, None)

  datatype RoleInput = RoleInput(role: Option<string>, profile: Option<string>, vsys: Option<seq<string>>)

  datatype RoleError = BothKinds | UnknownRole | ProfileRequired

  /** The built-in roles accepted as input. */
  function Builtin(role: string): Option<Kind> {
    if role == "superuser" then Some(Superuser)
    else if role == "superreader" then Some(Superreader)
    else if role == "panorama-admin" then Some(PanoramaAdmin)
    else if role == "deviceadmin" then Some(DeviceAdmin)
    else if role == "devicereader" then Some(DeviceReader)
    else None
  }

  predicate WantsCustom(i: RoleInput) {
    i.profile.Some? || i.vsys.Some?
  }

  /** The input asks for a role change, by presence of a field. */
  predicate Requests(i: RoleInput) {
    i.role.Some? || WantsCustom(i)
  }

  /** `administratorRoleRequest`: whether the custom branch is meant, and whether any change is asked for. */
  function RoleRequest(i: RoleInput): Result<(bool, bool), RoleError> {
    if i.role.None? && !WantsCustom(i) then Ok((false, false))
    else if i.role.Some? && WantsCustom(i) then Err(BothKinds)
    else if i.role.Some? && Builtin(i.role.value).None? then Err(UnknownRole)
    else Ok((WantsCustom(i), true))
  }

  /** The profile a custom role would end up with. */
  function EffectiveProfile(rb: RoleBased, i: RoleInput): string {
    if i.profile.Some? then i.profile.value else if rb.custom.Some? then StrVal(rb.custom.value.profile) else ""
  }

  function Cleared(rb: RoleBased): RoleBased {
    NO_ROLE.(unmodeled := rb.unmodeled)
  }

  function WithBuiltin(rb: RoleBased, k: Kind): RoleBased {
    match k
    case Superuser => rb.(superuser := Some("yes"))
    case Superreader => rb.(superreader := Some("yes"))
    case PanoramaAdmin => rb.(panoramaAdmin := Some("yes"))
    case DeviceAdmin => rb.(deviceAdmin := ["yes"])
    case DeviceReader => rb.(deviceReader := ["yes"])
    case _ => rb
  }

  function OverlayRole(rb: RoleBased, i: RoleInput): Result<RoleBased, RoleError> {
    var request := RoleRequest(i);
    if request.Err? then Err(request.error)
    else if !request.value.1 then Ok(rb)
    else if request.value.0 then
      if EffectiveProfile(rb, i) == "" then Err(ProfileRequired)
      else
        var stored := rb.custom.GetOr(NEW_CUSTOM);
        Ok(Cleared(rb).(custom := Some(stored.(profile := SetPtr(stored.profile, i.profile),
                                               vsys := SetPtr(stored.vsys, i.vsys)))))
    else Ok(WithBuiltin(Cleared(rb), Builtin(i.role.value).value))
  }

  // ----- In place -----

  class RoleNode {
    var superuser: Option<string>
    var superreader: Option<string>
    var panoramaAdmin: Option<string>
    var deviceAdmin: seq<string>
    var deviceReader: seq<string>
    var vsysAdmin: seq<string>
    var vsysReader: seq<string>
    var custom: Option<Custom>
    var unmodeled: Option<string>

    constructor ()
      ensures View() == NO_ROLE
    {
      superuser, superreader, panoramaAdmin := None, None, None;
      deviceAdmin, deviceReader, vsysAdmin, vsysReader := [], [], [], [];
      custom, unmodeled := None, None;
    }

    function View(): RoleBased
      reads this
    {
      RoleBased(superuser, superreader, panoramaAdmin, deviceAdmin, deviceReader, vsysAdmin, vsysReader,
                custom, unmodeled)
    }

    /** `clearRoleBased`. */
    method Clear()
      modifies this
      ensures View() == Cleared(old(View()))
    {
      superuser, superreader, panoramaAdmin := None, None, None;
      deviceAdmin, deviceReader, vsysAdmin, vsysReader := [], [], [], [];
      custom := None;
    }

    /** `setBuiltinRole`. */
    method SetBuiltin(role: string)
      requires Builtin(role).Some?
      modifies this
      ensures View() == WithBuiltin(old(View()), Builtin(role).value)
    {
      if role == "superuser" {
        superuser := Some("yes");
      } else if role == "superreader" {
        superreader := Some("yes");
      } else if role == "panorama-admin" {
        panoramaAdmin := Some("yes");
      } else if role == "deviceadmin" {
        deviceAdmin := ["yes"];
      } else {
        deviceReader := ["yes"];
      }
    }
  }

  /**
   * What a request makes of an entry, whose role container may be missing. A custom request without a profile is
   * refused only after the container has been made, and the other refusals before.
   */
  function Applied(stored: Option<RoleBased>, i: RoleInput): (Outcome<RoleError>, Option<RoleBased>) {
    match OverlayRole(stored.GetOr(NO_ROLE), i)
    case Ok(rb) => (Pass, if Requests(i) then Some(rb) else stored)
    case Err(e) => (Fail(e), if e == ProfileRequired then Some(stored.GetOr(NO_ROLE)) else stored)
  }

  class Administrator {
    var node: RoleNode?

    constructor ()
      ensures View() == None
    {
      node := null;
    }

    function View(): Option<RoleBased>
      reads this, node
    {
      if node == null then None else Some(node.View())
    }

    /** `applyAdministratorRole`, refusals included. */
    method ApplyRole(i: RoleInput) returns (err: Outcome<RoleError>)
      modifies this, node
      ensures (err, View()) == Applied(old(View()), i)
    {
      var request := RoleRequest(i);
      if request.Err? {
        return Fail(request.error);
      }
      if !request.value.1 {
        return Pass;
      }
      if node == null {
        node := new RoleNode();
      }
      var stored := node.custom;
      var profile := StrVal(i.profile);
      if i.profile.None? && stored.Some? {
        profile := StrVal(stored.value.profile);
      }
      if request.value.0 && profile == "" {
        return Fail(ProfileRequired);
      }
      node.Clear();
      if request.value.0 {
        var branch := stored.GetOr(NEW_CUSTOM);
        node.custom := Some(branch.(profile := SetPtr(branch.profile, i.profile), vsys := SetPtr(branch.vsys, i.vsys)));
      } else {
        node.SetBuiltin(i.role.value);
      }
      err := Pass;
    }
  }

  /**
   * A refused request leaves the entry untouched, except exactly when it asks for a custom role only, without a profile
   * and on an entry that has no role container: then an empty container is left behind.
   */
  lemma RefusalTouchesEntry(stored: Option<RoleBased>, i: RoleInput)
    requires Applied(stored, i).0.Fail?
    ensures Applied(stored, i).1 != stored
            <==> i.role.None? && WantsCustom(i) && StrVal(i.profile) == "" && stored.None?
    ensures Applied(stored, i).1 != stored ==> Applied(stored, i).1 == Some(NO_ROLE)
  {
    assert stored.Some? ==> Some(stored.GetOr(NO_ROLE)) == stored;
  }

  /** One such request, run on an entry without a role. */
  method RefusedOnNewEntry() returns (before: Option<RoleBased>, err: Outcome<RoleError>, after: Option<RoleBased>)
    ensures before == None && err == Fail(ProfileRequired) && after == Some(NO_ROLE)
  {
    var e := new Administrator();
    before := e.View();
    err := e.ApplyRole(RoleInput(None, Some(""), None));
    after := e.View();
  }

  /** `administratorRole`. */
  function RoleString(rb: Option<RoleBased>): string {
    if rb.None? then ""
    else if rb.value.superuser.Some? then "superuser"
    else if rb.value.superreader.Some? then "superreader"
    else if rb.value.panoramaAdmin.Some? then "panorama-admin"
    else if rb.value.deviceAdmin != [] then "deviceadmin"
    else if rb.value.deviceReader != [] then "devicereader"
    else if rb.value.vsysAdmin != [] then "vsysadmin"
    else if rb.value.vsysReader != [] then "vsysreader"
    else ""
  }

  // ----- The one-of law -----

  function CustomField(c: Custom, f: Key): Option<Val> {
    match f
    case Profile => Texted(c.profile)
    case Vsys => Listed(c.vsys)
    case Unmodeled => Texted(c.unmodeled)
    case _ => None
  }

  function FlagField(flag: Option<string>, f: Key): Option<Val> {
    if f == Mark then Texted(flag) else None
  }

  function ListField(items: seq<string>, f: Key): Option<Val> {
    if f == Members && items != [] then Some(List(items)) else None
  }

  predicate Present(rb: RoleBased, k: Kind) {
    match k
    case Superuser => rb.superuser.Some?
    case Superreader => rb.superreader.Some?
    case PanoramaAdmin => rb.panoramaAdmin.Some?
    case DeviceAdmin => rb.deviceAdmin != []
    case DeviceReader => rb.deviceReader != []
    case VsysAdmin => rb.vsysAdmin != []
    case VsysReader => rb.vsysReader != []
    case CustomRole => rb.custom.Some?
  }

  function FieldOf(rb: RoleBased, k: Kind, f: Key): Option<Val> {
    match k
    case Superuser => FlagField(rb.superuser, f)
    case Superreader => FlagField(rb.superreader, f)
    case PanoramaAdmin => FlagField(rb.panoramaAdmin, f)
    case DeviceAdmin => ListField(rb.deviceAdmin, f)
    case DeviceReader => ListField(rb.deviceReader, f)
    case VsysAdmin => ListField(rb.vsysAdmin, f)
    case VsysReader => ListField(rb.vsysReader, f)
    case CustomRole => CustomField(rb.custom.GetOr(NEW_CUSTOM), f)
  }

  /** What an input supplies for the branch it chooses. */
  function Given(i: RoleInput, k: Kind, f: Key): Option<Val> {
    match k
    case Superuser => FlagField(Some("yes"), f)
    case Superreader => FlagField(Some("yes"), f)
    case PanoramaAdmin => FlagField(Some("yes"), f)
    case DeviceAdmin => ListField(["yes"], f)
    case DeviceReader => ListField(["yes"], f)
    case CustomRole => CustomField(Custom(i.profile, i.vsys, None), f)
    case _ => None
  }

  function Fields(rb: RoleBased, k: Kind): (fields: map<Key, Val>)
    ensures forall f :: Get(fields, f) == FieldOf(rb, k, f)
  {
    map f: Key | FieldOf(rb, k, f).Some? :: FieldOf(rb, k, f).value
  }

  function Provided(i: RoleInput, k: Kind): (fields: map<Key, Val>)
    ensures forall f :: Get(fields, f) == Given(i, k, f)
  {
    map f: Key | Given(i, k, f).Some? :: Given(i, k, f).value
  }

  function Branches(rb: RoleBased): (b: map<Kind, map<Key, Val>>)
    ensures forall k :: Get(b, k) == if Present(rb, k) then Some(Fields(rb, k)) else None
  {
    map k: Kind | Present(rb, k) :: Fields(rb, k)
  }

  /** The branch an accepted request chooses. */
  function Selected(i: RoleInput): Kind
    requires Requests(i) && RoleRequest(i).Ok?
  {
    if WantsCustom(i) then CustomRole else Builtin(i.role.value).value
  }

  function EditOf(i: RoleInput): Edit<Kind, Key, Val>
    requires RoleRequest(i).Ok?
  {
    if Requests(i) then Choose(Selected(i), Provided(i, Selected(i))) else Keep
  }

  lemma ChosenField(rb: RoleBased, i: RoleInput, f: Key)
    requires OverlayRole(rb, i).Ok? && Requests(i)
    ensures var k := Selected(i);
            FieldOf(OverlayRole(rb, i).value, k, f)
            == if Given(i, k, f).Some? then Given(i, k, f) else FieldOf(rb, k, f)
  {
  }

  lemma ChosenPresent(rb: RoleBased, i: RoleInput, k: Kind)
    requires OverlayRole(rb, i).Ok? && Requests(i)
    ensures Present(OverlayRole(rb, i).value, k) <==> k == Selected(i)
  {
  }

  lemma AbsentHasNoFields(rb: RoleBased, k: Kind)
    requires !Present(rb, k)
    ensures Fields(rb, k) == map[]
  {
    SameFields(Fields(rb, k), map[]);
  }

  /** A successful request is one edit of the one-of. */
  lemma OverlayIsStep(rb: RoleBased, i: RoleInput)
    requires OverlayRole(rb, i).Ok?
    ensures Branches(OverlayRole(rb, i).value) == Step(Branches(rb), EditOf(i))
  {
    if Requests(i) {
      var rb', k := OverlayRole(rb, i).value, Selected(i);
      var stored := Stored(Branches(rb), k);
      assert Get(Branches(rb), k) == if Present(rb, k) then Some(Fields(rb, k)) else None;
      assert stored == Fields(rb, k) by {
        if !Present(rb, k) {
          AbsentHasNoFields(rb, k);
        }
      }
      forall f ensures Get(Fields(rb', k), f) == Get(stored + Provided(i, k), f) {
        ChosenField(rb, i, f);
        assert Get(Provided(i, k), f) == Given(i, k, f) && Get(Fields(rb, k), f) == FieldOf(rb, k, f);
      }
      SameFields(Fields(rb', k), stored + Provided(i, k));
      forall j ensures Get(Branches(rb'), j) == Get(Select(Branches(rb), k, Provided(i, k)), j) {
        ChosenPresent(rb, i, j);
      }
      SameFields(Branches(rb'), Select(Branches(rb), k, Provided(i, k)));
    }
  }

  function RunRole(rb: RoleBased, inputs: seq<RoleInput>): (r: Option<RoleBased>)
    ensures r.Some? ==> forall n :: 0 <= n < |inputs| ==> RoleRequest(inputs[n]).Ok?
  {
    if inputs == [] then Some(rb)
    else
      var before := RunRole(rb, inputs[..|inputs| - 1]);
      if before.None? then None
      else
        var r := OverlayRole(before.value, inputs[|inputs| - 1]);
        if r.Err? then None else Some(r.value)
  }

  function EditsOf(inputs: seq<RoleInput>): (edits: seq<Edit<Kind, Key, Val>>)
    requires forall n :: 0 <= n < |inputs| ==> RoleRequest(inputs[n]).Ok?
    ensures |edits| == |inputs| && forall n :: 0 <= n < |inputs| ==> edits[n] == EditOf(inputs[n])
  {
    seq(|inputs|, n requires 0 <= n < |inputs| && RoleRequest(inputs[n]).Ok? => EditOf(inputs[n]))
  }

  /** The custom role, if there is one, names a profile. */
  predicate NamesProfile(rb: RoleBased) {
    rb.custom.Some? ==> StrVal(rb.custom.value.profile) != ""
  }

  lemma OverlayKeeps(rb: RoleBased, i: RoleInput)
    requires OverlayRole(rb, i).Ok?
    ensures NamesProfile(rb) || Requests(i) ==> NamesProfile(OverlayRole(rb, i).value)
    ensures OverlayRole(rb, i).value.unmodeled == rb.unmodeled
  {
  }

  lemma EditsPush(inputs: seq<RoleInput>)
    requires inputs != [] && forall n :: 0 <= n < |inputs| ==> RoleRequest(inputs[n]).Ok?
    ensures var m := |inputs| - 1;
            EditsOf(inputs)[..m] == EditsOf(inputs[..m]) && EditsOf(inputs)[m] == EditOf(inputs[m])
  {
  }

  /**
   * Every run of accepted creates and updates: at most one branch, the last one requested, with what the law says in
   * it; and once a role was requested, never a custom role without a profile, even if another tool had stored one.
   */
  lemma {:induction false} RoleHistory(rb: RoleBased, inputs: seq<RoleInput>)
    requires AtMostOne(Branches(rb)) && RunRole(rb, inputs).Some?
    ensures var after := RunRole(rb, inputs).value;
            && Branches(after) == Run(Branches(rb), EditsOf(inputs))
            && AtMostOne(Branches(after)) && after.unmodeled == rb.unmodeled
            && (NamesProfile(rb) || LastChoice(EditsOf(inputs)).Some? ==> NamesProfile(after))
            && (LastChoice(EditsOf(inputs)).Some? ==> Branches(after).Keys == {LastChoice(EditsOf(inputs)).value})
  {
    if inputs != [] {
      var front, last := inputs[..|inputs| - 1], inputs[|inputs| - 1];
      RoleHistory(rb, front);
      OverlayIsStep(RunRole(rb, front).value, last);
      OverlayKeeps(RunRole(rb, front).value, last);
      EditsPush(inputs);
    }
    RunKeepsOne(Branches(rb), EditsOf(inputs));
  }

  /** What a built-in role stores, by its name. */
  lemma BuiltinStored(rb: RoleBased, i: RoleInput)
    requires i.role.Some? && OverlayRole(rb, i).Ok?
    ensures var stored := OverlayRole(rb, i).value;
            var cleared := RoleBased(None, None, None, [], [], [], [], None, rb.unmodeled);
            || (i.role.value == "superuser" && stored == cleared.(superuser := Some("yes")))
            || (i.role.value == "superreader" && stored == cleared.(superreader := Some("yes")))
            || (i.role.value == "panorama-admin" && stored == cleared.(panoramaAdmin := Some("yes")))
            || (i.role.value == "deviceadmin" && stored == cleared.(deviceAdmin := ["yes"]))
            || (i.role.value == "devicereader" && stored == cleared.(deviceReader := ["yes"]))
  {
  }

  /** Exactly which requests are accepted. */
  lemma AcceptedRequests(rb: RoleBased, i: RoleInput)
    ensures OverlayRole(rb, i).Ok? <==>
              || !Requests(i)
              || (i.role.Some? && i.profile.None? && i.vsys.None?
                  && i.role.value in {"superuser", "superreader", "panorama-admin", "deviceadmin", "devicereader"})
              || (i.role.None? && (if i.profile.Some? then i.profile.value != ""
                                   else rb.custom.Some? && StrVal(rb.custom.value.profile) != ""))
    ensures OverlayRole(rb, i).Err? ==>
              OverlayRole(rb, i).error == if i.role.None? then ProfileRequired
                                          else if i.profile.Some? || i.vsys.Some? then BothKinds else UnknownRole
  {
  }

  function KindName(k: Kind): string {
    match k
    case Superuser => "superuser"
    case Superreader => "superreader"
    case PanoramaAdmin => "panorama-admin"
    case DeviceAdmin => "deviceadmin"
    case DeviceReader => "devicereader"
    case VsysAdmin => "vsysadmin"
    case VsysReader => "vsysreader"
    case CustomRole => ""
  }

  /** The order in which a summary looks for a built-in role. */
  function Rank(k: Kind): nat {
    match k
    case Superuser => 0
    case Superreader => 1
    case PanoramaAdmin => 2
    case DeviceAdmin => 3
    case DeviceReader => 4
    case VsysAdmin => 5
    case VsysReader => 6
    case CustomRole => 7
  }

  /** The branch the role of a summary is about. */
  ghost predicate Active(rb: RoleBased, k: Kind) {
    Present(rb, k) && forall j :: Present(rb, j) ==> Rank(k) <= Rank(j)
  }

  /** Also when another tool left several branches, the role named is that of the first one present. */
  lemma NamesFirstRole(rb: RoleBased, k: Kind)
    requires Active(rb, k)
    ensures RoleString(Some(rb)) == KindName(k)
  {
    assert Present(rb, Superuser) ==> Rank(k) <= 0;
    assert Present(rb, Superreader) ==> Rank(k) <= 1;
    assert Present(rb, PanoramaAdmin) ==> Rank(k) <= 2;
    assert Present(rb, DeviceAdmin) ==> Rank(k) <= 3;
    assert Present(rb, DeviceReader) ==> Rank(k) <= 4;
    assert Present(rb, VsysAdmin) ==> Rank(k) <= 5;
    assert Present(rb, VsysReader) ==> Rank(k) <= 6;
  }

  lemma NamesNoRole(rb: Option<RoleBased>)
    requires rb.Some? ==> forall k :: !Present(rb.value, k)
    ensures RoleString(rb) == "" && Summarize(rb) == RoleSummary(None, None, None)
  {
    if rb.Some? {
      assert !Present(rb.value, Superuser) && !Present(rb.value, Superreader) && !Present(rb.value, PanoramaAdmin);
      assert !Present(rb.value, DeviceAdmin) && !Present(rb.value, DeviceReader) && !Present(rb.value, VsysAdmin);
      assert !Present(rb.value, VsysReader) && !Present(rb.value, CustomRole);
    }
  }

  /** The role part of the summary; a key left out is None, and a missing list reads as empty. */
  datatype RoleSummary = RoleSummary(role: Option<string>, profile: Option<string>, vsys: Option<seq<string>>)

  /** `administratorSummary`, as far as the role goes. */
  function Summarize(stored: Option<RoleBased>): RoleSummary {
    var role := RoleString(stored);
    var custom := if stored.Some? then stored.value.custom else None;
    RoleSummary(
      if role != "" then Some(role) else None,
      if custom.Some? then Some(StrVal(custom.value.profile)) else None,
      if custom.Some? then Some(custom.value.vsys.GetOr([])) else None)
  }

  /** The value supplied for a field of the custom branch in the last run of requests for it. */
  function LastText(inputs: seq<RoleInput>, f: Key): Option<Val>
    requires forall n :: 0 <= n < |inputs| ==> RoleRequest(inputs[n]).Ok?
  {
    LastSupplied(EditsOf(inputs), AfterLastOther(EditsOf(inputs), CustomRole), f)
  }

  /**
   * After any run of accepted requests on an entry without a role, the summary names the built-in role last asked for,
   * or the profile and vsys list last supplied since the custom role was last switched to; and no profile is empty.
   */
  lemma SummaryHistory(inputs: seq<RoleInput>)
    requires RunRole(NO_ROLE, inputs).Some?
    ensures var s, last := Summarize(RunRole(NO_ROLE, inputs)), LastChoice(EditsOf(inputs));
            && (last.None? ==> s == RoleSummary(None, None, None))
            && (last.Some? && last.value != CustomRole ==>
                  s == RoleSummary(Some(KindName(last.value)), None, None) && Builtin(s.role.value) == last)
            && (last == Some(CustomRole) ==>
                  && s.role.None? && s.profile.Some? && s.profile.value != ""
                  && LastText(inputs, Profile) == Some(Text(s.profile.value))
                  && s.vsys == Some(match LastText(inputs, Vsys) case Some(List(items)) => items case _ => []))
  {
    var rb, edits := RunRole(NO_ROLE, inputs).value, EditsOf(inputs);
    NoBranch();
    RoleHistory(NO_ROLE, inputs);
    if LastChoice(edits).Some? {
      var k := LastChoice(edits).value;
      OnlyBranch(rb, k);
      LastIsSettable(inputs);
      OneRoleSummary(rb, k);
      if k == CustomRole {
        CustomHistory(inputs, Profile);
        CustomHistory(inputs, Vsys);
      }
    } else {
      RunKeepsOne(Branches(NO_ROLE), edits);
      NoRoleSummary(rb);
    }
  }

  lemma NoBranch()
    ensures Branches(NO_ROLE) == map[] && AtMostOne(Branches(NO_ROLE))
  {
    forall k ensures k !in Branches(NO_ROLE) {
      assert Get(Branches(NO_ROLE), k) == None;
    }
  }

  /** What the summary shows of a document without a branch. */
  lemma NoRoleSummary(rb: RoleBased)
    requires Branches(rb) == map[]
    ensures Summarize(Some(rb)) == RoleSummary(None, None, None)
  {
    forall k ensures !Present(rb, k) {
      assert Get(Branches(rb), k) == None;
    }
    NamesNoRole(Some(rb));
  }

  /** With one branch in the map, that one is present in the document and no other is. */
  lemma OnlyBranch(rb: RoleBased, k: Kind)
    requires Branches(rb).Keys == {k}
    ensures forall j :: Present(rb, j) <==> j == k
  {
    forall j ensures Present(rb, j) <==> j == k {
      assert Get(Branches(rb), j) == if Present(rb, j) then Some(Fields(rb, j)) else None;
      assert j in Branches(rb) <==> j in Branches(rb).Keys;
    }
  }

  /** What the summary shows of a document with one branch. */
  lemma OneRoleSummary(rb: RoleBased, k: Kind)
    requires forall j :: Present(rb, j) <==> j == k
    ensures var s := Summarize(Some(rb));
            if k == CustomRole then
              && rb.custom.Some?
              && s == RoleSummary(None, Some(StrVal(rb.custom.value.profile)), Some(rb.custom.value.vsys.GetOr([])))
            else
              && s == RoleSummary(Some(KindName(k)), None, None)
              && (k != VsysAdmin && k != VsysReader ==> Builtin(KindName(k)) == Some(k))
  {
    assert Present(rb, Superuser) <==> k == Superuser;
    assert Present(rb, Superreader) <==> k == Superreader;
    assert Present(rb, PanoramaAdmin) <==> k == PanoramaAdmin;
    assert Present(rb, DeviceAdmin) <==> k == DeviceAdmin;
    assert Present(rb, DeviceReader) <==> k == DeviceReader;
    assert Present(rb, VsysAdmin) <==> k == VsysAdmin;
    assert Present(rb, VsysReader) <==> k == VsysReader;
    assert Present(rb, CustomRole) <==> k == CustomRole;
  }

  /** The two per-vsys roles have no request that names them. */
  predicate Settable(e: Edit<Kind, Key, Val>) {
    e.Choose? ==> e.key != VsysAdmin && e.key != VsysReader
  }

  lemma RequestSettable(i: RoleInput)
    requires RoleRequest(i).Ok?
    ensures Settable(EditOf(i))
  {
  }

  lemma {:induction false} LastChoiceSettable(edits: seq<Edit<Kind, Key, Val>>)
    requires forall n :: 0 <= n < |edits| ==> Settable(edits[n])
    ensures LastChoice(edits).Some? ==> LastChoice(edits).value != VsysAdmin && LastChoice(edits).value != VsysReader
  {
    if edits != [] {
      assert Settable(edits[|edits| - 1]);
      LastChoiceSettable(edits[..|edits| - 1]);
    }
  }

  lemma LastIsSettable(inputs: seq<RoleInput>)
    requires forall n :: 0 <= n < |inputs| ==> RoleRequest(inputs[n]).Ok?
    ensures var last := LastChoice(EditsOf(inputs));
            last.Some? ==> last.value != VsysAdmin && last.value != VsysReader
  {
    forall n | 0 <= n < |inputs| ensures Settable(EditsOf(inputs)[n]) {
      RequestSettable(inputs[n]);
    }
    LastChoiceSettable(EditsOf(inputs));
  }

  lemma CustomHistory(inputs: seq<RoleInput>, f: Key)
    requires RunRole(NO_ROLE, inputs).Some? && RunRole(NO_ROLE, inputs).value.custom.Some?
    ensures CustomField(RunRole(NO_ROLE, inputs).value.custom.value, f) == LastText(inputs, f)
  {
    var rb, edits := RunRole(NO_ROLE, inputs).value, EditsOf(inputs);
    NoBranch();
    RoleHistory(NO_ROLE, inputs);
    assert Get(Branches(rb), CustomRole) == Some(Fields(rb, CustomRole));
    assert Get(Fields(rb, CustomRole), f) == FieldOf(rb, CustomRole, f);
    RunHistory(Branches(NO_ROLE), edits, CustomRole, f);
    assert Get(Stored(Branches(NO_ROLE), CustomRole), f) == None;
  }

  /** A request reads back, over whatever was stored: a built-in role by its name, a custom one by profile and vsys. */
  lemma RequestReadsBack(stored: Option<RoleBased>, i: RoleInput)
    requires Applied(stored, i).0.Pass? && Requests(i)
    ensures var s, was := Summarize(Applied(stored, i).1), Summarize(stored);
            s == if i.role.Some? then RoleSummary(i.role, None, None)
                 else RoleSummary(None, if i.profile.Some? then i.profile else was.profile,
                                  Some(i.vsys.GetOr(was.vsys.GetOr([]))))
  {
  }
}
