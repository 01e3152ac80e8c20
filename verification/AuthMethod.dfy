/** The authentication method of a profile: exactly one of eight branches, one of which can be kept but not chosen. */
module AuthMethod {
  import opened Wrappers
  import opened FieldValues
  import opened OneOf

  datatype Kind = Cloud | Kerberos | Ldap | LocalDatabase | NoAuth | Radius | SamlIdp | Tacplus

  /** Every field a branch can carry, and the XML this server does not model. */
  datatype Key =
    | Realm | ServerProfile | LoginAttribute | PasswdExpDays | Checkgroup
    | AccessDomain | AdminRole | Usergroup | Username | CertificateProfile | SingleLogout | SigningCertificate
    | Unmodeled

  datatype KerberosNode = KerberosNode(realm: Option<string>, serverProfile: Option<string>, unmodeled: Option<string>)

  datatype LdapNode = LdapNode(
    loginAttribute: Option<string>, passwdExpDays: Option<int>, serverProfile: Option<string>,
    unmodeled: Option<string>)

  /** A branch of which nothing is modeled: cloud, local-database and none. */
  datatype BareNode = BareNode(unmodeled: Option<string>)

  datatype ServerNode = ServerNode(checkgroup: Option<bool>, serverProfile: Option<string>, unmodeled: Option<string>)

  datatype SamlNode = SamlNode(
    accessDomain: Option<string>, adminRole: Option<string>, usergroup: Option<string>, username: Option<string>,
    certificateProfile: Option<string>, singleLogout: Option<bool>, signingCertificate: Option<string>,
    serverProfile: Option<string>, unmodeled: Option<string>)

  datatype Method = Method(
    cloud: Option<BareNode>, kerberos: Option<KerberosNode>, ldap: Option<LdapNode>, localDatabase: Option<BareNode>,
    noAuth: Option<BareNode>, radius: Option<ServerNode>, samlIdp: Option<SamlNode>, tacplus: Option<ServerNode>,
    unmodeled: Option<string>)

  const NO_METHOD := Method(None, None, None, None, None, None, None, None, None)

  /** The method_* inputs; a branch's unmodeled part is not an input and is ignored. */
  datatype MethodInput = MethodInput(
    kerberos: Option<KerberosNode>, ldap: Option<LdapNode>, localDatabase: bool, noAuth: bool,
    radius: Option<ServerNode>, samlIdp: Option<SamlNode>, tacplus: Option<ServerNode>)

  datatype MethodError = SeveralBranches

  // ----- The overlay on documents -----

  function OverKerberos(was: KerberosNode, i: KerberosNode): KerberosNode {
    was.(realm := SetPtr(was.realm, i.realm), serverProfile := SetPtr(was.serverProfile, i.serverProfile))
  }

  function OverLdap(was: LdapNode, i: LdapNode): LdapNode {
    was.(loginAttribute := SetPtr(was.loginAttribute, i.loginAttribute),
         passwdExpDays := SetPtr(was.passwdExpDays, i.passwdExpDays),
         serverProfile := SetPtr(was.serverProfile, i.serverProfile))
  }

  function OverServer(was: ServerNode, i: ServerNode): ServerNode {
    was.(checkgroup := SetPtr(was.checkgroup, i.checkgroup),
         serverProfile := SetPtr(was.serverProfile, i.serverProfile))
  }

  function OverSaml(was: SamlNode, i: SamlNode): SamlNode {
    was.(accessDomain := SetPtr(was.accessDomain, i.accessDomain), adminRole := SetPtr(was.adminRole, i.adminRole),
         usergroup := SetPtr(was.usergroup, i.usergroup), username := SetPtr(was.username, i.username),
         certificateProfile := SetPtr(was.certificateProfile, i.certificateProfile),
         singleLogout := SetPtr(was.singleLogout, i.singleLogout),
         signingCertificate := SetPtr(was.signingCertificate, i.signingCertificate),
         serverProfile := SetPtr(was.serverProfile, i.serverProfile))
  }

  const NEW_KERBEROS := KerberosNode(None, None, None)
  const NEW_LDAP := LdapNode(None, None, None, None)
  const NEW_BARE := BareNode(None)
  const NEW_SERVER := ServerNode(None, None, None)
  const NEW_SAML := SamlNode(None, None, None, None, None, None, None, None, None)

  predicate Selects(i: MethodInput, k: Kind) {
    match k
    case Cloud => false
    case Kerberos => i.kerberos.Some?
    case Ldap => i.ldap.Some?
    case LocalDatabase => i.localDatabase
    case NoAuth => i.noAuth
    case Radius => i.radius.Some?
    case SamlIdp => i.samlIdp.Some?
    case Tacplus => i.tacplus.Some?
  }

  /** How many branches an input provides. */
  function CountSet(i: MethodInput): nat {
    (if i.kerberos.Some? then 1 else 0) + (if i.ldap.Some? then 1 else 0) + (if i.localDatabase then 1 else 0)
    + (if i.noAuth then 1 else 0) + (if i.radius.Some? then 1 else 0) + (if i.samlIdp.Some? then 1 else 0)
    + (if i.tacplus.Some? then 1 else 0)
  }

  function OverlayMethod(m: Method, i: MethodInput): Result<Method, MethodError> {
    if CountSet(i) == 0 then Ok(m)
    else if CountSet(i) > 1 then Err(SeveralBranches)
    else
      Ok(NO_METHOD.(
        kerberos := if i.kerberos.Some? then Some(OverKerberos(m.kerberos.GetOr(NEW_KERBEROS), i.kerberos.value))
                    else None,
        ldap := if i.ldap.Some? then Some(OverLdap(m.ldap.GetOr(NEW_LDAP), i.ldap.value)) else None,
        localDatabase := if i.localDatabase then Some(m.localDatabase.GetOr(NEW_BARE)) else None,
        noAuth := if i.noAuth then Some(m.noAuth.GetOr(NEW_BARE)) else None,
        radius := if i.radius.Some? then Some(OverServer(m.radius.GetOr(NEW_SERVER), i.radius.value)) else None,
        samlIdp := if i.samlIdp.Some? then Some(OverSaml(m.samlIdp.GetOr(NEW_SAML), i.samlIdp.value)) else None,
        tacplus := if i.tacplus.Some? then Some(OverServer(m.tacplus.GetOr(NEW_SERVER), i.tacplus.value)) else None,
        unmodeled := m.unmodeled))
  }

  // ----- The overlay in place -----

  class MethodNode {
    var cloud: Option<BareNode>
    var kerberos: Option<KerberosNode>
    var ldap: Option<LdapNode>
    var localDatabase: Option<BareNode>
    var noAuth: Option<BareNode>
    var radius: Option<ServerNode>
    var samlIdp: Option<SamlNode>
    var tacplus: Option<ServerNode>
    var unmodeled: Option<string>

    constructor ()
      ensures View() == NO_METHOD
    {
      cloud, kerberos, ldap, localDatabase := None, None, None, None;
      noAuth, radius, samlIdp, tacplus, unmodeled := None, None, None, None, None;
    }

    function View(): Method
      reads this
    {
      Method(cloud, kerberos, ldap, localDatabase, noAuth, radius, samlIdp, tacplus, unmodeled)
    }

    /** Capture every branch, clear them all, and rebuild the chosen one from what was captured. */
    method Choose(i: MethodInput)
      requires CountSet(i) == 1
      modifies this
      ensures OverlayMethod(old(View()), i) == Ok(View())
    {
      var oldKerberos, oldLdap, oldLocalDatabase := kerberos, ldap, localDatabase;
      var oldNoAuth, oldRadius, oldSamlIdp, oldTacplus := noAuth, radius, samlIdp, tacplus;
      cloud, kerberos, ldap, localDatabase := None, None, None, None;
      noAuth, radius, samlIdp, tacplus := None, None, None, None;
      if i.kerberos.Some? {
        kerberos := Some(OverKerberos(oldKerberos.GetOr(NEW_KERBEROS), i.kerberos.value));
      } else if i.ldap.Some? {
        ldap := Some(OverLdap(oldLdap.GetOr(NEW_LDAP), i.ldap.value));
      } else if i.localDatabase {
        localDatabase := Some(oldLocalDatabase.GetOr(NEW_BARE));
      } else if i.noAuth {
        noAuth := Some(oldNoAuth.GetOr(NEW_BARE));
      } else if i.radius.Some? {
        radius := Some(OverServer(oldRadius.GetOr(NEW_SERVER), i.radius.value));
      } else if i.samlIdp.Some? {
        samlIdp := Some(OverSaml(oldSamlIdp.GetOr(NEW_SAML), i.samlIdp.value));
      } else {
        tacplus := Some(OverServer(oldTacplus.GetOr(NEW_SERVER), i.tacplus.value));
      }
    }
  }

  class Profile {
    var node: MethodNode?

    function View(): Option<Method>
      reads this, node
    {
      if node == null then None else Some(node.View())
    }

    /** `applyAuthProfileMethod`. */
    method Apply(i: MethodInput) returns (err: Outcome<MethodError>)
      modifies this, node
      ensures match OverlayMethod(old(View()).GetOr(NO_METHOD), i)
              case Ok(m) => err == Pass && View() == if CountSet(i) == 0 then old(View()) else Some(m)
              case Err(e) => err == Fail(e) && View() == old(View())
    {
      if CountSet(i) == 0 {
        return Pass;
      }
      if CountSet(i) > 1 {
        return Fail(SeveralBranches);
      }
      if node == null {
        node := new MethodNode();
      }
      node.Choose(i);
      err := Pass;
    }
  }

  /** Exactly one method at a time: an input with two branches or more is refused, and any other accepted. */
  lemma RefusesSeveral(m: Method, i: MethodInput)
    ensures OverlayMethod(m, i) == Err(SeveralBranches) <==> exists j, k :: j != k && Selects(i, j) && Selects(i, k)
  {
    if CountSet(i) > 1 {
      assert Selects(i, Kerberos) == i.kerberos.Some? && Selects(i, Ldap) == i.ldap.Some?;
      assert Selects(i, LocalDatabase) == i.localDatabase && Selects(i, NoAuth) == i.noAuth;
      assert Selects(i, Radius) == i.radius.Some? && Selects(i, SamlIdp) == i.samlIdp.Some?;
      assert Selects(i, Tacplus) == i.tacplus.Some?;
    } else if CountSet(i) == 1 {
      assert Selects(i, Selected(i));
    } else {
      assert forall k :: !Selects(i, k);
    }
  }

  // ----- Reading it back -----

  function MethodString(m: Option<Method>): string {
    if m.None? then ""
    else if m.value.cloud.Some? then "cloud"
    else if m.value.kerberos.Some? then "kerberos"
    else if m.value.ldap.Some? then "ldap"
    else if m.value.localDatabase.Some? then "local-database"
    else if m.value.noAuth.Some? then "none"
    else if m.value.radius.Some? then "radius"
    else if m.value.samlIdp.Some? then "saml-idp"
    else if m.value.tacplus.Some? then "tacplus"
    else ""
  }

  function Str(s: Option<string>): Val {
    Text(StrVal(s))
  }

  function SamlDetail(b: SamlNode): map<Key, Val> {
    Put(map[ServerProfile := Str(b.serverProfile), CertificateProfile := Str(b.certificateProfile),
            SigningCertificate := Str(b.signingCertificate), Username := Str(b.username), Usergroup := Str(b.usergroup),
            AdminRole := Str(b.adminRole), AccessDomain := Str(b.accessDomain)],
        SingleLogout, Flagged(b.singleLogout))
  }

  function MethodDetail(m: Option<Method>): map<Key, Val> {
    if m.None? then map[]
    else if m.value.cloud.Some? then map[]
    else if m.value.kerberos.Some? then
      map[Realm := Str(m.value.kerberos.value.realm), ServerProfile := Str(m.value.kerberos.value.serverProfile)]
    else if m.value.ldap.Some? then
      var b := m.value.ldap.value;
      Put(map[LoginAttribute := Str(b.loginAttribute), ServerProfile := Str(b.serverProfile)],
          PasswdExpDays, Numbered(b.passwdExpDays))
    else if m.value.localDatabase.Some? || m.value.noAuth.Some? then map[]
    else if m.value.radius.Some? then
      Put(map[ServerProfile := Str(m.value.radius.value.serverProfile)],
          Checkgroup, Flagged(m.value.radius.value.checkgroup))
    else if m.value.samlIdp.Some? then SamlDetail(m.value.samlIdp.value)
    else if m.value.tacplus.Some? then
      Put(map[ServerProfile := Str(m.value.tacplus.value.serverProfile)],
          Checkgroup, Flagged(m.value.tacplus.value.checkgroup))
    else map[]
  }

  // ----- The one-of law -----

  function KerberosField(b: KerberosNode, f: Key): Option<Val> {
    match f
    case Realm => Texted(b.realm)
    case ServerProfile => Texted(b.serverProfile)
    case Unmodeled => Texted(b.unmodeled)
    case _ => None
  }

  function LdapField(b: LdapNode, f: Key): Option<Val> {
    match f
    case LoginAttribute => Texted(b.loginAttribute)
    case PasswdExpDays => Numbered(b.passwdExpDays)
    case ServerProfile => Texted(b.serverProfile)
    case Unmodeled => Texted(b.unmodeled)
    case _ => None
  }

  function BareField(b: BareNode, f: Key): Option<Val> {
    if f == Unmodeled then Texted(b.unmodeled) else None
  }

  function ServerField(b: ServerNode, f: Key): Option<Val> {
    match f
    case Checkgroup => Flagged(b.checkgroup)
    case ServerProfile => Texted(b.serverProfile)
    case Unmodeled => Texted(b.unmodeled)
    case _ => None
  }

  function SamlField(b: SamlNode, f: Key): Option<Val> {
    match f
    case AccessDomain => Texted(b.accessDomain)
    case AdminRole => Texted(b.adminRole)
    case Usergroup => Texted(b.usergroup)
    case Username => Texted(b.username)
    case CertificateProfile => Texted(b.certificateProfile)
    case SingleLogout => Flagged(b.singleLogout)
    case SigningCertificate => Texted(b.signingCertificate)
    case ServerProfile => Texted(b.serverProfile)
    case Unmodeled => Texted(b.unmodeled)
    case _ => None
  }

  predicate Present(m: Method, k: Kind) {
    match k
    case Cloud => m.cloud.Some?
    case Kerberos => m.kerberos.Some?
    case Ldap => m.ldap.Some?
    case LocalDatabase => m.localDatabase.Some?
    case NoAuth => m.noAuth.Some?
    case Radius => m.radius.Some?
    case SamlIdp => m.samlIdp.Some?
    case Tacplus => m.tacplus.Some?
  }

  /** What a branch stores in a field; nothing when the branch is absent. */
  function FieldOf(m: Method, k: Kind, f: Key): Option<Val> {
    match k
    case Cloud => BareField(m.cloud.GetOr(NEW_BARE), f)
    case Kerberos => KerberosField(m.kerberos.GetOr(NEW_KERBEROS), f)
    case Ldap => LdapField(m.ldap.GetOr(NEW_LDAP), f)
    case LocalDatabase => BareField(m.localDatabase.GetOr(NEW_BARE), f)
    case NoAuth => BareField(m.noAuth.GetOr(NEW_BARE), f)
    case Radius => ServerField(m.radius.GetOr(NEW_SERVER), f)
    case SamlIdp => SamlField(m.samlIdp.GetOr(NEW_SAML), f)
    case Tacplus => ServerField(m.tacplus.GetOr(NEW_SERVER), f)
  }

  /** What an input supplies for a field of a branch. */
  function Given(i: MethodInput, k: Kind, f: Key): Option<Val> {
    if f == Unmodeled then None
    else
      match k
      case Kerberos => KerberosField(i.kerberos.GetOr(NEW_KERBEROS), f)
      case Ldap => LdapField(i.ldap.GetOr(NEW_LDAP), f)
      case Radius => ServerField(i.radius.GetOr(NEW_SERVER), f)
      case SamlIdp => SamlField(i.samlIdp.GetOr(NEW_SAML), f)
      case Tacplus => ServerField(i.tacplus.GetOr(NEW_SERVER), f)
      case _ => None
  }

  function Fields(m: Method, k: Kind): (fields: map<Key, Val>)
    ensures forall f :: Get(fields, f) == FieldOf(m, k, f)
  {
    map f: Key | FieldOf(m, k, f).Some? :: FieldOf(m, k, f).value
  }

  function Provided(i: MethodInput, k: Kind): (fields: map<Key, Val>)
    ensures forall f :: Get(fields, f) == Given(i, k, f)
  {
    map f: Key | Given(i, k, f).Some? :: Given(i, k, f).value
  }

  function Branches(m: Method): (b: map<Kind, map<Key, Val>>)
    ensures forall k :: Get(b, k) == if Present(m, k) then Some(Fields(m, k)) else None
  {
    map k: Kind | Present(m, k) :: Fields(m, k)
  }

  function Selected(i: MethodInput): (k: Kind)
    requires CountSet(i) == 1
    ensures Selects(i, k) && forall j :: Selects(i, j) ==> j == k
  {
    if i.kerberos.Some? then Kerberos else if i.ldap.Some? then Ldap else if i.localDatabase then LocalDatabase
    else if i.noAuth then NoAuth else if i.radius.Some? then Radius else if i.samlIdp.Some? then SamlIdp else Tacplus
  }

  function EditOf(i: MethodInput): Edit<Kind, Key, Val> {
    if CountSet(i) != 1 then Keep else Choose(Selected(i), Provided(i, Selected(i)))
  }

  lemma ChosenField(m: Method, i: MethodInput, f: Key)
    requires CountSet(i) == 1
    ensures var k := Selected(i);
            FieldOf(OverlayMethod(m, i).value, k, f)
            == if Given(i, k, f).Some? then Given(i, k, f) else FieldOf(m, k, f)
  {
  }

  lemma ChosenPresent(m: Method, i: MethodInput, k: Kind)
    requires CountSet(i) == 1
    ensures Present(OverlayMethod(m, i).value, k) <==> k == Selected(i)
  {
  }

  lemma AbsentHasNoFields(m: Method, k: Kind)
    requires !Present(m, k)
    ensures Fields(m, k) == map[]
  {
    SameFields(Fields(m, k), map[]);
  }

  /** A successful overlay is one edit of the one-of: kept as it is, or captured, cleared, seeded and overwritten. */
  lemma OverlayIsStep(m: Method, i: MethodInput)
    requires OverlayMethod(m, i).Ok?
    ensures Branches(OverlayMethod(m, i).value) == Step(Branches(m), EditOf(i))
  {
    if CountSet(i) == 1 {
      var m', k := OverlayMethod(m, i).value, Selected(i);
      var stored := Stored(Branches(m), k);
      assert Get(Branches(m), k) == if Present(m, k) then Some(Fields(m, k)) else None;
      assert stored == Fields(m, k) by {
        if !Present(m, k) {
          AbsentHasNoFields(m, k);
        }
      }
      forall f ensures Get(Fields(m', k), f) == Get(stored + Provided(i, k), f) {
        ChosenField(m, i, f);
        assert Get(Provided(i, k), f) == Given(i, k, f) && Get(Fields(m, k), f) == FieldOf(m, k, f);
      }
      SameFields(Fields(m', k), stored + Provided(i, k));
      forall j ensures Get(Branches(m'), j) == Get(Select(Branches(m), k, Provided(i, k)), j) {
        ChosenPresent(m, i, j);
      }
      SameFields(Branches(m'), Select(Branches(m), k, Provided(i, k)));
    }
  }

  /** The method after a run of inputs, if every one of them was accepted. */
  function RunMethod(m: Method, inputs: seq<MethodInput>): Option<Method> {
    if inputs == [] then Some(m)
    else
      var before := RunMethod(m, inputs[..|inputs| - 1]);
      if before.None? then None
      else
        var r := OverlayMethod(before.value, inputs[|inputs| - 1]);
        if r.Err? then None else Some(r.value)
  }

  function EditsOf(inputs: seq<MethodInput>): (edits: seq<Edit<Kind, Key, Val>>)
    ensures |edits| == |inputs|
  {
    if inputs == [] then [] else EditsOf(inputs[..|inputs| - 1]) + [EditOf(inputs[|inputs| - 1])]
  }

  /**
   * Every run of accepted creates and updates is a run of one-of edits, so the law's history holds of it: at most one
   * branch, the last one chosen; each of its fields the last value supplied since, and what is not modeled kept.
   */
  lemma {:induction false} MethodHistory(m: Method, inputs: seq<MethodInput>)
    requires AtMostOne(Branches(m)) && RunMethod(m, inputs).Some?
    ensures var after := RunMethod(m, inputs).value;
            && Branches(after) == Run(Branches(m), EditsOf(inputs))
            && AtMostOne(Branches(after))
            && after.unmodeled == m.unmodeled
            && (LastChoice(EditsOf(inputs)).Some? ==> Branches(after).Keys == {LastChoice(EditsOf(inputs)).value})
  {
    if inputs != [] {
      var front, last := inputs[..|inputs| - 1], inputs[|inputs| - 1];
      MethodHistory(m, front);
      OverlayIsStep(RunMethod(m, front).value, last);
      assert EditsOf(inputs)[..|front|] == EditsOf(front);
    }
    RunKeepsOne(Branches(m), EditsOf(inputs));
  }

  /**
   * Field by field: what the chosen branch stores is the last value supplied since it was last switched to, and what
   * was stored at the start only if it was never switched away from.
   */
  lemma FieldHistory(m: Method, inputs: seq<MethodInput>, k: Kind, f: Key)
    requires AtMostOne(Branches(m)) && RunMethod(m, inputs).Some? && Present(RunMethod(m, inputs).value, k)
    ensures var since := AfterLastOther(EditsOf(inputs), k);
            var supplied := LastSupplied(EditsOf(inputs), since, f);
            FieldOf(RunMethod(m, inputs).value, k, f)
            == if supplied.Some? then supplied else if since == 0 then FieldOf(m, k, f) else None
  {
    MethodHistory(m, inputs);
    var after := RunMethod(m, inputs).value;
    assert Get(Branches(after), k) == Some(Fields(after, k));
    assert Get(Fields(after, k), f) == FieldOf(after, k, f);
    RunHistory(Branches(m), EditsOf(inputs), k, f);
    assert Get(Branches(m), k) == if Present(m, k) then Some(Fields(m, k)) else None;
    assert Get(Stored(Branches(m), k), f) == FieldOf(m, k, f) by {
      if Present(m, k) {
        assert Get(Fields(m, k), f) == FieldOf(m, k, f);
      } else {
        AbsentHasNoFields(m, k);
        assert Get(Fields(m, k), f) == FieldOf(m, k, f);
      }
    }
  }

  // ----- The report names and details one branch -----

  function KindName(k: Kind): string {
    match k
    case Cloud => "cloud"
    case Kerberos => "kerberos"
    case Ldap => "ldap"
    case LocalDatabase => "local-database"
    case NoAuth => "none"
    case Radius => "radius"
    case SamlIdp => "saml-idp"
    case Tacplus => "tacplus"
  }

  /** The order in which branches are looked for. */
  function Rank(k: Kind): nat {
    match k
    case Cloud => 0
    case Kerberos => 1
    case Ldap => 2
    case LocalDatabase => 3
    case NoAuth => 4
    case Radius => 5
    case SamlIdp => 6
    case Tacplus => 7
  }

  /** The branch a report is about. */
  ghost predicate Active(m: Method, k: Kind) {
    Present(m, k) && forall j :: Present(m, j) ==> Rank(k) <= Rank(j)
  }

  /** The fields a report always shows for a branch, a missing one as the empty string. */
  predicate AlwaysShown(k: Kind, f: Key) {
    match k
    case Kerberos => f == Realm || f == ServerProfile
    case Ldap => f == LoginAttribute || f == ServerProfile
    case Radius => f == ServerProfile
    case SamlIdp => f == ServerProfile || f == CertificateProfile || f == SigningCertificate || f == Username
                    || f == Usergroup || f == AdminRole || f == AccessDomain
    case Tacplus => f == ServerProfile
    case _ => false
  }

  /** What the report of a branch shows in a field: what is stored, never the unmodeled part. */
  function ShownIn(m: Method, k: Kind, f: Key): Option<Val> {
    if f == Unmodeled then None
    else if FieldOf(m, k, f).None? && AlwaysShown(k, f) then Some(Text("")) else FieldOf(m, k, f)
  }

  lemma EarlierAbsent(m: Method, k: Kind)
    requires Active(m, k)
    ensures Rank(k) > 0 ==> m.cloud.None?
    ensures Rank(k) > 1 ==> m.kerberos.None?
    ensures Rank(k) > 2 ==> m.ldap.None?
    ensures Rank(k) > 3 ==> m.localDatabase.None?
    ensures Rank(k) > 4 ==> m.noAuth.None?
    ensures Rank(k) > 5 ==> m.radius.None?
    ensures Rank(k) > 6 ==> m.samlIdp.None?
  {
    assert Rank(k) > 0 ==> !Present(m, Cloud);
    assert Rank(k) > 1 ==> !Present(m, Kerberos);
    assert Rank(k) > 2 ==> !Present(m, Ldap);
    assert Rank(k) > 3 ==> !Present(m, LocalDatabase);
    assert Rank(k) > 4 ==> !Present(m, NoAuth);
    assert Rank(k) > 5 ==> !Present(m, Radius);
    assert Rank(k) > 6 ==> !Present(m, SamlIdp);
  }

  lemma SamlShown(m: Method, f: Key)
    requires m.samlIdp.Some?
    ensures Get(SamlDetail(m.samlIdp.value), f) == ShownIn(m, SamlIdp, f)
  {
  }

  /** Also when another tool left several branches, the method named and the method detailed are the same one. */
  lemma ReportsOneBranch(m: Method, k: Kind, f: Key)
    requires Active(m, k)
    ensures MethodString(Some(m)) == KindName(k)
    ensures Get(MethodDetail(Some(m)), f) == ShownIn(m, k, f)
  {
    EarlierAbsent(m, k);
    if k == SamlIdp {
      SamlShown(m, f);
    }
  }

  lemma ReportsNothing(m: Option<Method>)
    requires m.Some? ==> forall k :: !Present(m.value, k)
    ensures MethodString(m) == "" && MethodDetail(m) == map[]
  {
    if m.Some? {
      assert !Present(m.value, Cloud) && !Present(m.value, Kerberos) && !Present(m.value, Ldap);
      assert !Present(m.value, LocalDatabase) && !Present(m.value, NoAuth) && !Present(m.value, Radius);
      assert !Present(m.value, SamlIdp) && !Present(m.value, Tacplus);
    }
  }

  /** A selecting update reads back: its branch is the one reported, with every value it supplied. */
  lemma SelectionReadsBack(m: Method, i: MethodInput, f: Key)
    requires CountSet(i) == 1
    ensures var m' := OverlayMethod(m, i).value;
            && MethodString(Some(m')) == KindName(Selected(i))
            && (Given(i, Selected(i), f).Some? ==> Get(MethodDetail(Some(m')), f) == Given(i, Selected(i), f))
  {
    var m' := OverlayMethod(m, i).value;
    forall k ensures Present(m', k) <==> k == Selected(i) {
      ChosenPresent(m, i, k);
    }
    ChosenField(m, i, f);
    ReportsOneBranch(m', Selected(i), f);
  }
}
