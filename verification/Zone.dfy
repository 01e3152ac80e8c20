/** Security zones: the network-type one-of, as an in-place overlay and as a function on zone documents. */
module Zone {
  import opened Wrappers
  import opened OneOf

  datatype Kind = Layer3 | Layer2 | VirtualWire | Tap | External | Tunnel

  function KindName(k: Kind): string {
    match k
    case Layer3 => "layer3"
    case Layer2 => "layer2"
    case VirtualWire => "virtual-wire"
    case Tap => "tap"
    case External => "external"
    case Tunnel => "tunnel"
  }

  function NamedKind(s: string): Option<Kind> {
    if s == "layer3" then Some(Layer3)
    else if s == "layer2" then Some(Layer2)
    else if s == "virtual-wire" then Some(VirtualWire)
    else if s == "tap" then Some(Tap)
    else if s == "external" then Some(External)
    else if s == "tunnel" then Some(Tunnel)
    else None
  }

  /** The tunnel branch has no fields of its own, only XML this server does not model. */
  datatype TunnelNode = TunnelNode(unmodeled: Option<string>)

  /** A zone's network element: five interface lists and the tunnel branch, then the protection settings. */
  datatype Net = Net(
    layer3: Option<seq<string>>, layer2: Option<seq<string>>, virtualWire: Option<seq<string>>,
    tap: Option<seq<string>>, external: Option<seq<string>>, tunnel: Option<TunnelNode>,
    protection: Option<string>, logSetting: Option<string>, packetBuffer: Option<bool>, unmodeled: Option<string>)

  const NO_NET := Net(None, None, None, None, None, None, None, None, None, None)

  datatype Zone = Zone(userId: Option<bool>, deviceId: Option<bool>, network: Option<Net>)

  const NEW_ZONE := Zone(None, None, None)

  datatype ZoneInput = ZoneInput(
    name: string, networkType: string, interfaces: Option<seq<string>>, protection: string, logSetting: string,
    packetBuffer: Option<bool>, userId: Option<bool>, deviceId: Option<bool>)

  datatype ZoneError = BadType | TunnelTakesNoInterfaces | NoTypeSet | NameRequired | TypeRequired

  // ----- The overlay on documents -----

  /** `zoneSetNetworkType`: clear every branch, set the chosen one; a tunnel keeps what it stored. */
  function SetType(n: Net, k: Kind, interfaces: seq<string>): Net {
    var cleared := n.(layer3 := None, layer2 := None, virtualWire := None, tap := None,
                      external := None, tunnel := None);
    match k
    case Layer3 => cleared.(layer3 := Some(interfaces))
    case Layer2 => cleared.(layer2 := Some(interfaces))
    case VirtualWire => cleared.(virtualWire := Some(interfaces))
    case Tap => cleared.(tap := Some(interfaces))
    case External => cleared.(external := Some(interfaces))
    case Tunnel => cleared.(tunnel := Some(n.tunnel.GetOr(TunnelNode(None))))
  }

  /** `zoneReplaceInterfaces`: the members of the first branch present. */
  function ReplaceInterfaces(n: Net, interfaces: seq<string>): Result<Net, ZoneError> {
    if n.layer3.Some? then Ok(n.(layer3 := Some(interfaces)))
    else if n.layer2.Some? then Ok(n.(layer2 := Some(interfaces)))
    else if n.virtualWire.Some? then Ok(n.(virtualWire := Some(interfaces)))
    else if n.tap.Some? then Ok(n.(tap := Some(interfaces)))
    else if n.external.Some? then Ok(n.(external := Some(interfaces)))
    else if n.tunnel.Some? then Err(TunnelTakesNoInterfaces)
    else Err(NoTypeSet)
  }

  predicate NetworkProvided(input: ZoneInput) {
    input.networkType != "" || input.interfaces.Some? || input.protection != "" || input.logSetting != ""
    || input.packetBuffer.Some?
  }

  /** The fields of the network container outside its branches. */
  function WithScalars(n: Net, input: ZoneInput): Net {
    n.(protection := SetStrPtr(n.protection, input.protection),
       logSetting := SetStrPtr(n.logSetting, input.logSetting),
       packetBuffer := SetPtr(n.packetBuffer, input.packetBuffer))
  }

  function OverlayZone(z: Zone, input: ZoneInput): Result<Zone, ZoneError> {
    if input.networkType != "" && NamedKind(input.networkType).None? then Err(BadType)
    else if input.interfaces.GetOr([]) != [] && input.networkType == "tunnel" then Err(TunnelTakesNoInterfaces)
    else
      var flagged := z.(userId := SetPtr(z.userId, input.userId), deviceId := SetPtr(z.deviceId, input.deviceId));
      if !NetworkProvided(input) then Ok(flagged)
      else
        var n := WithScalars(z.network.GetOr(NO_NET), input);
        if input.networkType != "" then
          Ok(flagged.(network := Some(SetType(n, NamedKind(input.networkType).value, input.interfaces.GetOr([])))))
        else if input.interfaces.Some? then
          var r := ReplaceInterfaces(n, input.interfaces.value);
          if r.Err? then Err(r.error) else Ok(flagged.(network := Some(r.value)))
        else Ok(flagged.(network := Some(n)))
  }

  /** `buildZoneEntry`. */
  function BuildZone(input: ZoneInput): Result<Zone, ZoneError> {
    if input.name == "" then Err(NameRequired)
    else if input.networkType == "" then Err(TypeRequired)
    else OverlayZone(NEW_ZONE, input)
  }

  /** `zoneNetworkTypeString`. */
  function TypeString(n: Option<Net>): string {
    if n.None? then ""
    else if n.value.layer3.Some? then "layer3"
    else if n.value.layer2.Some? then "layer2"
    else if n.value.virtualWire.Some? then "virtual-wire"
    else if n.value.tap.Some? then "tap"
    else if n.value.external.Some? then "external"
    else if n.value.tunnel.Some? then "tunnel"
    else ""
  }

  /** `zoneInterfaces`. */
  function Interfaces(n: Option<Net>): Option<seq<string>> {
    if n.None? then None
    else if n.value.layer3.Some? then n.value.layer3
    else if n.value.layer2.Some? then n.value.layer2
    else if n.value.virtualWire.Some? then n.value.virtualWire
    else if n.value.tap.Some? then n.value.tap
    else n.value.external
  }

  // ----- The overlay in place -----

  class Network {
    var layer3: Option<seq<string>>
    var layer2: Option<seq<string>>
    var virtualWire: Option<seq<string>>
    var tap: Option<seq<string>>
    var external: Option<seq<string>>
    var tunnel: Option<TunnelNode>
    var protection: Option<string>
    var logSetting: Option<string>
    var packetBuffer: Option<bool>
    var unmodeled: Option<string>

    constructor ()
      ensures View() == NO_NET
    {
      layer3, layer2, virtualWire, tap, external, tunnel := None, None, None, None, None, None;
      protection, logSetting, packetBuffer, unmodeled := None, None, None, None;
    }

    function View(): Net
      reads this
    {
      Net(layer3, layer2, virtualWire, tap, external, tunnel, protection, logSetting, packetBuffer, unmodeled)
    }

    method SetNetworkType(k: Kind, interfaces: seq<string>)
      modifies this
      ensures View() == SetType(old(View()), k, interfaces)
    {
      var oldTunnel := tunnel;
      layer3, layer2, virtualWire, tap, external, tunnel := None, None, None, None, None, None;
      match k
      case Layer3 => layer3 := Some(interfaces);
      case Layer2 => layer2 := Some(interfaces);
      case VirtualWire => virtualWire := Some(interfaces);
      case Tap => tap := Some(interfaces);
      case External => external := Some(interfaces);
      case Tunnel =>
        if oldTunnel.Some? {
          tunnel := oldTunnel;
        } else {
          tunnel := Some(TunnelNode(None));
        }
    }

    method ReplaceMembers(interfaces: seq<string>) returns (err: Outcome<ZoneError>)
      modifies this
      ensures var r := ReplaceInterfaces(old(View()), interfaces);
              match r case Ok(n) => err == Pass && View() == n case Err(e) => err == Fail(e)
    {
      err := Pass;
      if layer3.Some? {
        layer3 := Some(interfaces);
      } else if layer2.Some? {
        layer2 := Some(interfaces);
      } else if virtualWire.Some? {
        virtualWire := Some(interfaces);
      } else if tap.Some? {
        tap := Some(interfaces);
      } else if external.Some? {
        external := Some(interfaces);
      } else if tunnel.Some? {
        err := Fail(TunnelTakesNoInterfaces);
      } else {
        err := Fail(NoTypeSet);
      }
    }
  }

  class ZoneEntry {
    var userId: Option<bool>
    var deviceId: Option<bool>
    var network: Network?

    function View(): Zone
      reads this, network
    {
      Zone(userId, deviceId, if network == null then None else Some(network.View()))
    }

    /** `applyZoneNetwork`: on failure the entry may be half edited, and its holder discards it. */
    method Apply(input: ZoneInput) returns (err: Outcome<ZoneError>)
      modifies this, network
      ensures match OverlayZone(old(View()), input)
              case Ok(z) => err == Pass && View() == z
              case Err(e) => err == Fail(e)
    {
      var kind := NamedKind(input.networkType);
      if input.networkType != "" && kind.None? {
        return Fail(BadType);
      }
      if input.interfaces.GetOr([]) != [] && input.networkType == "tunnel" {
        return Fail(TunnelTakesNoInterfaces);
      }
      userId := SetPtr(userId, input.userId);
      deviceId := SetPtr(deviceId, input.deviceId);
      if !NetworkProvided(input) {
        return Pass;
      }
      if network == null {
        network := new Network();
      }
      var n := network;
      n.protection := SetStrPtr(n.protection, input.protection);
      n.logSetting := SetStrPtr(n.logSetting, input.logSetting);
      n.packetBuffer := SetPtr(n.packetBuffer, input.packetBuffer);
      err := Pass;
      if input.networkType != "" {
        n.SetNetworkType(kind.value, input.interfaces.GetOr([]));
      } else if input.interfaces.Some? {
        err := n.ReplaceMembers(input.interfaces.value);
      }
    }
  }

  // ----- Which inputs are accepted -----

  predicate NamesType(networkType: string) {
    networkType in {"layer3", "layer2", "virtual-wire", "tap", "external", "tunnel"}
  }

  /** Exactly which inputs make a zone, and what is wrong with the others. */
  lemma BuildAccepts(input: ZoneInput)
    ensures BuildZone(input).Ok? <==>
              && input.name != "" && NamesType(input.networkType)
              && (input.networkType == "tunnel" ==> input.interfaces.GetOr([]) == [])
    ensures BuildZone(input).Err? ==>
              BuildZone(input).error
              == if input.name == "" then NameRequired else if input.networkType == "" then TypeRequired
                 else if !NamesType(input.networkType) then BadType else TunnelTakesNoInterfaces
  {
  }

  /**
   * Exactly which updates a zone takes. Interfaces need a type that has them, named in the same input or stored; a
   * tunnel has none, though naming it with an empty list is no contradiction.
   */
  lemma OverlayAccepts(z: Zone, input: ZoneInput)
    ensures var r, stored := OverlayZone(z, input), TypeString(z.network);
            if input.networkType != "" then
              && (r.Ok? <==> NamesType(input.networkType)
                             && (input.networkType == "tunnel" ==> input.interfaces.GetOr([]) == []))
              && (r.Err? ==> r.error == if NamesType(input.networkType) then TunnelTakesNoInterfaces else BadType)
            else
              && (r.Ok? <==> input.interfaces.None? || (stored != "" && stored != "tunnel"))
              && (r.Err? ==> r.error == if stored == "" then NoTypeSet else TunnelTakesNoInterfaces)
  {
  }

  /** An update that provides nothing of the network element leaves it alone, also where there is none. */
  lemma OverlaySparesNetwork(z: Zone, input: ZoneInput)
    requires input.networkType == "" && input.interfaces.None?
    requires input.protection == "" && input.logSetting == "" && input.packetBuffer.None?
    ensures OverlayZone(z, input).Ok? && OverlayZone(z, input).value.network == z.network
  {
  }

  // ----- The one-of law -----

  datatype Content = Members | Unmodeled

  datatype Value = List(items: seq<string>) | Xml(text: string)

  function MembersMap(l: Option<seq<string>>): Option<map<Content, Value>> {
    if l.None? then None else Some(map[Members := List(l.value)])
  }

  function BranchOf(n: Net, k: Kind): Option<map<Content, Value>> {
    match k
    case Layer3 => MembersMap(n.layer3)
    case Layer2 => MembersMap(n.layer2)
    case VirtualWire => MembersMap(n.virtualWire)
    case Tap => MembersMap(n.tap)
    case External => MembersMap(n.external)
    case Tunnel =>
      if n.tunnel.None? then None
      else Some(Put(map[], Unmodeled, if n.tunnel.value.unmodeled.Some? then Some(Xml(n.tunnel.value.unmodeled.value))
                                     else None))
  }

  function Branches(z: Zone): (m: map<Kind, map<Content, Value>>)
    ensures forall k :: Get(m, k) == BranchOf(z.network.GetOr(NO_NET), k)
  {
    map k: Kind | BranchOf(z.network.GetOr(NO_NET), k).Some? :: BranchOf(z.network.GetOr(NO_NET), k).value
  }

  /** The branch a zone with at most one has. */
  function Current(n: Net): Option<Kind> {
    NamedKind(TypeString(Some(n)))
  }

  /** A successful input as an edit: a type chooses its branch, interfaces alone re-choose the current one. */
  function EditOf(z: Zone, input: ZoneInput): Edit<Kind, Content, Value> {
    var k := if input.networkType != "" then NamedKind(input.networkType)
             else if input.interfaces.Some? then Current(z.network.GetOr(NO_NET)) else None;
    if k.None? then Keep
    else Choose(k.value, if k.value == Tunnel then map[] else map[Members := List(input.interfaces.GetOr([]))])
  }

  lemma SetTypeBranches(n: Net, k: Kind, interfaces: seq<string>, j: Kind)
    ensures BranchOf(SetType(n, k, interfaces), j)
            == if j != k then None
               else if k == Tunnel then Some(BranchOf(n, Tunnel).GetOr(map[]))
               else Some(map[Members := List(interfaces)])
  {
  }

  /** The branches after choosing one over at most one, branch by branch. */
  lemma ChosenBranch(n: Net, k: Kind, interfaces: seq<string>, before: map<Kind, map<Content, Value>>, j: Kind)
    requires AtMostOne(before) && forall i :: Get(before, i) == BranchOf(n, i)
    ensures BranchOf(SetType(n, k, interfaces), j)
            == Get(Step(before, Choose(k, if k == Tunnel then map[] else map[Members := List(interfaces)])), j)
  {
    SetTypeBranches(n, k, interfaces, j);
    assert Get(before, k) == BranchOf(n, k);
    var stored := Stored(before, k);
    if k == Tunnel {
      assert stored + map[] == stored;
    } else {
      var provided := map[Members := List(interfaces)];
      assert stored.Keys <= {Members} && stored + provided == provided;
    }
  }

  /** With at most one branch, replacing the members is setting the type there is. */
  lemma ReplaceIsSet(n: Net, interfaces: seq<string>, before: map<Kind, map<Content, Value>>, j: Kind)
    requires AtMostOne(before) && forall i :: Get(before, i) == BranchOf(n, i)
    requires ReplaceInterfaces(n, interfaces).Ok?
    ensures Current(n).Some? && Current(n).value != Tunnel
    ensures BranchOf(ReplaceInterfaces(n, interfaces).value, j)
            == BranchOf(SetType(n, Current(n).value, interfaces), j)
  {
    assert Get(before, j) == BranchOf(n, j);
    assert Get(before, Current(n).value) == BranchOf(n, Current(n).value);
  }

  lemma ReplaceScalars(n: Net, input: ZoneInput, interfaces: seq<string>, j: Kind)
    ensures var r, r' := ReplaceInterfaces(n, interfaces), ReplaceInterfaces(WithScalars(n, input), interfaces);
            r.Ok? == r'.Ok? && (r.Ok? ==> BranchOf(r'.value, j) == BranchOf(r.value, j))
  {
  }

  /** The scalars of the container are not part of any branch. */
  lemma ScalarsApart(z: Zone, input: ZoneInput, j: Kind)
    requires OverlayZone(z, input).Ok?
    ensures var n, n' := z.network.GetOr(NO_NET), OverlayZone(z, input).value.network.GetOr(NO_NET);
            BranchOf(n', j)
            == if input.networkType != "" then
                 BranchOf(SetType(n, NamedKind(input.networkType).value, input.interfaces.GetOr([])), j)
               else if input.interfaces.Some? then
                 ReplaceScalars(n, input, input.interfaces.value, j);
                 BranchOf(ReplaceInterfaces(n, input.interfaces.value).value, j)
               else BranchOf(n, j)
  {
    var n := z.network.GetOr(NO_NET);
    assert BranchOf(WithScalars(n, input), j) == BranchOf(n, j);
    if input.networkType != "" {
      SetTypeBranches(n, NamedKind(input.networkType).value, input.interfaces.GetOr([]), j);
      SetTypeBranches(WithScalars(n, input), NamedKind(input.networkType).value, input.interfaces.GetOr([]), j);
      assert BranchOf(WithScalars(n, input), Tunnel) == BranchOf(n, Tunnel);
    } else if input.interfaces.Some? {
      ReplaceScalars(n, input, input.interfaces.value, j);
    }
  }

  lemma ZoneIsStep(z: Zone, input: ZoneInput)
    requires AtMostOne(Branches(z)) && OverlayZone(z, input).Ok?
    ensures Branches(OverlayZone(z, input).value) == Step(Branches(z), EditOf(z, input))
  {
    var before, after := Branches(z), Branches(OverlayZone(z, input).value);
    var n, n' := z.network.GetOr(NO_NET), OverlayZone(z, input).value.network.GetOr(NO_NET);
    var e := EditOf(z, input);
    forall j ensures Get(after, j) == Get(Step(before, e), j) {
      assert Get(before, j) == BranchOf(n, j) && Get(after, j) == BranchOf(n', j);
      ScalarsApart(z, input, j);
      if input.networkType == "" && input.interfaces.Some? {
        ReplaceIsSet(n, input.interfaces.value, before, j);
      }
      if e.Choose? {
        ChosenBranch(n, e.key, input.interfaces.GetOr([]), before, j);
      }
    }
    SameFields(after, Step(before, e));
  }

  // ----- Runs of updates -----

  /** The zone after a run of updates, if every one of them succeeded. */
  function RunZone(z: Zone, inputs: seq<ZoneInput>): Option<Zone> {
    if inputs == [] then Some(z)
    else
      var before := RunZone(z, inputs[..|inputs| - 1]);
      if before.None? then None
      else
        var r := OverlayZone(before.value, inputs[|inputs| - 1]);
        if r.Err? then None else Some(r.value)
  }

  function EditsOf(z: Zone, inputs: seq<ZoneInput>): seq<Edit<Kind, Content, Value>> {
    if inputs == [] then []
    else
      var front := inputs[..|inputs| - 1];
      var before := RunZone(z, front);
      EditsOf(z, front) + if before.None? then [] else [EditOf(before.value, inputs[|inputs| - 1])]
  }

  /** The type named by the last input that names one. */
  function LastType(inputs: seq<ZoneInput>): string {
    if inputs == [] then ""
    else if inputs[|inputs| - 1].networkType != "" then inputs[|inputs| - 1].networkType
    else LastType(inputs[..|inputs| - 1])
  }

  /** The order in which a report looks for a branch. */
  function Rank(k: Kind): nat {
    match k
    case Layer3 => 0
    case Layer2 => 1
    case VirtualWire => 2
    case Tap => 3
    case External => 4
    case Tunnel => 5
  }

  /** The branch a report is about. */
  ghost predicate Active(n: Net, k: Kind) {
    BranchOf(n, k).Some? && forall j :: BranchOf(n, j).Some? ==> Rank(k) <= Rank(j)
  }

  /** Also when another tool left several branches, the type named and the interfaces listed are of the same one. */
  lemma ReportsOneBranch(n: Net, k: Kind)
    requires Active(n, k)
    ensures TypeString(Some(n)) == KindName(k)
    ensures MembersMap(Interfaces(Some(n))) == if k == Tunnel then None else BranchOf(n, k)
  {
    assert BranchOf(n, Layer3).Some? ==> Rank(k) <= 0;
    assert BranchOf(n, Layer2).Some? ==> Rank(k) <= 1;
    assert BranchOf(n, VirtualWire).Some? ==> Rank(k) <= 2;
    assert BranchOf(n, Tap).Some? ==> Rank(k) <= 3;
    assert BranchOf(n, External).Some? ==> Rank(k) <= 4;
  }

  lemma ReportsNothing(n: Option<Net>)
    requires n.Some? ==> forall k :: BranchOf(n.value, k).None?
    ensures TypeString(n) == "" && Interfaces(n) == None
  {
    if n.Some? {
      assert BranchOf(n.value, Layer3).None? && BranchOf(n.value, Layer2).None?;
      assert BranchOf(n.value, VirtualWire).None? && BranchOf(n.value, Tap).None?;
      assert BranchOf(n.value, External).None? && BranchOf(n.value, Tunnel).None?;
    }
  }

  lemma TypeReadsBack(z: Zone, k: Kind)
    requires AtMostOne(Branches(z)) && k in Branches(z)
    ensures TypeString(z.network) == KindName(k)
    ensures k != Tunnel ==> Branches(z)[k] == map[Members := List(Interfaces(z.network).GetOr([]))]
  {
    var n := z.network.GetOr(NO_NET);
    assert Get(Branches(z), k) == BranchOf(n, k);
    forall j ensures BranchOf(n, j).Some? <==> j == k {
      assert Get(Branches(z), j) == BranchOf(n, j);
    }
    assert z.network == Some(n);
    ReportsOneBranch(n, k);
  }

  /**
   * A run of successful updates is a run of one-of edits: from at most one branch the zone keeps at most one, it
   * reports the type last named, or its first type when none was, and a branch's content is what the law says. The
   * container's own unmodeled XML outlives every switch.
   */
  lemma {:induction false} ZoneHistory(z: Zone, inputs: seq<ZoneInput>)
    requires AtMostOne(Branches(z)) && RunZone(z, inputs).Some?
    ensures var after := RunZone(z, inputs).value;
            && Branches(after) == Run(Branches(z), EditsOf(z, inputs))
            && AtMostOne(Branches(after))
            && after.network.GetOr(NO_NET).unmodeled == z.network.GetOr(NO_NET).unmodeled
            && TypeString(after.network) == if LastType(inputs) != "" then LastType(inputs) else TypeString(z.network)
  {
    if inputs != [] {
      var front, last := inputs[..|inputs| - 1], inputs[|inputs| - 1];
      ZoneHistory(z, front);
      var before := RunZone(z, front).value;
      ZoneIsStep(before, last);
      var edits := EditsOf(z, inputs);
      assert edits[..|edits| - 1] == EditsOf(z, front);
      TypeAfterStep(before, last);
      UnmodeledStays(before, last);
    }
  }

  lemma UnmodeledStays(z: Zone, input: ZoneInput)
    requires OverlayZone(z, input).Ok?
    ensures OverlayZone(z, input).value.network.GetOr(NO_NET).unmodeled == z.network.GetOr(NO_NET).unmodeled
  {
  }

  lemma NamedKindNames(s: string)
    requires NamedKind(s).Some?
    ensures KindName(NamedKind(s).value) == s
  {
  }

  lemma TypeAfterStep(z: Zone, input: ZoneInput)
    requires AtMostOne(Branches(z)) && OverlayZone(z, input).Ok?
    ensures var after := OverlayZone(z, input).value;
            && AtMostOne(Branches(after))
            && TypeString(after.network) == if input.networkType != "" then input.networkType else TypeString(z.network)
  {
    var after := OverlayZone(z, input).value;
    ZoneIsStep(z, input);
    if input.networkType != "" {
      NamedKindNames(input.networkType);
      TypeReadsBack(after, NamedKind(input.networkType).value);
    }
  }

  /** A created zone has exactly the branch its input names, with the given members. */
  lemma CreatedZone(input: ZoneInput)
    requires BuildZone(input).Ok?
    ensures var z := BuildZone(input).value;
            && AtMostOne(Branches(z)) && TypeString(z.network) == input.networkType
            && (input.networkType != "tunnel" ==> Interfaces(z.network) == Some(input.interfaces.GetOr([])))
  {
    assert Branches(NEW_ZONE) == map[] by {
      forall k ensures k !in Branches(NEW_ZONE) {
        assert Get(Branches(NEW_ZONE), k) == BranchOf(NO_NET, k);
      }
    }
    TypeAfterStep(NEW_ZONE, input);
  }
}
