/** The address translations of a NAT rule: source translation replaces, destination translation merges. */
module Nat {
  import opened Wrappers

  /** Dynamic IP and port: by the interface address, whose name may be missing, or by a pool. */
  datatype Dynamic = Dynamic(interface: Option<Option<string>>, pool: seq<string>, unmodeled: Option<string>)

  datatype Source = Source(dynamic: Option<Dynamic>, unmodeled: Option<string>)

  /** `unmodeled` includes a DNS rewrite. */
  datatype Destination = Destination(address: Option<string>, port: Option<int>, unmodeled: Option<string>)

  datatype Rule = Rule(natType: Option<string>, source: Option<Source>, destination: Option<Destination>)

  const NEW_RULE := Rule(None, None, None)

  const NEW_DESTINATION := Destination(None, None, None)

  datatype NatInput = NatInput(
    name: string, natType: string, snatInterface: string, snatAddresses: seq<string>,
    dnatAddress: string, dnatPort: Option<int>)

  datatype NatError = NameRequired | BadNatType | BothSources | PortNeedsAddress | PortOutOfRange

  const MIN_PORT := 1
  const MAX_PORT := 65535

  predicate ValidNatType(t: string) {
    t == "ipv4" || t == "nat64" || t == "nptv6"
  }

  function ByInterface(interface: string): Source {
    Source(Some(Dynamic(Some(Some(interface)), [], None)), None)
  }

  function ByPool(pool: seq<string>): Source {
    Source(Some(Dynamic(None, pool, None)), None)
  }

  // ----- The overlay on documents -----

  /** `applyNatTranslations`. */
  function Translations(r: Rule, i: NatInput): Result<Rule, NatError> {
    if i.snatInterface != "" && i.snatAddresses != [] then Err(BothSources)
    else if i.dnatPort.Some? && i.dnatAddress == "" then Err(PortNeedsAddress)
    else if i.dnatPort.Some? && !(MIN_PORT <= i.dnatPort.value <= MAX_PORT) then Err(PortOutOfRange)
    else
      var source := if i.snatInterface != "" then Some(ByInterface(i.snatInterface))
                    else if i.snatAddresses != [] then Some(ByPool(i.snatAddresses)) else r.source;
      var d := r.destination.GetOr(NEW_DESTINATION);
      var destination := if i.dnatAddress == "" then r.destination
                         else Some(d.(address := Some(i.dnatAddress), port := SetPtr(d.port, i.dnatPort)));
      Ok(r.(source := source, destination := destination))
  }

  function OverlayNat(r: Rule, i: NatInput): Result<Rule, NatError> {
    if i.natType != "" && !ValidNatType(i.natType) then Err(BadNatType)
    else Translations(r.(natType := SetStrPtr(r.natType, i.natType)), i)
  }

  function BuildNat(i: NatInput): Result<Rule, NatError> {
    if i.name == "" then Err(NameRequired) else OverlayNat(NEW_RULE, i)
  }

  // ----- The overlay in place -----

  class DestinationNode {
    var address: Option<string>
    var port: Option<int>
    var unmodeled: Option<string>

    constructor ()
      ensures View() == NEW_DESTINATION
    {
      address, port, unmodeled := None, None, None;
    }

    function View(): Destination
      reads this
    {
      Destination(address, port, unmodeled)
    }
  }

  class RuleEntry {
    var natType: Option<string>
    var source: Option<Source>
    var destination: DestinationNode?

    constructor ()
      ensures View() == NEW_RULE
    {
      natType, source, destination := None, None, null;
    }

    function View(): Rule
      reads this, destination
    {
      Rule(natType, source, if destination == null then None else Some(destination.View()))
    }

    /** `applyNatTranslations`: the source is set before the port is checked, so a failure may leave it edited. */
    method ApplyTranslations(i: NatInput) returns (err: Outcome<NatError>)
      modifies this, destination
      ensures match Translations(old(View()), i)
              case Ok(r) => err == Pass && View() == r
              case Err(e) => err == Fail(e)
    {
      if i.snatInterface != "" && |i.snatAddresses| > 0 {
        return Fail(BothSources);
      }
      if i.snatInterface != "" {
        source := Some(ByInterface(i.snatInterface));
      }
      if |i.snatAddresses| > 0 {
        source := Some(ByPool(i.snatAddresses));
      }
      if i.dnatPort.Some? && i.dnatAddress == "" {
        return Fail(PortNeedsAddress);
      }
      if i.dnatPort.Some? && (i.dnatPort.value < MIN_PORT || i.dnatPort.value > MAX_PORT) {
        return Fail(PortOutOfRange);
      }
      if i.dnatAddress != "" {
        var d := destination;
        if d == null {
          d := new DestinationNode();
        }
        d.address := Some(i.dnatAddress);
        if i.dnatPort.Some? {
          d.port := i.dnatPort;
        }
        destination := d;
      }
      err := Pass;
    }

    /** `overlayNatRule`, as far as the type and the translations go. */
    method Overlay(i: NatInput) returns (err: Outcome<NatError>)
      modifies this, destination
      ensures match OverlayNat(old(View()), i)
              case Ok(r) => err == Pass && View() == r
              case Err(e) => err == Fail(e)
    {
      if i.natType != "" {
        if !ValidNatType(i.natType) {
          return Fail(BadNatType);
        }
        natType := Some(i.natType);
      }
      err := ApplyTranslations(i);
    }
  }

  // ----- Runs of a create and updates -----

  /** The rule after a create and then updates, if all of them succeeded. */
  function RunNat(inputs: seq<NatInput>): Option<Rule> {
    if inputs == [] then None
    else
      var last := inputs[|inputs| - 1];
      var before := if |inputs| == 1 then None else RunNat(inputs[..|inputs| - 1]);
      if |inputs| > 1 && before.None? then None
      else
        var r := if |inputs| == 1 then BuildNat(last) else OverlayNat(before.value, last);
        if r.Err? then None else Some(r.value)
  }

  /** The last input that asks for a source translation. */
  function LastNaming(inputs: seq<NatInput>): (last: Option<NatInput>)
    ensures last.Some? ==> last.value.snatInterface != "" || last.value.snatAddresses != []
  {
    if inputs == [] then None
    else
      var last := inputs[|inputs| - 1];
      if last.snatInterface != "" || last.snatAddresses != [] then Some(last) else LastNaming(inputs[..|inputs| - 1])
  }

  /** The source is translated as this input asks: by the interface it names, or by the addresses it lists. */
  predicate AsAsked(source: Option<Source>, i: NatInput) {
    && source.Some? && source.value.unmodeled.None? && source.value.dynamic.Some?
    && source.value.dynamic.value
       == if i.snatInterface != "" then Dynamic(Some(Some(i.snatInterface)), [], None)
          else Dynamic(None, i.snatAddresses, None)
  }

  function LastNatType(inputs: seq<NatInput>): string {
    if inputs == [] then ""
    else if inputs[|inputs| - 1].natType != "" then inputs[|inputs| - 1].natType
    else LastNatType(inputs[..|inputs| - 1])
  }

  function LastAddress(inputs: seq<NatInput>): string {
    if inputs == [] then ""
    else if inputs[|inputs| - 1].dnatAddress != "" then inputs[|inputs| - 1].dnatAddress
    else LastAddress(inputs[..|inputs| - 1])
  }

  function LastPort(inputs: seq<NatInput>): Option<int> {
    if inputs == [] then None
    else if inputs[|inputs| - 1].dnatPort.Some? then inputs[|inputs| - 1].dnatPort
    else LastPort(inputs[..|inputs| - 1])
  }

  /** One way to translate the source, and a destination with an address and at most a port in range. */
  predicate Sound(r: Rule) {
    && (r.source.Some? ==>
          && r.source.value.unmodeled.None? && r.source.value.dynamic.Some?
          && var d := r.source.value.dynamic.value;
             && d.unmodeled.None?
             && (d.interface.Some? <==> d.pool == [])
             && (d.interface.Some? ==> StrVal(d.interface.value) != ""))
    && (r.destination.Some? ==>
          && StrVal(r.destination.value.address) != "" && r.destination.value.unmodeled.None?
          && (r.destination.value.port.Some? ==> 1 <= r.destination.value.port.value <= 65535))
  }

  /** Exactly which inputs are accepted, whatever the rule, and what is wrong with the others. */
  lemma OverlayAccepts(r: Rule, i: NatInput)
    ensures OverlayNat(r, i).Ok? <==>
              && i.natType in {"", "ipv4", "nat64", "nptv6"}
              && (i.snatInterface == "" || i.snatAddresses == [])
              && (i.dnatPort.Some? ==> i.dnatAddress != "" && 1 <= i.dnatPort.value <= 65535)
    ensures OverlayNat(r, i).Err? ==>
              OverlayNat(r, i).error
              == if i.natType !in {"", "ipv4", "nat64", "nptv6"} then BadNatType
                 else if i.snatInterface != "" && i.snatAddresses != [] then BothSources
                 else if i.dnatAddress == "" then PortNeedsAddress else PortOutOfRange
    ensures BuildNat(i).Ok? <==> i.name != "" && OverlayNat(NEW_RULE, i).Ok?
  {
  }

  /**
   * After a create and any successful updates: the source is translated as last asked for, by an interface or by a
   * pool but never both; the destination address is the last one given and the port the last one ever given, which an
   * update of the address alone does not drop; and there is no port without an address.
   */
  lemma {:induction false} NatHistory(inputs: seq<NatInput>)
    requires RunNat(inputs).Some?
    ensures var r := RunNat(inputs).value;
            && Sound(r)
            && r.natType == (if LastNatType(inputs) != "" then Some(LastNatType(inputs)) else None)
            && (match LastNaming(inputs)
                case None => r.source == None
                case Some(i) => AsAsked(r.source, i))
            && (r.destination.Some? <==> LastAddress(inputs) != "")
            && (r.destination.Some? ==>
                  r.destination.value == Destination(Some(LastAddress(inputs)), LastPort(inputs), None))
            && (r.destination.None? ==> LastPort(inputs).None?)
  {
    var m := |inputs| - 1;
    if m > 0 {
      NatHistory(inputs[..m]);
    } else {
      assert inputs[..m] == [];
    }
  }

  /** A rule after updates, if all of them succeeded. */
  function RunUpdates(r: Rule, inputs: seq<NatInput>): Option<Rule> {
    if inputs == [] then Some(r)
    else
      var before := RunUpdates(r, inputs[..|inputs| - 1]);
      if before.None? then None
      else
        var after := OverlayNat(before.value, inputs[|inputs| - 1]);
        if after.Err? then None else Some(after.value)
  }

  /**
   * The same for updates of a rule another tool made, whatever it held: what no input asked for is kept. So an update
   * of the address alone keeps the port and the DNS rewrite, which replacing the subtree would drop.
   */
  lemma {:induction false} UpdateHistory(r: Rule, inputs: seq<NatInput>)
    requires RunUpdates(r, inputs).Some?
    ensures var after, d := RunUpdates(r, inputs).value, r.destination.GetOr(NEW_DESTINATION);
            && after.natType == (if LastNatType(inputs) != "" then Some(LastNatType(inputs)) else r.natType)
            && (match LastNaming(inputs)
                case None => after.source == r.source
                case Some(i) => AsAsked(after.source, i))
            && (LastAddress(inputs) == "" ==> after.destination == r.destination && LastPort(inputs).None?)
            && (LastAddress(inputs) != "" ==>
                  after.destination
                  == Some(Destination(Some(LastAddress(inputs)), SetPtr(d.port, LastPort(inputs)), d.unmodeled)))
  {
    if inputs != [] {
      UpdateHistory(r, inputs[..|inputs| - 1]);
    }
  }

  // ----- The detail, and rebuilding from it -----

  datatype Detail = Detail(
    snatInterface: Option<string>, snatAddresses: Option<seq<string>>,
    dnatAddress: Option<string>, dnatPort: Option<int>)

  /** `natRuleDetail`, as far as the translations go; a key left out is None. */
  function RuleDetail(r: Rule): Detail {
    var dynamic := if r.source.Some? then r.source.value.dynamic else None;
    Detail(
      if dynamic.Some? && dynamic.value.interface.Some? then Some(StrVal(dynamic.value.interface.value)) else None,
      if dynamic.Some? && dynamic.value.pool != [] then Some(dynamic.value.pool) else None,
      if r.destination.Some? then Some(StrVal(r.destination.value.address)) else None,
      if r.destination.Some? then r.destination.value.port else None)
  }

  /**
   * The detail after a run that asked for a source translation, on any rule: the interface or the whole address list
   * last given, and not the other.
   */
  lemma DetailShowsSource(r: Rule, inputs: seq<NatInput>)
    requires RunUpdates(r, inputs).Some? && LastNaming(inputs).Some?
    ensures var i, d := LastNaming(inputs).value, RuleDetail(RunUpdates(r, inputs).value);
            if i.snatInterface != "" then d.snatInterface == Some(i.snatInterface) && d.snatAddresses == None
            else d.snatInterface == None && d.snatAddresses == Some(i.snatAddresses)
  {
    UpdateHistory(r, inputs);
  }

  /** The same of a rule these tools made, and its destination: the address and the port last given. */
  lemma DetailOfCreated(inputs: seq<NatInput>)
    requires RunNat(inputs).Some?
    ensures var d := RuleDetail(RunNat(inputs).value);
            && (match LastNaming(inputs)
                case None => d.snatInterface == None && d.snatAddresses == None
                case Some(i) =>
                  if i.snatInterface != "" then d.snatInterface == Some(i.snatInterface) && d.snatAddresses == None
                  else d.snatInterface == None && d.snatAddresses == Some(i.snatAddresses))
            && d.dnatAddress == (if LastAddress(inputs) == "" then None else Some(LastAddress(inputs)))
            && d.dnatPort == LastPort(inputs)
  {
    NatHistory(inputs);
  }

  /** The translation inputs a detail spells out, for a rule of that name. */
  function AsInput(name: string, d: Detail): NatInput {
    NatInput(name, "", d.snatInterface.GetOr(""), d.snatAddresses.GetOr([]), d.dnatAddress.GetOr(""), d.dnatPort)
  }

  /** A rule these tools made can be made again from its detail, and updated with it to no effect. */
  lemma DetailRebuilds(inputs: seq<NatInput>, name: string)
    requires RunNat(inputs).Some? && name != ""
    ensures var r := RunNat(inputs).value;
            var again := AsInput(name, RuleDetail(r));
            && BuildNat(again).Ok? && BuildNat(again).value == r.(natType := None)
            && OverlayNat(r, again) == Ok(r)
  {
    NatHistory(inputs);
  }
}
