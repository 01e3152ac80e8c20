/** Operational-command parsers: the recognized-shape scan and the interface join. */
module OpParsers {
  import opened Wrappers
  import opened Sequences

  // ----- innerHasRecognizedShape -----

  /** The XML tokens the decoder delivers; text, comments and CDATA are all `Other`. */
  datatype Token = Start(name: string) | End | Other

  /** A well-formed XML fragment as its first item, that item's content, and what follows it. */
  datatype Forest =
    | Empty
    | Leaf(next: Forest)
    | Element(name: string, content: Forest, next: Forest)

  function Tokens(f: Forest): seq<Token> {
    match f
    case Empty => []
    case Leaf(next) => [Other] + Tokens(next)
    case Element(name, content, next) => [Start(name)] + Tokens(content) + [End] + Tokens(next)
  }

  /** A root element named by `names` whose start token is among the first `n` tokens of `f`. */
  predicate RootStartsWithin(f: Forest, n: nat, names: seq<string>) {
    match f
    case Empty => false
    case Leaf(next) => n > 1 && RootStartsWithin(next, n - 1, names)
    case Element(name, content, next) =>
      var skip := |Tokens(content)| + 2;
      n > 0 && (name in names || (n > skip && RootStartsWithin(next, n - skip, names)))
  }

  predicate HasRootNamed(f: Forest, names: seq<string>) {
    match f
    case Empty => false
    case Leaf(next) => HasRootNamed(next, names)
    case Element(name, _, next) => name in names || HasRootNamed(next, names)
  }

  /** The scan with its depth counter, on the tokens delivered before the decoder stops with an error or EOF. */
  function Scan(tokens: seq<Token>, depth: int, names: seq<string>): bool {
    if tokens == [] then false
    else match tokens[0]
      case Start(name) => (depth == 0 && name in names) || Scan(tokens[1..], depth + 1, names)
      case End => Scan(tokens[1..], depth - 1, names)
      case Other => Scan(tokens[1..], depth, names)
  }

  method InnerHasRecognizedShape(tokens: seq<Token>, names: seq<string>) returns (found: bool)
    ensures found == Scan(tokens, 0, names)
  {
    var depth := 0;
    for i := 0 to |tokens|
      invariant Scan(tokens, 0, names) == Scan(tokens[i..], depth, names)
    {
      assert tokens[i..][1..] == tokens[i + 1..];
      match tokens[i]
      case Start(name) =>
        if depth == 0 {
          for n := 0 to |names|
            invariant name !in names[..n]
          {
            if names[n] == name {
              return true;
            }
            assert names[..n + 1] == names[..n] + [names[n]];
          }
          assert names[..|names|] == names;
        }
        depth := depth + 1;
      case End =>
        depth := depth - 1;
      case Other =>
    }
    found := false;
  }

  /** Below depth 0 a balanced fragment is skipped whole; a cut inside it ends the scan without a match. */
  lemma {:induction false} NestedIgnored(f: Forest, rest: seq<Token>, depth: nat, names: seq<string>)
    requires depth > 0
    ensures Scan(Tokens(f) + rest, depth, names) == Scan(rest, depth, names)
  {
    match f
    case Empty =>
      assert Tokens(f) + rest == rest;
    case Leaf(next) =>
      assert (Tokens(f) + rest)[1..] == Tokens(next) + rest;
      NestedIgnored(next, rest, depth, names);
    case Element(name, content, next) =>
      var after := Tokens(next) + rest;
      assert (Tokens(f) + rest)[1..] == Tokens(content) + ([End] + after);
      NestedIgnored(content, [End] + after, depth + 1, names);
      assert ([End] + after)[1..] == after;
      NestedIgnored(next, rest, depth, names);
  }

  /** An element's content and its end tag bring the scan back to the depth the element started at. */
  lemma ContentIgnored(content: Forest, after: seq<Token>, depth: nat, names: seq<string>)
    ensures Scan(Tokens(content) + ([End] + after), depth + 1, names) == Scan(after, depth, names)
  {
    NestedIgnored(content, [End] + after, depth + 1, names);
    assert ([End] + after)[1..] == after;
  }

  /** Where a cut through a fragment falls: in what follows its first item, or inside that item. */
  lemma CutLeaf(next: Forest, n: nat)
    requires 0 < n <= |Tokens(Leaf(next))|
    ensures Tokens(Leaf(next))[..n] == [Other] + Tokens(next)[..n - 1]
  {
  }

  lemma CutElement(name: string, content: Forest, next: Forest, n: nat)
    requires 0 < n <= |Tokens(Element(name, content, next))|
    ensures var t, inner := Tokens(Element(name, content, next))[..n], |Tokens(content)|;
            if n <= inner + 1 then t == [Start(name)] + Tokens(content)[..n - 1]
            else
              && n - inner - 2 <= |Tokens(next)|
              && t == [Start(name)] + (Tokens(content) + ([End] + Tokens(next)[..n - inner - 2]))
  {
  }

  lemma ScanFirst(t: Token, rest: seq<Token>, depth: int, names: seq<string>)
    ensures Scan([t] + rest, depth, names)
            == match t
               case Start(name) => (depth == 0 && name in names) || Scan(rest, depth + 1, names)
               case End => Scan(rest, depth - 1, names)
               case Other => Scan(rest, depth, names)
  {
    assert ([t] + rest)[1..] == rest;
  }

  lemma {:induction false} NestedCutIgnored(f: Forest, n: nat, depth: nat, names: seq<string>)
    requires depth > 0 && n <= |Tokens(f)|
    ensures !Scan(Tokens(f)[..n], depth, names)
  {
    if n > 0 {
      match f
      case Leaf(next) =>
        CutLeaf(next, n);
        ScanFirst(Other, Tokens(next)[..n - 1], depth, names);
        NestedCutIgnored(next, n - 1, depth, names);
      case Element(name, content, next) =>
        var inner := |Tokens(content)|;
        CutElement(name, content, next, n);
        if n <= inner + 1 {
          ScanFirst(Start(name), Tokens(content)[..n - 1], depth, names);
          NestedCutIgnored(content, n - 1, depth + 1, names);
        } else {
          var after := Tokens(next)[..n - inner - 2];
          ScanFirst(Start(name), Tokens(content) + ([End] + after), depth, names);
          ContentIgnored(content, after, depth, names);
          NestedCutIgnored(next, n - inner - 2, depth, names);
        }
    }
  }

  /** Cut anywhere by an error, the scan succeeds exactly when a named root starts before the cut. */
  lemma {:induction false} ScanFindsRoots(f: Forest, n: nat, names: seq<string>)
    requires n <= |Tokens(f)|
    ensures Scan(Tokens(f)[..n], 0, names) <==> RootStartsWithin(f, n, names)
  {
    if n > 0 {
      match f
      case Leaf(next) =>
        CutLeaf(next, n);
        ScanFirst(Other, Tokens(next)[..n - 1], 0, names);
        ScanFindsRoots(next, n - 1, names);
      case Element(name, content, next) =>
        var inner := |Tokens(content)|;
        CutElement(name, content, next, n);
        if n <= inner + 1 {
          ScanFirst(Start(name), Tokens(content)[..n - 1], 0, names);
          NestedCutIgnored(content, n - 1, 1, names);
        } else {
          var after := Tokens(next)[..n - inner - 2];
          ScanFirst(Start(name), Tokens(content) + ([End] + after), 0, names);
          ContentIgnored(content, after, 0, names);
          ScanFindsRoots(next, n - inner - 2, names);
        }
    }
  }

  lemma {:induction false} WholeForest(f: Forest, names: seq<string>)
    ensures RootStartsWithin(f, |Tokens(f)|, names) <==> HasRootNamed(f, names)
  {
    match f
    case Empty =>
    case Leaf(next) =>
      WholeForest(next, names);
    case Element(name, content, next) =>
      WholeForest(next, names);
  }

  /** On the whole of a well-formed fragment the scan succeeds exactly when some root has one of the names. */
  lemma RecognizedShapeIsRootNamed(f: Forest, names: seq<string>)
    ensures Scan(Tokens(f), 0, names) <==> HasRootNamed(f, names)
  {
    assert Tokens(f)[..|Tokens(f)|] == Tokens(f);
    ScanFindsRoots(f, |Tokens(f)|, names);
    WholeForest(f, names);
  }

  // ----- joinInterfaces -----

  datatype HwEntry = HwEntry(name: string, state: string, mac: string, st: string)

  datatype IfnetEntry = IfnetEntry(name: string, ip: string, zone: string, fwd: string, vsys: string)

  /** One record of the result, as a value. */
  datatype Interface = Interface(
    name: string, state: string, mac: string, status: string,
    ip: string, zone: string, forwarding: string, vsys: string)

  /** The shared, mutable record the join keeps per name. */
  class Record {
    var view: Interface

    constructor (name: string)
      ensures view == Interface(name, "", "", "", "", "", "", "")
    {
      view := Interface(name, "", "", "", "", "", "", "");
    }
  }

  function Names(hw: seq<HwEntry>, ifnet: seq<IfnetEntry>): seq<string> {
    seq(|hw|, i requires 0 <= i < |hw| => hw[i].name) + seq(|ifnet|, i requires 0 <= i < |ifnet| => ifnet[i].name)
  }

  /** The last hardware entry of that name. */
  function LastHw(hw: seq<HwEntry>, name: string): Option<HwEntry> {
    if hw == [] then None
    else if hw[|hw| - 1].name == name then Some(hw[|hw| - 1])
    else LastHw(hw[..|hw| - 1], name)
  }

  /** The last layer-3 entry of that name. */
  function LastIfnet(ifnet: seq<IfnetEntry>, name: string): Option<IfnetEntry> {
    if ifnet == [] then None
    else if ifnet[|ifnet| - 1].name == name then Some(ifnet[|ifnet| - 1])
    else LastIfnet(ifnet[..|ifnet| - 1], name)
  }

  /** The record a name deserves: hardware fields from one list, layer-3 fields from the other. */
  function Joined(hw: seq<HwEntry>, ifnet: seq<IfnetEntry>, name: string): Interface {
    var h := LastHw(hw, name).GetOr(HwEntry(name, "", "", ""));
    var n := LastIfnet(ifnet, name).GetOr(IfnetEntry(name, "", "", "", ""));
    Interface(name, h.state, h.mac, h.st, n.ip, n.zone, n.fwd, n.vsys)
  }

  /** The declarative join: one record per distinct name, in first-seen order over both lists. */
  function Join(hw: seq<HwEntry>, ifnet: seq<IfnetEntry>): (out: seq<Interface>) {
    var names := FirstSeen(Names(hw, ifnet));
    seq(|names|, i requires 0 <= i < |names| => Joined(hw, ifnet, names[i]))
  }

  /** The records built so far are exactly the joined prefixes, one object per distinct name. */
  ghost predicate Built(byName: map<string, Record>, order: seq<string>, hw: seq<HwEntry>, ifnet: seq<IfnetEntry>)
    reads byName.Values
  {
    && order == FirstSeen(Names(hw, ifnet))
    && (forall name :: name in byName <==> name in order)
    && (forall name | name in byName :: byName[name].view == Joined(hw, ifnet, name))
    && (forall a, b | a in byName && b in byName && a != b :: byName[a] != byName[b])
  }

  lemma HwStep(hw: seq<HwEntry>, h: HwEntry, name: string)
    ensures FirstSeen(Names(hw + [h], [])) ==
            var front := FirstSeen(Names(hw, [])); if h.name in front then front else front + [h.name]
    ensures Joined(hw + [h], [], name) ==
            var was := Joined(hw, [], name);
            if name == h.name then was.(state := h.state, mac := h.mac, status := h.st) else was
  {
    assert (hw + [h])[..|hw|] == hw;
    assert Names(hw + [h], []) == Names(hw, []) + [h.name];
    assert (Names(hw, []) + [h.name])[..|hw|] == Names(hw, []);
  }

  lemma IfnetStep(hw: seq<HwEntry>, ifnet: seq<IfnetEntry>, n: IfnetEntry, name: string)
    ensures FirstSeen(Names(hw, ifnet + [n])) ==
            var front := FirstSeen(Names(hw, ifnet)); if n.name in front then front else front + [n.name]
    ensures Joined(hw, ifnet + [n], name) ==
            var was := Joined(hw, ifnet, name);
            if name == n.name then was.(ip := n.ip, zone := n.zone, forwarding := n.fwd, vsys := n.vsys) else was
  {
    assert (ifnet + [n])[..|ifnet|] == ifnet;
    assert Names(hw, ifnet + [n]) == Names(hw, ifnet) + [n.name];
    assert (Names(hw, ifnet) + [n.name])[..|hw| + |ifnet|] == Names(hw, ifnet);
  }

  /** A name neither list has is joined to a blank record. */
  lemma UnknownIsBlank(hw: seq<HwEntry>, ifnet: seq<IfnetEntry>, name: string)
    requires name !in Names(hw, ifnet)
    ensures Joined(hw, ifnet, name) == Interface(name, "", "", "", "", "", "", "")
  {
    var names := Names(hw, ifnet);
    assert forall i :: 0 <= i < |hw| ==> names[i] == hw[i].name;
    assert forall i :: 0 <= i < |ifnet| ==> names[|hw| + i] == ifnet[i].name;
    UnknownHw(hw, name);
    UnknownIfnet(ifnet, name);
  }

  lemma UnknownHw(hw: seq<HwEntry>, name: string)
    requires forall i :: 0 <= i < |hw| ==> hw[i].name != name
    ensures LastHw(hw, name) == None
  {
  }

  lemma UnknownIfnet(ifnet: seq<IfnetEntry>, name: string)
    requires forall i :: 0 <= i < |ifnet| ==> ifnet[i].name != name
    ensures LastIfnet(ifnet, name) == None
  {
  }

  method JoinInterfaces(hw: seq<HwEntry>, ifnet: seq<IfnetEntry>) returns (out: seq<Interface>)
    ensures out == Join(hw, ifnet)
  {
    var byName, order := JoinHardware(hw);
    for i := 0 to |ifnet|
      invariant Built(byName, order, hw, ifnet[..i]) && fresh(byName.Values)
    {
      assert ifnet[..i + 1] == ifnet[..i] + [ifnet[i]];
      byName, order := MergeIfnet(byName, order, ifnet[i], hw, ifnet[..i]);
    }
    assert ifnet[..|ifnet|] == ifnet;
    out := Records(byName, order, hw, ifnet);
  }

  method JoinHardware(hw: seq<HwEntry>) returns (byName: map<string, Record>, order: seq<string>)
    ensures Built(byName, order, hw, []) && fresh(byName.Values)
  {
    byName, order := map[], [];
    for i := 0 to |hw|
      invariant Built(byName, order, hw[..i], []) && fresh(byName.Values)
    {
      assert hw[..i + 1] == hw[..i] + [hw[i]];
      byName, order := MergeHw(byName, order, hw[i], hw[..i]);
    }
    assert hw[..|hw|] == hw;
  }

  method Records(byName: map<string, Record>, order: seq<string>, ghost hw: seq<HwEntry>, ghost ifnet: seq<IfnetEntry>)
    returns (out: seq<Interface>)
    requires Built(byName, order, hw, ifnet)
    ensures out == Join(hw, ifnet)
  {
    out := [];
    for i := 0 to |order|
      invariant |out| == i && forall j :: 0 <= j < i ==> out[j] == Joined(hw, ifnet, order[j])
    {
      out := out + [byName[order[i]].view];
    }
  }

  /** One turn of the hardware loop. */
  method MergeHw(byName: map<string, Record>, order: seq<string>, h: HwEntry, ghost hw: seq<HwEntry>)
    returns (byName': map<string, Record>, order': seq<string>)
    requires Built(byName, order, hw, [])
    modifies byName.Values
    ensures Built(byName', order', hw + [h], []) && fresh(byName'.Values - byName.Values)
  {
    var m;
    byName', order', m := RecordFor(byName, order, h.name);
    if h.name !in order {
      FirstSeenMembers(Names(hw, []), h.name);
      UnknownIsBlank(hw, [], h.name);
    }
    m.view := m.view.(state := h.state, mac := h.mac, status := h.st);
    forall name ensures Joined(hw + [h], [], name) ==
                        var was := Joined(hw, [], name);
                        if name == h.name then was.(state := h.state, mac := h.mac, status := h.st) else was {
      HwStep(hw, h, name);
    }
    HwStep(hw, h, h.name);
  }

  /** One turn of the layer-3 loop. */
  method MergeIfnet(byName: map<string, Record>, order: seq<string>, n: IfnetEntry,
                    ghost hw: seq<HwEntry>, ghost ifnet: seq<IfnetEntry>)
    returns (byName': map<string, Record>, order': seq<string>)
    requires Built(byName, order, hw, ifnet)
    modifies byName.Values
    ensures Built(byName', order', hw, ifnet + [n]) && fresh(byName'.Values - byName.Values)
  {
    var m;
    byName', order', m := RecordFor(byName, order, n.name);
    if n.name !in order {
      FirstSeenMembers(Names(hw, ifnet), n.name);
      UnknownIsBlank(hw, ifnet, n.name);
    }
    m.view := m.view.(ip := n.ip, zone := n.zone, forwarding := n.fwd, vsys := n.vsys);
    forall name ensures Joined(hw, ifnet + [n], name) ==
                        var was := Joined(hw, ifnet, name);
                        if name == n.name then was.(ip := n.ip, zone := n.zone, forwarding := n.fwd, vsys := n.vsys)
                        else was {
      IfnetStep(hw, ifnet, n, name);
    }
    IfnetStep(hw, ifnet, n, n.name);
  }

  /** The `record` closure: the stored record of that name, or a blank one appended to the order. */
  method RecordFor(byName: map<string, Record>, order: seq<string>, name: string)
    returns (byName': map<string, Record>, order': seq<string>, m: Record)
    ensures name in byName ==> byName' == byName && order' == order && m == byName[name]
    ensures name !in byName ==>
              && fresh(m) && m.view == Interface(name, "", "", "", "", "", "", "")
              && byName' == byName[name := m] && order' == order + [name]
  {
    byName', order' := byName, order;
    if name in byName {
      m := byName[name];
    } else {
      m := new Record(name);
      byName', order' := byName[name := m], order + [name];
    }
  }

  /** `filterInterfaceByName`. */
  method FilterInterfaceByName(ifaces: seq<Interface>, want: string) returns (out: seq<Interface>)
    ensures out == Named(ifaces, want)
  {
    out := [];
    for i := 0 to |ifaces|
      invariant out == Named(ifaces[..i], want)
    {
      assert ifaces[..i + 1][..i] == ifaces[..i];
      if ifaces[i].name == want {
        out := out + [ifaces[i]];
      }
    }
    assert ifaces[..|ifaces|] == ifaces;
  }

  function Named(ifaces: seq<Interface>, want: string): seq<Interface> {
    if ifaces == [] then []
    else
      var m := |ifaces| - 1;
      Named(ifaces[..m], want) + if ifaces[m].name == want then [ifaces[m]] else []
  }

  lemma {:induction false} NamedOnce(ifaces: seq<Interface>, want: string)
    requires forall i, j :: 0 <= i < j < |ifaces| ==> ifaces[i].name != ifaces[j].name
    ensures |Named(ifaces, want)| <= 1
    ensures forall i :: 0 <= i < |ifaces| && ifaces[i].name == want ==> Named(ifaces, want) == [ifaces[i]]
    ensures (forall i :: 0 <= i < |ifaces| ==> ifaces[i].name != want) ==> Named(ifaces, want) == []
  {
    if ifaces != [] {
      NamedOnce(ifaces[..|ifaces| - 1], want);
    }
  }

  /** Filtering a join by name yields the one record of that name, or nothing when neither list has it. */
  lemma FilteredJoin(hw: seq<HwEntry>, ifnet: seq<IfnetEntry>, want: string)
    ensures Named(Join(hw, ifnet), want) == if want in Names(hw, ifnet) then [Joined(hw, ifnet, want)] else []
  {
    var names := FirstSeen(Names(hw, ifnet));
    var ifaces := Join(hw, ifnet);
    FirstSeenDistinct(Names(hw, ifnet));
    FirstSeenMembers(Names(hw, ifnet), want);
    assert forall i :: 0 <= i < |ifaces| ==> ifaces[i].name == names[i];
    NamedOnce(ifaces, want);
    if want in names {
      var i :| 0 <= i < |names| && names[i] == want;
      assert ifaces[i].name == want;
    }
  }

  lemma {:induction false} LastHwIs(hw: seq<HwEntry>, name: string)
    ensures match LastHw(hw, name)
            case None => forall k :: 0 <= k < |hw| ==> hw[k].name != name
            case Some(h) =>
              exists k :: 0 <= k < |hw| && hw[k] == h && h.name == name
                          && forall j :: k < j < |hw| ==> hw[j].name != name
  {
    if hw != [] && hw[|hw| - 1].name != name {
      var front := hw[..|hw| - 1];
      LastHwIs(front, name);
      if LastHw(front, name).Some? {
        var h := LastHw(front, name).value;
        var k :| 0 <= k < |front| && front[k] == h && h.name == name
                 && forall j :: k < j < |front| ==> front[j].name != name;
        assert hw[k] == h && forall j :: k < j < |hw| ==> hw[j].name != name;
      } else {
        assert forall k :: 0 <= k < |front| ==> front[k] == hw[k];
      }
    }
  }

  lemma {:induction false} LastIfnetIs(ifnet: seq<IfnetEntry>, name: string)
    ensures match LastIfnet(ifnet, name)
            case None => forall k :: 0 <= k < |ifnet| ==> ifnet[k].name != name
            case Some(n) =>
              exists k :: 0 <= k < |ifnet| && ifnet[k] == n && n.name == name
                          && forall j :: k < j < |ifnet| ==> ifnet[j].name != name
  {
    if ifnet != [] && ifnet[|ifnet| - 1].name != name {
      var front := ifnet[..|ifnet| - 1];
      LastIfnetIs(front, name);
      if LastIfnet(front, name).Some? {
        var n := LastIfnet(front, name).value;
        var k :| 0 <= k < |front| && front[k] == n && n.name == name
                 && forall j :: k < j < |front| ==> front[j].name != name;
        assert ifnet[k] == n && forall j :: k < j < |ifnet| ==> ifnet[j].name != name;
      } else {
        assert forall k :: 0 <= k < |front| ==> front[k] == ifnet[k];
      }
    }
  }

  /** Hardware fields are those of the last hardware entry of the name, or empty. */
  ghost predicate HardwareOf(r: Interface, hw: seq<HwEntry>) {
    || ((forall k :: 0 <= k < |hw| ==> hw[k].name != r.name) && r.state == "" && r.mac == "" && r.status == "")
    || exists k :: 0 <= k < |hw| && hw[k] == HwEntry(r.name, r.state, r.mac, r.status)
                   && forall j :: k < j < |hw| ==> hw[j].name != r.name
  }

  /** Layer-3 fields are those of the last layer-3 entry of the name, or empty. */
  ghost predicate Layer3Of(r: Interface, ifnet: seq<IfnetEntry>) {
    || ((forall k :: 0 <= k < |ifnet| ==> ifnet[k].name != r.name)
        && r.ip == "" && r.zone == "" && r.forwarding == "" && r.vsys == "")
    || exists k :: 0 <= k < |ifnet| && ifnet[k] == IfnetEntry(r.name, r.ip, r.zone, r.forwarding, r.vsys)
                   && forall j :: k < j < |ifnet| ==> ifnet[j].name != r.name
  }

  lemma JoinedMeans(hw: seq<HwEntry>, ifnet: seq<IfnetEntry>, name: string)
    ensures var r := Joined(hw, ifnet, name); r.name == name && HardwareOf(r, hw) && Layer3Of(r, ifnet)
  {
    LastHwIs(hw, name);
    LastIfnetIs(ifnet, name);
  }

  /**
   * What the join is: one record for each name of either list, each with the fields of both, in the order in which the
   * names first appear, hardware before layer 3.
   */
  lemma JoinMeans(hw: seq<HwEntry>, ifnet: seq<IfnetEntry>, i: nat, j: nat)
    requires i < |Join(hw, ifnet)|
    ensures HardwareOf(Join(hw, ifnet)[i], hw) && Layer3Of(Join(hw, ifnet)[i], ifnet)
    ensures i < j < |Join(hw, ifnet)| ==>
              var names := seq(|hw| + |ifnet|, k requires 0 <= k < |hw| + |ifnet| =>
                             if k < |hw| then hw[k].name else ifnet[k - |hw|].name);
              First(names, Join(hw, ifnet)[i].name) < First(names, Join(hw, ifnet)[j].name)
  {
    JoinedMeans(hw, ifnet, FirstSeen(Names(hw, ifnet))[i]);
    if i < j < |Join(hw, ifnet)| {
      FirstSeenOrdered(Names(hw, ifnet), i, j);
      NamesInWords(hw, ifnet);
    }
  }

  lemma NamesInWords(hw: seq<HwEntry>, ifnet: seq<IfnetEntry>)
    ensures Names(hw, ifnet) == seq(|hw| + |ifnet|, k requires 0 <= k < |hw| + |ifnet| =>
                                  if k < |hw| then hw[k].name else ifnet[k - |hw|].name)
  {
  }

  lemma JoinIsEmpty(hw: seq<HwEntry>, ifnet: seq<IfnetEntry>)
    ensures Join(hw, ifnet) == [] <==> hw == [] && ifnet == []
  {
    var names := Names(hw, ifnet);
    if names != [] {
      FirstSeenMembers(names, names[0]);
    }
  }

  /**
   * What `interfaceStatusHandler` makes of a response, `inner` being the content of its result and `blank` whether that
   * is only white space: nothing, when the raw content is reported instead, exactly when no interface was parsed from
   * content that has neither container; otherwise the joined records, or the one of the name asked for.
   */
  method InterfaceStatus(hw: seq<HwEntry>, ifnet: seq<IfnetEntry>, inner: Forest, blank: bool, name: string)
    returns (shown: Option<seq<Interface>>)
    ensures shown.None? <==> hw == [] && ifnet == [] && !HasRootNamed(inner, ["hw", "ifnet"]) && !blank
    ensures shown.Some? ==>
              shown.value == if name == "" then Join(hw, ifnet)
                             else if name in Names(hw, ifnet) then [Joined(hw, ifnet, name)] else []
  {
    var ifaces := JoinInterfaces(hw, ifnet);
    JoinIsEmpty(hw, ifnet);
    if |ifaces| == 0 {
      var recognized := InnerHasRecognizedShape(Tokens(inner), ["hw", "ifnet"]);
      RecognizedShapeIsRootNamed(inner, ["hw", "ifnet"]);
      if !recognized && !blank {
        return None;
      }
    }
    if name != "" {
      ifaces := FilterInterfaceByName(ifaces, name);
      FilteredJoin(hw, ifnet, name);
    }
    shown := Some(ifaces);
  }
}
