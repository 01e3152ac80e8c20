/** One entry of a log result: its fields grouped by key in first-seen order, and the projection onto wanted fields. */
module LogEntry {
  import opened Wrappers
  import opened Sequences
  import opened Decimal
  import opened Text

  datatype Field = Field(key: string, values: seq<string>)

  function Keys(fields: seq<Field>): (keys: seq<string>)
    ensures |keys| == |fields| && forall i :: 0 <= i < |fields| ==> keys[i] == fields[i].key
  {
    seq(|fields|, i requires 0 <= i < |fields| => fields[i].key)
  }

  // ----- What grouping means -----

  /** One call of `add`. */
  datatype Pair = Pair(key: string, value: string)

  function PairKeys(adds: seq<Pair>): (keys: seq<string>)
    ensures |keys| == |adds| && forall i :: 0 <= i < |adds| ==> keys[i] == adds[i].key
  {
    seq(|adds|, i requires 0 <= i < |adds| => adds[i].key)
  }

  /** The values added under a key, in order. */
  function ValuesOf(adds: seq<Pair>, key: string): seq<string> {
    if adds == [] then []
    else
      var last := adds[|adds| - 1];
      ValuesOf(adds[..|adds| - 1], key) + if last.key == key then [last.value] else []
  }

  /** One field for each distinct key, in first-seen order, with all of its values. */
  function Grouped(adds: seq<Pair>): (fields: seq<Field>)
    ensures Keys(fields) == FirstSeen(PairKeys(adds))
  {
    var keys := FirstSeen(PairKeys(adds));
    seq(|keys|, i requires 0 <= i < |keys| => Field(keys[i], ValuesOf(adds, keys[i])))
  }

  lemma PairKeysPush(adds: seq<Pair>, p: Pair)
    ensures PairKeys(adds + [p]) == PairKeys(adds) + [p.key]
    ensures FirstSeen(PairKeys(adds + [p]))
            == FirstSeen(PairKeys(adds)) + if p.key in PairKeys(adds) then [] else [p.key]
  {
    assert PairKeys(adds + [p]) == PairKeys(adds) + [p.key];
    assert (PairKeys(adds) + [p.key])[..|adds|] == PairKeys(adds);
    FirstSeenMembers(PairKeys(adds), p.key);
  }

  lemma ValuesPush(adds: seq<Pair>, p: Pair, key: string)
    ensures ValuesOf(adds + [p], key) == ValuesOf(adds, key) + if p.key == key then [p.value] else []
  {
    assert (adds + [p])[..|adds|] == adds;
  }

  lemma {:induction false} AbsentHasNoValues(adds: seq<Pair>, key: string)
    ensures ValuesOf(adds, key) == [] <==> key !in PairKeys(adds)
  {
    if adds != [] {
      var front, last := adds[..|adds| - 1], adds[|adds| - 1];
      AbsentHasNoValues(front, key);
      assert PairKeys(adds) == PairKeys(front) + [last.key];
    }
  }

  /** Adding under a key there is. */
  lemma GroupedHit(adds: seq<Pair>, p: Pair, i: nat)
    requires i < |Grouped(adds)| && Grouped(adds)[i].key == p.key
    ensures Grouped(adds + [p]) == Grouped(adds)[i := Field(p.key, Grouped(adds)[i].values + [p.value])]
  {
    var keys, fields, after := FirstSeen(PairKeys(adds)), Grouped(adds), Grouped(adds + [p]);
    PairKeysPush(adds, p);
    FirstSeenMembers(PairKeys(adds), p.key);
    FirstSeenDistinct(PairKeys(adds));
    assert keys[i] == p.key;
    assert |after| == |fields|;
    forall j | 0 <= j < |fields|
      ensures after[j] == if j == i then Field(p.key, fields[i].values + [p.value]) else fields[j]
    {
      ValuesPush(adds, p, keys[j]);
      assert j != i ==> keys[j] != keys[i];
    }
  }

  lemma GroupedAt(adds: seq<Pair>, j: nat)
    requires j < |FirstSeen(PairKeys(adds))|
    ensures |Grouped(adds)| == |FirstSeen(PairKeys(adds))|
    ensures Grouped(adds)[j]
            == Field(FirstSeen(PairKeys(adds))[j], ValuesOf(adds, FirstSeen(PairKeys(adds))[j]))
  {
  }

  /** Adding under a new key. */
  lemma GroupedMiss(adds: seq<Pair>, p: Pair)
    requires forall j :: 0 <= j < |Grouped(adds)| ==> Grouped(adds)[j].key != p.key
    ensures Grouped(adds + [p]) == Grouped(adds) + [Field(p.key, [p.value])]
  {
    var fields, after, keys, keys' := Grouped(adds), Grouped(adds + [p]), FirstSeen(PairKeys(adds)),
                                      FirstSeen(PairKeys(adds + [p]));
    assert p.key !in Keys(fields);
    FirstSeenMembers(PairKeys(adds), p.key);
    PairKeysPush(adds, p);
    AbsentHasNoValues(adds, p.key);
    assert |after| == |keys'| == |keys| + 1;
    forall j | 0 <= j < |after| ensures after[j] == if j < |keys| then fields[j] else Field(p.key, [p.value]) {
      GroupedAt(adds + [p], j);
      ValuesPush(adds, p, keys'[j]);
      if j < |keys| {
        GroupedAt(adds, j);
        assert keys'[j] == keys[j] == fields[j].key;
      }
    }
  }

  // ----- The entry, built in place -----

  /** A child element of an entry as decoded; `nested` is whether it has element children. */
  datatype Child = Child(name: string, attrs: seq<Pair>, text: string, inner: string, nested: bool)

  /** The adds for a list of attributes, under keys made from the element's name. */
  function AttrAdds(elem: string, attrs: seq<Pair>): seq<Pair> {
    seq(|attrs|, i requires 0 <= i < |attrs| => Pair(elem + "@" + attrs[i].key, attrs[i].value))
  }

  function ChildValue(c: Child): string {
    if c.nested then TrimSpace(c.inner) else c.text
  }

  function ChildAdds(c: Child): seq<Pair> {
    [Pair(c.name, ChildValue(c))] + AttrAdds(c.name, c.attrs)
  }

  /** The adds for an entry element up to its `n`-th child, in document order. */
  function AddsUpTo(attrs: seq<Pair>, children: seq<Child>, n: nat): seq<Pair>
    requires n <= |children|
  {
    if n == 0 then AttrAdds("", attrs) else AddsUpTo(attrs, children, n - 1) + ChildAdds(children[n - 1])
  }

  function EntryAdds(attrs: seq<Pair>, children: seq<Child>): seq<Pair> {
    AddsUpTo(attrs, children, |children|)
  }

  class LogEntry {
    var fields: seq<Field>
    /** Every call of `Add` since the entry was last cleared. */
    ghost var adds: seq<Pair>

    ghost predicate Valid()
      reads this
    {
      fields == Grouped(adds)
    }

    constructor ()
      ensures Valid() && adds == []
    {
      fields, adds := [], [];
    }

    method Add(key: string, value: string)
      requires Valid()
      modifies this
      ensures Valid() && adds == old(adds) + [Pair(key, value)]
    {
      ghost var p := Pair(key, value);
      for i := 0 to |fields|
        invariant adds == old(adds) && fields == old(fields)
        invariant forall j :: 0 <= j < i ==> fields[j].key != key
      {
        if fields[i].key == key {
          GroupedHit(adds, p, i);
          fields := fields[i := fields[i].(values := fields[i].values + [value])];
          adds := adds + [p];
          return;
        }
      }
      GroupedMiss(adds, p);
      fields := fields + [Field(key, [value])];
      adds := adds + [p];
    }

    method AddAttrs(elem: string, attrs: seq<Pair>)
      requires Valid()
      modifies this
      ensures Valid() && adds == old(adds) + AttrAdds(elem, attrs)
    {
      for i := 0 to |attrs|
        invariant Valid() && adds == old(adds) + AttrAdds(elem, attrs)[..i]
      {
        Add(elem + "@" + attrs[i].key, attrs[i].value);
      }
    }

    method AddChild(c: Child)
      requires Valid()
      modifies this
      ensures Valid() && adds == old(adds) + ChildAdds(c)
    {
      Add(c.name, if c.nested then TrimSpace(c.inner) else c.text);
      AddAttrs(c.name, c.attrs);
    }

    /** `UnmarshalXML` on an entry element that decodes to these attributes and children, or breaks after them. */
    method UnmarshalXML(attrs: seq<Pair>, children: seq<Child>, breaks: bool) returns (r: Outcome<()>)
      modifies this
      ensures Valid() && adds == EntryAdds(attrs, children)
      ensures r.Fail? <==> breaks
    {
      fields, adds := [], [];
      AddAttrs("", attrs);
      for i := 0 to |children|
        invariant Valid() && adds == AddsUpTo(attrs, children, i)
      {
        AddChild(children[i]);
      }
      r := if breaks then Fail(()) else Pass;
    }
  }

  /** Keys stay unique, in the order of their first add, and each has its values in the order they were added. */
  lemma GroupedMeans(adds: seq<Pair>)
    ensures var fields := Grouped(adds);
            && Distinct(Keys(fields))
            && (forall k :: k in Keys(fields) <==> k in PairKeys(adds))
            && (forall i, j :: 0 <= i < j < |fields| ==>
                  First(PairKeys(adds), fields[i].key) < First(PairKeys(adds), fields[j].key))
            && (forall i :: 0 <= i < |fields| ==>
                  fields[i].values == ValuesOf(adds, fields[i].key) && fields[i].values != [])
  {
    var keys, fields := PairKeys(adds), Grouped(adds);
    FirstSeenDistinct(keys);
    forall k ensures k in Keys(fields) <==> k in keys {
      FirstSeenMembers(keys, k);
    }
    forall i, j | 0 <= i < j < |fields| ensures First(keys, fields[i].key) < First(keys, fields[j].key) {
      FirstSeenOrdered(keys, i, j);
      assert Keys(fields)[i] == fields[i].key && Keys(fields)[j] == fields[j].key;
    }
    forall i | 0 <= i < |fields| ensures fields[i].values != [] {
      assert Keys(fields)[i] == fields[i].key;
      AbsentHasNoValues(adds, fields[i].key);
    }
  }

  // ----- Keys never collide -----

  /** Where a key comes from. */
  datatype Source = EntryAttr(attr: string) | Element(name: string) | ElementAttr(name: string, attr: string)

  /** A Name of section 2.3 of XML 1.0 is not empty and has no "@"; only that matters here. */
  predicate XmlName(s: string) {
    s != "" && '@' !in s
  }

  predicate Named(src: Source) {
    match src
    case EntryAttr(a) => XmlName(a)
    case Element(n) => XmlName(n)
    case ElementAttr(n, a) => XmlName(n) && XmlName(a)
  }

  function KeyOf(src: Source): string {
    match src
    case EntryAttr(a) => "@" + a
    case Element(n) => n
    case ElementAttr(n, a) => n + "@" + a
  }

  /** A key says where it came from. */
  function SourceOf(key: string): Source {
    var (elem, attr, has) := Cut(key, '@');
    if !has then Element(key) else if elem == "" then EntryAttr(attr) else ElementAttr(elem, attr)
  }

  lemma {:induction false} CutAt(before: string, after: string, sep: char)
    requires sep !in before
    ensures Cut(before + [sep] + after, sep) == (before, after, true)
  {
    var s := before + [sep] + after;
    if before == "" {
      assert s[0] == sep && s[1..] == after;
    } else {
      assert s[1..] == before[1..] + [sep] + after;
      assert before == [before[0]] + before[1..];
      CutAt(before[1..], after, sep);
    }
  }

  /** So entry attributes, elements and elements' attributes never share a field, nor do two of different names. */
  lemma SourceFromKey(src: Source)
    requires Named(src)
    ensures SourceOf(KeyOf(src)) == src
  {
    match src
    case EntryAttr(a) =>
      CutAt("", a, '@');
      assert "" + "@" + a == KeyOf(src);
    case Element(n) =>
    case ElementAttr(n, a) => CutAt(n, a, '@');
  }

  /** The values of the first `n` child elements that have the name, in document order. */
  function TextsUpTo(children: seq<Child>, name: string, n: nat): seq<string>
    requires n <= |children|
  {
    if n == 0 then []
    else
      var c := children[n - 1];
      TextsUpTo(children, name, n - 1)
      + if c.name == name then [if c.nested then TrimSpace(c.inner) else c.text] else []
  }

  function TextsOf(children: seq<Child>, name: string): seq<string> {
    TextsUpTo(children, name, |children|)
  }

  lemma {:induction false} ValuesConcat(a: seq<Pair>, b: seq<Pair>, key: string)
    ensures ValuesOf(a + b, key) == ValuesOf(a, key) + ValuesOf(b, key)
  {
    if b == [] {
      assert a + b == a;
    } else {
      var front, last := b[..|b| - 1], b[|b| - 1];
      ValuesConcat(a, front, key);
      assert (a + b)[..|a + b| - 1] == a + front;
    }
  }

  lemma AttrsElsewhere(elem: string, attrs: seq<Pair>, name: string)
    requires XmlName(name)
    ensures ValuesOf(AttrAdds(elem, attrs), name) == []
  {
    var adds := AttrAdds(elem, attrs);
    forall i | 0 <= i < |adds| ensures PairKeys(adds)[i] != name {
      assert adds[i].key[|elem|] == '@';
    }
    AbsentHasNoValues(adds, name);
  }

  lemma ChildValues(c: Child, name: string)
    requires XmlName(name)
    ensures ValuesOf(ChildAdds(c), name) == if c.name == name then [ChildValue(c)] else []
  {
    var text := Pair(c.name, ChildValue(c));
    ValuesConcat([text], AttrAdds(c.name, c.attrs), name);
    AttrsElsewhere(c.name, c.attrs, name);
    ValuesPush([], text, name);
    assert [] + [text] == [text];
  }

  lemma OneMoreChild(adds: seq<Pair>, c: Child, name: string)
    requires XmlName(name)
    ensures ValuesOf(adds + ChildAdds(c), name) == ValuesOf(adds, name) + if c.name == name then [ChildValue(c)] else []
  {
    ValuesConcat(adds, ChildAdds(c), name);
    ChildValues(c, name);
  }

  lemma {:induction false} ValuesUpTo(attrs: seq<Pair>, children: seq<Child>, name: string, n: nat)
    requires XmlName(name) && n <= |children|
    ensures ValuesOf(AddsUpTo(attrs, children, n), name) == TextsUpTo(children, name, n)
  {
    if n == 0 {
      AttrsElsewhere("", attrs, name);
    } else {
      ValuesUpTo(attrs, children, name, n - 1);
      var before, c := AddsUpTo(attrs, children, n - 1), children[n - 1];
      assert AddsUpTo(attrs, children, n) == before + ChildAdds(c);
      OneMoreChild(before, c, name);
    }
  }

  /** What a decoded entry holds under an element's name: the values of exactly those elements, attributes apart. */
  lemma ElementValues(attrs: seq<Pair>, children: seq<Child>, name: string)
    requires XmlName(name)
    ensures ValuesOf(EntryAdds(attrs, children), name) == TextsOf(children, name)
  {
    ValuesUpTo(attrs, children, name, |children|);
  }

  // ----- The values of attributes -----

  /** The values of the attributes of one name, in order. */
  function AttrTexts(attrs: seq<Pair>, name: string, n: nat): seq<string>
    requires n <= |attrs|
  {
    if n == 0 then []
    else AttrTexts(attrs, name, n - 1) + if attrs[n - 1].key == name then [attrs[n - 1].value] else []
  }

  /** The values of one attribute of the elements of one name, in document order. */
  function ElementAttrTexts(children: seq<Child>, elem: string, attr: string, n: nat): seq<string>
    requires n <= |children|
  {
    if n == 0 then []
    else
      var c := children[n - 1];
      ElementAttrTexts(children, elem, attr, n - 1)
      + if c.name == elem then AttrTexts(c.attrs, attr, |c.attrs|) else []
  }

  /** A key made of an element and an attribute tells both, if the element's name has no "@". */
  lemma KeySplits(elem: string, attr: string, elem': string, attr': string)
    requires '@' !in elem && '@' !in elem'
    ensures elem + "@" + attr == elem' + "@" + attr' <==> elem == elem' && attr == attr'
  {
    CutAt(elem, attr, '@');
    CutAt(elem', attr', '@');
  }

  lemma {:induction false} AttrValuesUpTo(elem: string, attrs: seq<Pair>, elem': string, attr: string, n: nat)
    requires '@' !in elem && '@' !in elem' && n <= |attrs|
    ensures ValuesOf(AttrAdds(elem, attrs)[..n], elem' + "@" + attr)
            == if elem == elem' then AttrTexts(attrs, attr, n) else []
  {
    var adds := AttrAdds(elem, attrs);
    if n > 0 {
      AttrValuesUpTo(elem, attrs, elem', attr, n - 1);
      PrefixPush(adds, n - 1);
      ValuesPush(adds[..n - 1], adds[n - 1], elem' + "@" + attr);
      KeySplits(elem, attrs[n - 1].key, elem', attr);
    }
  }

  lemma AttrValues(elem: string, attrs: seq<Pair>, elem': string, attr: string)
    requires '@' !in elem && '@' !in elem'
    ensures ValuesOf(AttrAdds(elem, attrs), elem' + "@" + attr)
            == if elem == elem' then AttrTexts(attrs, attr, |attrs|) else []
  {
    AttrValuesUpTo(elem, attrs, elem', attr, |attrs|);
    assert AttrAdds(elem, attrs)[..|attrs|] == AttrAdds(elem, attrs);
  }

  lemma ChildAttrValues(c: Child, elem: string, attr: string)
    requires '@' !in c.name && '@' !in elem
    ensures ValuesOf(ChildAdds(c), elem + "@" + attr)
            == if c.name == elem then AttrTexts(c.attrs, attr, |c.attrs|) else []
  {
    var text, key := Pair(c.name, ChildValue(c)), elem + "@" + attr;
    assert key[|elem|] == '@' && key != c.name;
    ValuesConcat([text], AttrAdds(c.name, c.attrs), key);
    AttrValues(c.name, c.attrs, elem, attr);
    ValuesPush([], text, key);
    assert [] + [text] == [text];
  }

  lemma OneMoreChildAttrs(adds: seq<Pair>, c: Child, elem: string, attr: string)
    requires '@' !in c.name && '@' !in elem
    ensures ValuesOf(adds + ChildAdds(c), elem + "@" + attr)
            == ValuesOf(adds, elem + "@" + attr) + if c.name == elem then AttrTexts(c.attrs, attr, |c.attrs|) else []
  {
    ValuesConcat(adds, ChildAdds(c), elem + "@" + attr);
    ChildAttrValues(c, elem, attr);
  }

  lemma {:induction false} AttributesUpTo(attrs: seq<Pair>, children: seq<Child>, elem: string, attr: string, n: nat)
    requires n <= |children| && '@' !in elem && forall i :: 0 <= i < |children| ==> XmlName(children[i].name)
    ensures ValuesOf(AddsUpTo(attrs, children, n), elem + "@" + attr)
            == if elem == "" then AttrTexts(attrs, attr, |attrs|) else ElementAttrTexts(children, elem, attr, n)
  {
    if n == 0 {
      AttrValues("", attrs, elem, attr);
    } else {
      AttributesUpTo(attrs, children, elem, attr, n - 1);
      var before, c := AddsUpTo(attrs, children, n - 1), children[n - 1];
      assert AddsUpTo(attrs, children, n) == before + ChildAdds(c);
      OneMoreChildAttrs(before, c, elem, attr);
    }
  }

  /** Under the key of an entry attribute are the values of exactly that attribute of the entry. */
  lemma EntryAttrValues(attrs: seq<Pair>, children: seq<Child>, attr: string)
    requires forall i :: 0 <= i < |children| ==> XmlName(children[i].name)
    ensures ValuesOf(EntryAdds(attrs, children), KeyOf(EntryAttr(attr))) == AttrTexts(attrs, attr, |attrs|)
  {
    AttributesUpTo(attrs, children, "", attr, |children|);
    assert "" + "@" + attr == "@" + attr;
  }

  /** Under the key of an element's attribute are those of exactly these elements, in document order. */
  lemma ElementAttrValues(attrs: seq<Pair>, children: seq<Child>, elem: string, attr: string)
    requires XmlName(elem) && forall i :: 0 <= i < |children| ==> XmlName(children[i].name)
    ensures ValuesOf(EntryAdds(attrs, children), KeyOf(ElementAttr(elem, attr)))
            == ElementAttrTexts(children, elem, attr, |children|)
  {
    AttributesUpTo(attrs, children, elem, attr, |children|);
  }

  // ----- Document order -----

  /** Where the adds of a list of attributes come from. */
  function AttrSources(elem: Option<string>, attrs: seq<Pair>): seq<Source> {
    seq(|attrs|, i requires 0 <= i < |attrs| =>
      if elem.None? then EntryAttr(attrs[i].key) else ElementAttr(elem.value, attrs[i].key))
  }

  /** An entry in document order: its attributes, and then each child with its own. */
  function DocumentOrder(attrs: seq<Pair>, children: seq<Child>, n: nat): seq<Source>
    requires n <= |children|
  {
    if n == 0 then AttrSources(None, attrs)
    else
      var c := children[n - 1];
      DocumentOrder(attrs, children, n - 1) + ([Element(c.name)] + AttrSources(Some(c.name), c.attrs))
  }

  function KeysOf(sources: seq<Source>): seq<string> {
    seq(|sources|, i requires 0 <= i < |sources| => KeyOf(sources[i]))
  }

  lemma AttrKeys(elem: Option<string>, attrs: seq<Pair>)
    ensures PairKeys(AttrAdds(elem.GetOr(""), attrs)) == KeysOf(AttrSources(elem, attrs))
  {
    if elem.None? {
      assert forall i :: 0 <= i < |attrs| ==> "" + "@" + attrs[i].key == "@" + attrs[i].key;
    }
  }

  lemma PairKeysConcat(a: seq<Pair>, b: seq<Pair>)
    ensures PairKeys(a + b) == PairKeys(a) + PairKeys(b)
  {
  }

  lemma KeysOfConcat(a: seq<Source>, b: seq<Source>)
    ensures KeysOf(a + b) == KeysOf(a) + KeysOf(b)
  {
  }

  /** The keys are added in document order, so fields appear in the order in which the document first has them. */
  lemma {:induction false} KeysInDocumentOrder(attrs: seq<Pair>, children: seq<Child>, n: nat)
    requires n <= |children|
    ensures PairKeys(AddsUpTo(attrs, children, n)) == KeysOf(DocumentOrder(attrs, children, n))
  {
    if n == 0 {
      AttrKeys(None, attrs);
    } else {
      KeysInDocumentOrder(attrs, children, n - 1);
      var c, before := children[n - 1], AddsUpTo(attrs, children, n - 1);
      ChildKeys(c);
      PairKeysConcat(before, ChildAdds(c));
      KeysOfConcat(DocumentOrder(attrs, children, n - 1), [Element(c.name)] + AttrSources(Some(c.name), c.attrs));
    }
  }

  lemma ChildKeys(c: Child)
    ensures PairKeys(ChildAdds(c)) == KeysOf([Element(c.name)] + AttrSources(Some(c.name), c.attrs))
  {
    var text := [Pair(c.name, ChildValue(c))];
    AttrKeys(Some(c.name), c.attrs);
    PairKeysConcat(text, AttrAdds(c.name, c.attrs));
    KeysOfConcat([Element(c.name)], AttrSources(Some(c.name), c.attrs));
    assert PairKeys(text) == [c.name] == KeysOf([Element(c.name)]);
  }
}
