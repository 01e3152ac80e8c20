/** Projecting an entry onto wanted field names, and writing it as one JSON object. */
module LogFields {
  import opened Wrappers
  import opened Sequences
  import opened Text
  import opened LogEntry
  import J = Json

  // ----- Projection -----

  /** Entry attributes, wanted fields, and the attributes of wanted elements. */
  predicate Keep(key: string, want: set<string>) {
    var (elem, _, hasAttr) := Cut(key, '@');
    "@" <= key || key in want || (hasAttr && elem in want)
  }

  function Projected(fields: seq<Field>, want: set<string>): seq<Field> {
    if fields == [] then []
    else
      var last := fields[|fields| - 1];
      Projected(fields[..|fields| - 1], want) + if Keep(last.key, want) then [last] else []
  }

  lemma ProjectedPush(s: seq<Field>, f: Field, want: set<string>)
    ensures Projected(s + [f], want) == Projected(s, want) + if Keep(f.key, want) then [f] else []
  {
    assert (s + [f])[..|s|] == s;
  }

  function KeySet(fields: seq<Field>): set<string> {
    set i | 0 <= i < |fields| :: fields[i].key
  }

  lemma KeySetMembers(fields: seq<Field>, k: string)
    ensures k in KeySet(fields) <==> k in Keys(fields)
  {
    if k in Keys(fields) {
      var i :| 0 <= i < |fields| && Keys(fields)[i] == k;
      assert fields[i].key == k;
    }
  }

  lemma KeySetPush(fields: seq<Field>, i: nat)
    requires i < |fields|
    ensures KeySet(fields[..i + 1]) == KeySet(fields[..i]) + {fields[i].key}
  {
    var a, b := KeySet(fields[..i + 1]), KeySet(fields[..i]) + {fields[i].key};
    forall k ensures k in a <==> k in b {
      if k in b && k != fields[i].key {
        var j :| 0 <= j < i && fields[..i][j].key == k;
        assert fields[..i + 1][j].key == k;
      }
      assert fields[..i + 1][i].key == fields[i].key;
    }
  }

  /** What one more field adds to the projection and to the names matched. */
  lemma OneMoreField(fields: seq<Field>, want: set<string>, matched: set<string>, i: nat)
    requires i < |fields|
    ensures var f := fields[i];
            && Projected(fields[..i + 1], want)
               == Projected(fields[..i], want) + (if Keep(f.key, want) then [f] else [])
            && matched + want * KeySet(fields[..i + 1])
               == matched + want * KeySet(fields[..i]) + (if f.key in want then {f.key} else {})
  {
    KeySetPush(fields, i);
    PrefixPush(fields, i);
    ProjectedPush(fields[..i], fields[i], want);
  }

  method ProjectLogFields(fields: seq<Field>, want: set<string>, matched: set<string>)
    returns (out: seq<Field>, matched': set<string>)
    ensures out == Projected(fields, want)
    ensures matched' == matched + want * KeySet(fields)
  {
    out, matched' := [], matched;
    for i := 0 to |fields|
      invariant out == Projected(fields[..i], want)
      invariant matched' == matched + want * KeySet(fields[..i])
    {
      var f := fields[i];
      OneMoreField(fields, want, matched, i);
      var (elem, _, hasAttr) := Cut(f.key, '@');
      var keep := "@" <= f.key || f.key in want || (hasAttr && elem in want);
      if keep {
        out := out + [f];
        if f.key in want {
          matched' := matched' + {f.key};
        }
      }
    }
    assert fields[..|fields|] == fields;
  }

  /** The projection keeps exactly the fields it should, in order: it treats each stretch of the entry by itself. */
  lemma {:induction false} ProjectedConcat(a: seq<Field>, b: seq<Field>, want: set<string>)
    ensures Projected(a + b, want) == Projected(a, want) + Projected(b, want)
  {
    if b == [] {
      assert a + b == a;
    } else {
      var front, last := b[..|b| - 1], b[|b| - 1];
      ProjectedConcat(a, front, want);
      ProjectedPush(a + front, last, want);
      ProjectedPush(front, last, want);
      SplitLast(a, b);
      Associates(Projected(a, want), Projected(front, want), if Keep(last.key, want) then [last] else []);
    }
  }

  lemma {:induction false} ProjectedMembers(fields: seq<Field>, want: set<string>, f: Field)
    ensures f in Projected(fields, want) <==> f in fields && Keep(f.key, want)
  {
    if fields != [] {
      var front, last := fields[..|fields| - 1], fields[|fields| - 1];
      ProjectedMembers(front, want, f);
      assert fields == front + [last];
    }
  }

  lemma {:induction false} ProjectedIdempotent(fields: seq<Field>, want: set<string>)
    ensures Projected(Projected(fields, want), want) == Projected(fields, want)
  {
    if fields != [] {
      var front, last := fields[..|fields| - 1], fields[|fields| - 1];
      var kept := Projected(front, want);
      ProjectedIdempotent(front, want);
      assert (kept + [last])[..|kept|] == kept;
      assert !Keep(last.key, want) ==> Projected(fields, want) == kept;
    }
  }

  /** In the terms of the document: what survives for each kind of key. */
  lemma KeepBySource(src: Source, want: set<string>)
    requires Named(src) && forall w :: w in want ==> w != ""
    ensures Keep(KeyOf(src), want)
            <==> match src
                 case EntryAttr(_) => true
                 case Element(n) => n in want
                 case ElementAttr(n, a) => n in want || n + "@" + a in want
  {
    SourceFromKey(src);
    match src
    case EntryAttr(a) =>
    case Element(n) => assert n[0] != '@';
    case ElementAttr(n, a) =>
      CutAt(n, a, '@');
      assert (n + "@" + a)[0] == n[0] && n[0] != '@';
  }

  // ----- JSON -----

  /** What `add` guarantees of every field. */
  predicate Filled(fields: seq<Field>) {
    forall i :: 0 <= i < |fields| ==> fields[i].values != []
  }

  /** A single value is a string, several are an array of strings. */
  function ValueText(f: Field): string
    requires f.values != []
  {
    if |f.values| == 1 then J.Quote(f.values[0]) else J.QuoteAll(f.values)
  }

  function MemberText(f: Field): string
    requires f.values != []
  {
    J.Quote(f.key) + ":" + ValueText(f)
  }

  function MemberTexts(fields: seq<Field>): (texts: seq<string>)
    requires Filled(fields)
    ensures |texts| == |fields| && forall i :: 0 <= i < |texts| ==> texts[i] == MemberText(fields[i])
  {
    seq(|fields|, i requires 0 <= i < |fields| => MemberText(fields[i]))
  }

  function Joined(parts: seq<string>): string {
    if parts == [] then ""
    else if |parts| == 1 then parts[0]
    else Joined(parts[..|parts| - 1]) + ("," + parts[|parts| - 1])
  }

  function EntryText(fields: seq<Field>): string
    requires Filled(fields)
  {
    "{" + Joined(MemberTexts(fields)) + "}"
  }

  lemma Associate(a: string, b: string, c: string)
    ensures (a + b) + c == a + (b + c)
  {
  }

  lemma JoinedPush(open: string, parts: seq<string>, i: nat)
    requires i < |parts|
    ensures (open + Joined(parts[..i])) + ((if i > 0 then "," else "") + parts[i]) == open + Joined(parts[..i + 1])
  {
    assert parts[..i + 1][..i] == parts[..i];
    if i == 0 {
      assert "" + parts[0] == parts[0];
      assert open + "" == open;
    } else {
      Associate(open, Joined(parts[..i]), "," + parts[i]);
    }
  }

  method EncodeLogEntry(fields: seq<Field>) returns (raw: string)
    requires Filled(fields)
    ensures raw == EntryText(fields)
  {
    raw := "{";
    ghost var parts := MemberTexts(fields);
    assert "{" + "" == "{";
    for i := 0 to |fields|
      invariant raw == "{" + Joined(parts[..i])
    {
      var sep := if i > 0 then "," else "";
      var member := EncodeMember(fields[i]);
      JoinedPush("{", parts, i);
      raw := raw + (sep + member);
    }
    raw := raw + "}";
    assert parts[..|fields|] == parts;
  }

  method EncodeMember(f: Field) returns (text: string)
    requires f.values != []
    ensures text == MemberText(f)
  {
    var k := J.Quote(f.key);
    var v;
    if |f.values| == 1 {
      v := J.Quote(f.values[0]);
    } else {
      v := J.QuoteAll(f.values);
    }
    text := k + ":" + v;
  }

  function ValueOf(f: Field): J.Value {
    if |f.values| == 1 then J.Str(f.values[0]) else J.Arr(J.Strs(f.values))
  }

  function MembersOf(fields: seq<Field>): (ms: seq<J.Member>)
    ensures |ms| == |fields| && forall i :: 0 <= i < |ms| ==> ms[i] == J.Member(fields[i].key, ValueOf(fields[i]))
  {
    seq(|fields|, i requires 0 <= i < |fields| => J.Member(fields[i].key, ValueOf(fields[i])))
  }

  lemma Regroup(a: string, b: string, c: string, d: string)
    ensures (a + (b + c)) + d == a + (b + (c + d))
  {
    assert (b + c) + d == b + (c + d);
    assert (a + (b + c)) + d == a + ((b + c) + d);
  }

  /** The text is written from the back and read from the front. */
  lemma {:induction false} JoinedFromFront(parts: seq<string>)
    requires |parts| > 1
    ensures Joined(parts) == parts[0] + ("," + Joined(parts[1..]))
  {
    var n := |parts| - 1;
    if n == 1 {
      assert parts[..1] == [parts[0]] && parts[1..] == [parts[1]];
    } else {
      JoinedFromFront(parts[..n]);
      assert parts[..n][1..] == parts[1..][..n - 1];
      Regroup(parts[0], ",", Joined(parts[1..][..n - 1]), "," + parts[n]);
    }
  }

  lemma FieldReadsBack(f: Field, rest: string)
    requires f.values != []
    ensures J.ParseMember(MemberText(f) + rest) == Some((J.Member(f.key, ValueOf(f)), rest))
  {
    if |f.values| == 1 {
      J.StringReadsBack(f.values[0], rest);
    } else {
      J.ArrayReadsBack(f.values, rest);
    }
    J.MemberReadsBack(f.key, ValueText(f), ValueOf(f), rest);
  }

  /** In front of anything, a text reads as this member. */
  ghost predicate Reads(text: string, m: J.Member) {
    forall rest: string :: J.ParseMember(text + rest) == Some((m, rest))
  }

  lemma FieldReads(f: Field)
    requires f.values != []
    ensures Reads(MemberText(f), J.Member(f.key, ValueOf(f)))
  {
    forall rest: string ensures J.ParseMember(MemberText(f) + rest) == Some((J.Member(f.key, ValueOf(f)), rest)) {
      FieldReadsBack(f, rest);
    }
  }

  lemma OneReadsBack(text: string, m: J.Member)
    requires Reads(text, m)
    ensures J.ParseMembers(text + "}") == Some(([m], ""))
  {
    assert "}" + "" == "}";
    J.LastMember(text + "}", m, "");
  }

  lemma MoreReadBack(text: string, m: J.Member, tail: string, ms: seq<J.Member>)
    requires Reads(text, m) && J.ParseMembers(tail) == Some((ms, ""))
    ensures J.ParseMembers(text + ("," + tail)) == Some(([m] + ms, ""))
  {
    J.NextMember(text + ("," + tail), m, tail, ms, "");
  }

  lemma JoinedClosed(parts: seq<string>)
    requires |parts| > 1
    ensures Joined(parts) + "}" == parts[0] + ("," + (Joined(parts[1..]) + "}"))
  {
    JoinedFromFront(parts);
    Regroup(parts[0], ",", Joined(parts[1..]), "}");
  }

  /** Each text reads as its member. */
  ghost predicate AllRead(parts: seq<string>, ms: seq<J.Member>) {
    |parts| == |ms| && forall i :: 0 <= i < |parts| ==> Reads(parts[i], ms[i])
  }

  lemma RestRead(parts: seq<string>, ms: seq<J.Member>)
    requires AllRead(parts, ms) && parts != []
    ensures AllRead(parts[1..], ms[1..])
  {
    forall i | 0 <= i < |parts[1..]| ensures Reads(parts[1..][i], ms[1..][i]) {
      assert parts[1..][i] == parts[i + 1] && ms[1..][i] == ms[i + 1];
      assert Reads(parts[i + 1], ms[i + 1]);
    }
  }

  lemma FirstAndRest(parts: seq<string>, ms: seq<J.Member>)
    requires |parts| == |ms| > 1 && Reads(parts[0], ms[0])
    requires J.ParseMembers(Joined(parts[1..]) + "}") == Some((ms[1..], ""))
    ensures J.ParseMembers(Joined(parts) + "}") == Some((ms, ""))
  {
    MoreReadBack(parts[0], ms[0], Joined(parts[1..]) + "}", ms[1..]);
    JoinedClosed(parts);
    SplitFirst(ms);
  }

  lemma {:induction false} AllReadBack(parts: seq<string>, ms: seq<J.Member>)
    requires AllRead(parts, ms) && parts != []
    ensures J.ParseMembers(Joined(parts) + "}") == Some((ms, ""))
    decreases |parts|
  {
    assert Reads(parts[0], ms[0]);
    if |parts| == 1 {
      OneReadsBack(parts[0], ms[0]);
      assert ms == [ms[0]];
    } else {
      RestRead(parts, ms);
      AllReadBack(parts[1..], ms[1..]);
      FirstAndRest(parts, ms);
    }
  }

  lemma {:induction false} StartsWithQuote(parts: seq<string>)
    requires parts != [] && forall i :: 0 <= i < |parts| ==> parts[i] != "" && parts[i][0] == '"'
    ensures Joined(parts) != "" && Joined(parts)[0] == '"'
  {
    if |parts| > 1 {
      StartsWithQuote(parts[..|parts| - 1]);
    }
  }

  lemma ObjectParses(inner: string, ms: seq<J.Member>)
    requires inner != "" && inner[0] == '"' && J.ParseMembers(inner + "}") == Some((ms, ""))
    ensures J.Parse("{" + inner + "}") == Some(J.Obj(ms))
  {
    var t := "{" + inner + "}";
    assert t[0] == '{' && t[1..] == inner + "}";
    assert t[1..][0] == '"';
  }

  lemma EntryParses(fields: seq<Field>)
    requires Filled(fields)
    ensures J.Parse(EntryText(fields)) == Some(J.Obj(MembersOf(fields)))
  {
    if fields == [] {
      assert EntryText(fields) == "{}" && "{}"[1..] == "}" && "}"[1..] == "";
    } else {
      forall i | 0 <= i < |fields| ensures Reads(MemberTexts(fields)[i], MembersOf(fields)[i]) {
        FieldReads(fields[i]);
      }
      AllReadBack(MemberTexts(fields), MembersOf(fields));
      StartsWithQuote(MemberTexts(fields));
      ObjectParses(Joined(MemberTexts(fields)), MembersOf(fields));
    }
  }

  // ----- Reading an entry -----

  function Strings(items: seq<J.Value>): Option<seq<string>> {
    if items == [] then Some([])
    else
      var rest := Strings(items[1..]);
      if items[0].Str? && rest.Some? then Some([items[0].s] + rest.value) else None
  }

  /** The fields a JSON object stands for, if each member is a string or an array of strings. */
  function FieldsOf(members: seq<J.Member>): Option<seq<Field>> {
    if members == [] then Some([])
    else
      var m, rest := members[0], FieldsOf(members[1..]);
      var values := match m.value
                    case Str(s) => Some([s])
                    case Arr(items) => Strings(items)
                    case Obj(_) => None;
      if values.Some? && rest.Some? then Some([Field(m.name, values.value)] + rest.value) else None
  }

  lemma {:induction false} StringsOf(values: seq<string>)
    ensures Strings(J.Strs(values)) == Some(values)
  {
    if values != [] {
      assert J.Strs(values)[1..] == J.Strs(values[1..]);
      StringsOf(values[1..]);
      assert values == [values[0]] + values[1..];
    }
  }

  lemma {:induction false} FieldsOfMembers(fields: seq<Field>)
    ensures FieldsOf(MembersOf(fields)) == Some(fields)
  {
    if fields != [] {
      assert MembersOf(fields)[1..] == MembersOf(fields[1..]);
      FieldsOfMembers(fields[1..]);
      var f := fields[0];
      StringsOf(f.values);
      assert |f.values| == 1 ==> f.values == [f.values[0]];
      assert f == Field(f.key, f.values);
      assert fields == [fields[0]] + fields[1..];
    }
  }

  /** A decoded entry, written as JSON and parsed again, is exactly its fields: keys, values and both orders. */
  lemma EntryRoundTrip(adds: seq<Pair>)
    ensures Filled(Grouped(adds))
    ensures var v := J.Parse(EntryText(Grouped(adds)));
            v.Some? && v.value.Obj? && FieldsOf(v.value.members) == Some(Grouped(adds))
  {
    GroupedMeans(adds);
    EntryParses(Grouped(adds));
    FieldsOfMembers(Grouped(adds));
  }
}
