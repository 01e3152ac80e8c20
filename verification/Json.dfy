/**
 * Two independent accounts of JSON text: the strings and arrays of strings that `json.Marshal` writes, and a parser of
 * strings, arrays and objects after sections 4, 5 and 7 of RFC 8259. Parsing what was written gives it back.
 */
module Json {
  import opened Wrappers

  // ----- Writing -----

  function HexDigit(d: nat): char
    requires d < 16
  {
    if d < 10 then ('0' as int + d) as char else ('a' as int + d - 10) as char
  }

  /** A `\u` escape, for a character below U+10000. */
  function UnicodeEscape(c: char): string
    requires c as int < 0x10000
  {
    var n := c as int;
    ['\\', 'u', HexDigit(n / 4096), HexDigit(n / 256 % 16), HexDigit(n / 16 % 16), HexDigit(n % 16)]
  }

  /** The letter of a two-character escape. */
  function ShortEscape(c: char): Option<char> {
    if c == '"' || c == '\\' then Some(c)
    else if c == '\U{8}' then Some('b')
    else if c == '\U{C}' then Some('f')
    else if c == '\n' then Some('n')
    else if c == '\r' then Some('r')
    else if c == '\t' then Some('t')
    else None
  }

  /** Control characters, and what HTML or JavaScript would trip over. */
  predicate NeedsUnicodeEscape(c: char) {
    c < ' ' || c == '<' || c == '>' || c == '&' || c == '\U{2028}' || c == '\U{2029}'
  }

  /** One character inside a string, escaped as `json.Marshal` does. */
  function Escape(c: char): (e: string)
    ensures e != ""
  {
    if ShortEscape(c).Some? then ['\\', ShortEscape(c).value]
    else if NeedsUnicodeEscape(c) then UnicodeEscape(c)
    else [c]
  }

  function EscapeAll(s: string): string {
    if s == "" then "" else Escape(s[0]) + EscapeAll(s[1..])
  }

  /** `json.Marshal` of a string. */
  function Quote(s: string): string {
    "\"" + EscapeAll(s) + "\""
  }

  function Quotes(values: seq<string>): string
    requires values != []
  {
    if |values| == 1 then Quote(values[0]) else Quote(values[0]) + "," + Quotes(values[1..])
  }

  /** `json.Marshal` of a slice of strings that is not empty. */
  function QuoteAll(values: seq<string>): string
    requires values != []
  {
    "[" + Quotes(values) + "]"
  }

  // ----- Parsing -----

  datatype Value = Str(s: string) | Arr(items: seq<Value>) | Obj(members: seq<Member>)

  datatype Member = Member(name: string, value: Value)

  predicate IsWs(c: char) {
    c == ' ' || c == '\t' || c == '\n' || c == '\r'
  }

  function SkipWs(t: string): (r: string)
    ensures |r| <= |t|
    ensures t != "" && !IsWs(t[0]) ==> r == t
  {
    if t != "" && IsWs(t[0]) then SkipWs(t[1..]) else t
  }

  function HexValue(c: char): (d: Option<nat>)
    ensures d.Some? ==> d.value < 16
  {
    if '0' <= c <= '9' then Some(c as int - '0' as int)
    else if 'a' <= c <= 'f' then Some(c as int - 'a' as int + 10)
    else if 'A' <= c <= 'F' then Some(c as int - 'A' as int + 10)
    else None
  }

  function Hex4(t: string): (n: Option<nat>)
    requires |t| >= 4
    ensures n.Some? ==> n.value < 0x10000
  {
    var a, b, c, d := HexValue(t[0]), HexValue(t[1]), HexValue(t[2]), HexValue(t[3]);
    if a.None? || b.None? || c.None? || d.None? then None
    else Some(a.value * 4096 + b.value * 256 + c.value * 16 + d.value)
  }

  /** A `\u` escape, or the two of a surrogate pair, at the start of the text: the character and its length. */
  function ParseUnicode(t: string): (r: Option<(char, nat)>)
    requires |t| >= 2
    ensures r.Some? ==> 1 <= r.value.1 <= |t|
  {
    var u := if |t| < 6 then None else Hex4(t[2..]);
    if u.None? then None
    else if u.value < 0xD800 || 0xE000 <= u.value then Some((u.value as char, 6))
    else if u.value >= 0xDC00 || |t| < 12 || t[6] != '\\' || t[7] != 'u' then None
    else
      var v := Hex4(t[8..]);
      if v.None? || v.value < 0xDC00 || 0xE000 <= v.value then None
      else Some(((0x10000 + (u.value - 0xD800) * 0x400 + (v.value - 0xDC00)) as char, 12))
  }

  function ParseChar(t: string): (r: Option<(char, nat)>)
    requires t != ""
    ensures r.Some? ==> 1 <= r.value.1 <= |t|
  {
    if t[0] < ' ' then None
    else if t[0] != '\\' then Some((t[0], 1))
    else if |t| < 2 then None
    else if t[1] == '"' || t[1] == '\\' || t[1] == '/' then Some((t[1], 2))
    else if t[1] == 'b' then Some(('\U{8}', 2))
    else if t[1] == 'f' then Some(('\U{C}', 2))
    else if t[1] == 'n' then Some(('\n', 2))
    else if t[1] == 'r' then Some(('\r', 2))
    else if t[1] == 't' then Some(('\t', 2))
    else if t[1] == 'u' then ParseUnicode(t)
    else None
  }

  /** The rest of a string after its opening quotation mark, and what follows the closing one. */
  function ParseChars(t: string): (r: Option<(string, string)>)
    ensures r.Some? ==> |r.value.1| < |t|
    decreases |t|
  {
    if t == "" then None
    else if t[0] == '"' then Some(("", t[1..]))
    else
      var c := ParseChar(t);
      if c.None? then None
      else
        var more := ParseChars(t[c.value.1..]);
        if more.None? then None else Some(([c.value.0] + more.value.0, more.value.1))
  }

  function ParseValue(t: string): (r: Option<(Value, string)>)
    ensures r.Some? ==> |r.value.1| < |t|
    decreases |t|, 0
  {
    var u := SkipWs(t);
    if u == "" then None
    else if u[0] == '"' then
      var r := ParseChars(u[1..]);
      if r.None? then None else Some((Str(r.value.0), r.value.1))
    else if u[0] == '[' then
      var v := SkipWs(u[1..]);
      if v != "" && v[0] == ']' then Some((Arr([]), v[1..]))
      else
        var r := ParseItems(u[1..]);
        if r.None? then None else Some((Arr(r.value.0), r.value.1))
    else if u[0] == '{' then
      var v := SkipWs(u[1..]);
      if v != "" && v[0] == '}' then Some((Obj([]), v[1..]))
      else
        var r := ParseMembers(u[1..]);
        if r.None? then None else Some((Obj(r.value.0), r.value.1))
    else None
  }

  function ParseItems(t: string): (r: Option<(seq<Value>, string)>)
    ensures r.Some? ==> |r.value.1| < |t|
    decreases |t|, 1
  {
    var v := ParseValue(t);
    if v.None? then None
    else
      var rest := SkipWs(v.value.1);
      if rest == "" then None
      else if rest[0] == ']' then Some(([v.value.0], rest[1..]))
      else if rest[0] != ',' then None
      else
        var more := ParseItems(rest[1..]);
        if more.None? then None else Some(([v.value.0] + more.value.0, more.value.1))
  }

  function ParseMember(t: string): (r: Option<(Member, string)>)
    ensures r.Some? ==> |r.value.1| < |t|
    decreases |t|, 1
  {
    var u := SkipWs(t);
    if u == "" || u[0] != '"' then None
    else
      var name := ParseChars(u[1..]);
      if name.None? then None
      else
        var w := SkipWs(name.value.1);
        if w == "" || w[0] != ':' then None
        else
          var v := ParseValue(w[1..]);
          if v.None? then None else Some((Member(name.value.0, v.value.0), v.value.1))
  }

  function ParseMembers(t: string): (r: Option<(seq<Member>, string)>)
    ensures r.Some? ==> |r.value.1| < |t|
    decreases |t|, 2
  {
    var m := ParseMember(t);
    if m.None? then None
    else
      var rest := SkipWs(m.value.1);
      if rest == "" then None
      else if rest[0] == '}' then Some(([m.value.0], rest[1..]))
      else if rest[0] != ',' then None
      else
        var more := ParseMembers(rest[1..]);
        if more.None? then None else Some(([m.value.0] + more.value.0, more.value.1))
  }

  /** A whole JSON text. */
  function Parse(t: string): Option<Value> {
    var v := ParseValue(t);
    if v.Some? && SkipWs(v.value.1) == "" then Some(v.value.0) else None
  }

  // ----- Strings read back -----

  lemma HexReads(d: nat)
    requires d < 16
    ensures HexValue(HexDigit(d)) == Some(d)
  {
  }

  lemma HexDigitsOf(n: nat)
    requires n < 0x10000
    ensures n / 4096 < 16 && n == n / 4096 * 4096 + n / 256 % 16 * 256 + n / 16 % 16 * 16 + n % 16
  {
    assert n / 16 / 16 == n / 256 && n / 256 / 16 == n / 4096;
  }

  lemma Hex4Reads(t: string, n: nat)
    requires n < 0x10000 && |t| >= 4
    requires t[..4] == [HexDigit(n / 4096), HexDigit(n / 256 % 16), HexDigit(n / 16 % 16), HexDigit(n % 16)]
    ensures Hex4(t) == Some(n)
  {
    HexDigitsOf(n);
    HexReads(n / 4096);
    HexReads(n / 256 % 16);
    HexReads(n / 16 % 16);
    HexReads(n % 16);
    assert t[0] == t[..4][0] && t[1] == t[..4][1] && t[2] == t[..4][2] && t[3] == t[..4][3];
  }

  lemma UnicodeReadsBack(c: char, rest: string)
    requires c as int < 0x10000
    ensures ParseChar(UnicodeEscape(c) + rest) == Some((c, 6))
  {
    var t := UnicodeEscape(c) + rest;
    assert t[2..][..4] == UnicodeEscape(c)[2..];
    Hex4Reads(t[2..], c as int);
  }

  /** An escaped character at the start of any text is that character, and takes exactly its escape. */
  lemma CharReadsBack(c: char, rest: string)
    ensures var t := Escape(c) + rest; t[0] != '"' && ParseChar(t) == Some((c, |Escape(c)|))
  {
    if ShortEscape(c).None? && NeedsUnicodeEscape(c) {
      UnicodeReadsBack(c, rest);
    }
  }

  /** No character that ends a string, or that HTML or JavaScript would trip over. */
  predicate Harmless(c: char) {
    c >= ' ' && c !in {'<', '>', '&', '\U{2028}', '\U{2029}'}
  }

  lemma {:induction false} EscapedIsHarmless(s: string)
    ensures forall i :: 0 <= i < |EscapeAll(s)| ==> Harmless(EscapeAll(s)[i])
  {
    if s != "" {
      EscapedIsHarmless(s[1..]);
      CharIsHarmless(s[0]);
    }
  }

  lemma CharIsHarmless(c: char)
    ensures forall i :: 0 <= i < |Escape(c)| ==> Harmless(Escape(c)[i])
  {
  }

  lemma {:induction false} CharsReadBack(s: string, rest: string)
    ensures ParseChars(EscapeAll(s) + "\"" + rest) == Some((s, rest))
  {
    var t := EscapeAll(s) + "\"" + rest;
    if s == "" {
      assert t[1..] == rest;
    } else {
      var tail := EscapeAll(s[1..]) + "\"" + rest;
      assert t == Escape(s[0]) + tail;
      CharReadsBack(s[0], tail);
      assert t[|Escape(s[0])|..] == tail;
      CharsReadBack(s[1..], rest);
      assert s == [s[0]] + s[1..];
    }
  }

  lemma StringReadsBack(s: string, rest: string)
    ensures ParseValue(Quote(s) + rest) == Some((Str(s), rest))
  {
    var t := Quote(s) + rest;
    assert t[0] == '"' && t[1..] == EscapeAll(s) + "\"" + rest;
    CharsReadBack(s, rest);
  }

  function Strs(values: seq<string>): (items: seq<Value>)
    ensures |items| == |values| && forall i :: 0 <= i < |items| ==> items[i] == Str(values[i])
  {
    seq(|values|, i requires 0 <= i < |values| => Str(values[i]))
  }

  lemma LastItem(t: string, v: Value, rest: string)
    requires ParseValue(t) == Some((v, "]" + rest))
    ensures ParseItems(t) == Some(([v], rest))
  {
    assert ("]" + rest)[1..] == rest;
  }

  lemma NextItem(t: string, v: Value, tail: string, items: seq<Value>, rest: string)
    requires ParseValue(t) == Some((v, "," + tail)) && ParseItems(tail) == Some((items, rest))
    ensures ParseItems(t) == Some(([v] + items, rest))
  {
    var u := "," + tail;
    assert u[1..] == tail && SkipWs(u) == u;
  }

  lemma Regroup(a: string, b: string, c: string, d: string, e: string)
    ensures a + b + c + d + e == a + (b + (c + d + e))
  {
    assert a + b + c + d + e == a + (b + c + d + e);
    assert b + c + d + e == b + (c + d + e);
  }

  lemma QuotesSplit(values: seq<string>, rest: string)
    requires |values| > 1
    ensures Quotes(values) + "]" + rest == Quote(values[0]) + ("," + (Quotes(values[1..]) + "]" + rest))
  {
    Regroup(Quote(values[0]), ",", Quotes(values[1..]), "]", rest);
  }

  lemma {:induction false} ItemsReadBack(values: seq<string>, rest: string)
    requires values != []
    ensures ParseItems(Quotes(values) + "]" + rest) == Some((Strs(values), rest))
  {
    var t := Quotes(values) + "]" + rest;
    if |values| == 1 {
      assert t == Quote(values[0]) + ("]" + rest);
      StringReadsBack(values[0], "]" + rest);
      LastItem(t, Str(values[0]), rest);
      assert Strs(values) == [Str(values[0])];
    } else {
      var tail := Quotes(values[1..]) + "]" + rest;
      QuotesSplit(values, rest);
      StringReadsBack(values[0], "," + tail);
      ItemsReadBack(values[1..], rest);
      NextItem(t, Str(values[0]), tail, Strs(values[1..]), rest);
      assert Strs(values) == [Str(values[0])] + Strs(values[1..]);
    }
  }

  lemma ArrayReadsBack(values: seq<string>, rest: string)
    requires values != []
    ensures ParseValue(QuoteAll(values) + rest) == Some((Arr(Strs(values)), rest))
  {
    var t := QuoteAll(values) + rest;
    assert t[0] == '[' && t[1..] == Quotes(values) + "]" + rest;
    assert t[1] == '"';
    ItemsReadBack(values, rest);
  }

  // ----- Objects read back -----

  /** A member's text reads back, in front of anything, if its value's text does. */
  lemma MemberReadsBack(name: string, text: string, v: Value, rest: string)
    requires ParseValue(text + rest) == Some((v, rest))
    ensures ParseMember(Quote(name) + ":" + text + rest) == Some((Member(name, v), rest))
  {
    var after := ":" + (text + rest);
    assert after[1..] == text + rest;
    assert Quote(name) + ":" + text + rest == Quote(name) + after;
    StringReadsBack(name, after);
  }

  lemma LastMember(t: string, m: Member, rest: string)
    requires ParseMember(t) == Some((m, "}" + rest))
    ensures ParseMembers(t) == Some(([m], rest))
  {
    assert ("}" + rest)[1..] == rest;
  }

  lemma NextMember(t: string, m: Member, tail: string, members: seq<Member>, rest: string)
    requires ParseMember(t) == Some((m, "," + tail)) && ParseMembers(tail) == Some((members, rest))
    ensures ParseMembers(t) == Some(([m] + members, rest))
  {
    var u := "," + tail;
    assert u[1..] == tail && SkipWs(u) == u;
  }
}
