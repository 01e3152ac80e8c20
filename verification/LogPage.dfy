/** The response to a log query: entries projected, encoded and cut to the budget, in the loops that make it. */
module LogPage {
  import opened Wrappers
  import opened Sequences
  import opened LogEntry
  import opened LogFields
  import opened Paging
  import J = Json

  /** A decoded device entry, as the calls of `add` that made it. */
  datatype Entry = Entry(adds: seq<Pair>)

  function FieldsIn(e: Entry): (fields: seq<Field>)
    ensures Filled(fields)
  {
    GroupedMeans(e.adds);
    Grouped(e.adds)
  }

  lemma {:induction false} ProjectedFilled(fields: seq<Field>, want: set<string>)
    requires Filled(fields)
    ensures Filled(Projected(fields, want))
  {
    if fields != [] {
      ProjectedFilled(fields[..|fields| - 1], want);
    }
  }

  /** The fields of an entry to show; no wanted names means every field. */
  function Shown(e: Entry, want: Option<set<string>>): (fields: seq<Field>)
    ensures Filled(fields)
  {
    if want.None? then FieldsIn(e) else ProjectedFilled(FieldsIn(e), want.value); Projected(FieldsIn(e), want.value)
  }

  function Wanted(fields: seq<string>): Option<set<string>> {
    if fields == [] then None else Some(set f | f in fields)
  }

  /** The JSON text of every entry. */
  function Texts(entries: seq<Entry>, want: Option<set<string>>): (texts: seq<string>)
    ensures |texts| == |entries| && forall i :: 0 <= i < |texts| ==> texts[i] == EntryText(Shown(entries[i], want))
  {
    seq(|entries|, i requires 0 <= i < |entries| => EntryText(Shown(entries[i], want)))
  }

  /** The keys of every entry. */
  function KeySets(entries: seq<Entry>): (keys: seq<set<string>>)
    ensures |keys| == |entries| && forall i :: 0 <= i < |keys| ==> keys[i] == KeySet(FieldsIn(entries[i]))
  {
    seq(|entries|, i requires 0 <= i < |entries| => KeySet(FieldsIn(entries[i])))
  }

  /** What the loop is to make of the entries: their texts, and their keys. */
  ghost predicate Describes(texts: seq<string>, keys: seq<set<string>>, entries: seq<Entry>, want: Option<set<string>>)
    requires |entries| == |texts| == |keys|
  {
    SameUpTo(texts, Texts(entries, want), |entries|) && SameUpTo(keys, KeySets(entries), |entries|)
  }

  // ----- The loop -----

  /** The wanted names found under these keys, besides those found before. */
  function Matched(keys: seq<set<string>>, n: nat, want: Option<set<string>>, matched: set<string>): set<string>
    requires n <= |keys|
  {
    if n == 0 || want.None? then matched else Matched(keys, n - 1, want, matched) + want.value * keys[n - 1]
  }

  lemma {:induction false} MatchedIs(keys: seq<set<string>>, n: nat, names: set<string>, matched: set<string>)
    requires n <= |keys|
    ensures Matched(keys, n, Some(names), matched) == matched + names * AllKeys(keys, n)
  {
    if n > 0 {
      MatchedIs(keys, n - 1, names, matched);
    }
  }

  method FieldsToEncode(e: Entry, want: Option<set<string>>, matched: set<string>)
    returns (fields: seq<Field>, matched': set<string>)
    ensures fields == Shown(e, want)
    ensures matched' == if want.None? then matched else matched + want.value * KeySet(FieldsIn(e))
  {
    if want.Some? {
      fields, matched' := ProjectLogFields(FieldsIn(e), want.value, matched);
    } else {
      fields, matched' := FieldsIn(e), matched;
    }
  }

  /** One more entry, encoded, if it fits. */
  method AddIfFits(ghost texts: seq<string>, i: nat, raw: string, out: seq<string>, size: nat)
    returns (out': seq<string>, size': nat, truncated: bool)
    requires i < |texts| && raw == texts[i] && CutSoFar(texts, i, out, size, false)
    ensures CutSoFar(texts, i + 1, out', size', truncated)
  {
    CutStep(texts, i, out, size);
    if i > 0 && size + Bytes(raw) > LOG_RESULT_BUDGET {
      out', size', truncated := out, size, true;
    } else {
      out', size', truncated := out + [raw], size + Bytes(raw), false;
    }
  }

  /** One round of the loop: project, and unless the page is cut already, encode and add. */
  method NextEntry(
      ghost texts: seq<string>, ghost keys: seq<set<string>>, entries: seq<Entry>, i: nat, want: Option<set<string>>,
      ghost before: set<string>, out: seq<string>, size: nat, truncated: bool, matched: set<string>)
    returns (out': seq<string>, size': nat, truncated': bool, matched': set<string>)
    requires i < |entries| == |texts| == |keys| && Describes(texts, keys, entries, want)
    requires CutSoFar(texts, i, out, size, truncated) && matched == Matched(keys, i, want, before)
    ensures CutSoFar(texts, i + 1, out', size', truncated') && matched' == Matched(keys, i + 1, want, before)
  {
    SameAt(texts, Texts(entries, want), |entries|, i);
    SameAt(keys, KeySets(entries), |entries|, i);
    var fields;
    fields, matched' := FieldsToEncode(entries[i], want, matched);
    if truncated {
      CutStays(texts, i, out, size);
      out', size', truncated' := out, size, true;
    } else {
      var raw := EncodeLogEntry(fields);
      out', size', truncated' := AddIfFits(texts, i, raw, out, size);
    }
  }

  /** `encodeLogEntries`: every entry is projected, cut or not. */
  method EncodeLogEntries(
      ghost texts: seq<string>, ghost keys: seq<set<string>>, entries: seq<Entry>, want: Option<set<string>>)
    returns (out: seq<string>, truncated: bool, matched: set<string>)
    requires |entries| == |texts| == |keys| && Describes(texts, keys, entries, want)
    ensures out == PageTexts(texts)
    ensures truncated <==> |out| < |entries|
    ensures matched == Matched(keys, |keys|, want, {})
  {
    out, truncated, matched := [], false, {};
    var size: nat := 0;
    for i := 0 to |entries|
      invariant CutSoFar(texts, i, out, size, truncated)
      invariant matched == Matched(keys, i, want, {})
    {
      out, size, truncated, matched := NextEntry(texts, keys, entries, i, want, {}, out, size, truncated, matched);
    }
  }

  /** The wanted names, collected in a loop. */
  method WantedNames(fields: seq<string>) returns (want: Option<set<string>>)
    ensures want == Wanted(fields)
  {
    want := None;
    if |fields| > 0 {
      var names := {};
      for i := 0 to |fields|
        invariant names == set f | f in fields[..i]
      {
        assert fields[..i + 1] == fields[..i] + [fields[i]];
        names := names + {fields[i]};
      }
      assert fields[..|fields|] == fields;
      want := Some(names);
    }
  }

  lemma SameUnmatched(fields: seq<string>, matched: set<string>, keys: set<string>)
    requires fields != [] ==> matched == (set f | f in fields) * keys
    ensures Missing(FirstSeen(fields), matched) == Missing(FirstSeen(fields), keys)
  {
    forall f | f in FirstSeen(fields) ensures f in matched <==> f in keys {
      FirstSeenMembers(fields, f);
    }
    SameMissing(FirstSeen(fields), matched, keys);
  }

  method Unmatched(fields: seq<string>, want: Option<set<string>>, ghost keys: seq<set<string>>, matched: set<string>)
    returns (unmatched: seq<string>)
    requires want == Wanted(fields) && matched == Matched(keys, |keys|, want, {})
    ensures unmatched == Missing(FirstSeen(fields), AllKeys(keys, |keys|))
  {
    unmatched := UnmatchedFields(fields, matched);
    if want.Some? {
      MatchedIs(keys, |keys|, want.value, {});
    }
    SameUnmatched(fields, matched, AllKeys(keys, |keys|));
  }

  /** The response to entries that these texts and keys describe. */
  method Respond(
      skip: int, nlogs: nat, fields: seq<string>, entries: seq<Entry>, want: Option<set<string>>,
      ghost texts: seq<string>, ghost keys: seq<set<string>>)
    returns (page: Page)
    requires |entries| == |texts| == |keys| && Describes(texts, keys, entries, want) && want == Wanted(fields)
    ensures page == PageOf(skip, nlogs, fields, texts, keys)
  {
    var out, truncated, matched := EncodeLogEntries(texts, keys, entries, want);
    var unmatched := [];
    if |entries| > 0 {
      unmatched := Unmatched(fields, want, keys, matched);
    }
    page := Assemble(skip, nlogs, |entries|, out, truncated, unmatched, fields, texts, keys);
  }

  /** `logPage`. */
  method LogPage(skip: int, nlogs: nat, fields: seq<string>, entries: seq<Entry>) returns (page: Page)
    ensures page == PageOf(skip, nlogs, fields, Texts(entries, Wanted(fields)), KeySets(entries))
  {
    var want := WantedNames(fields);
    SameItself(Texts(entries, want), |entries|);
    SameItself(KeySets(entries), |entries|);
    page := Respond(skip, nlogs, fields, entries, want, Texts(entries, want), KeySets(entries));
  }

  // ----- End to end -----

  /** The response to a query of a log that does not change. */
  function Response(log: seq<Entry>, skip: nat, nlogs: nat, fields: seq<string>): Page {
    var entries := Window(log, skip, nlogs);
    PageOf(skip, nlogs, fields, Texts(entries, Wanted(fields)), KeySets(entries))
  }

  /** Encoding commutes with asking the device for a window. */
  lemma WindowTexts(log: seq<Entry>, skip: nat, nlogs: nat, want: Option<set<string>>)
    ensures Texts(Window(log, skip, nlogs), want) == Window(Texts(log, want), skip, nlogs)
  {
  }

  /** A response is the page of the log's texts, and a next_skip in it lies ahead and inside the log. */
  lemma ResponsePage(log: seq<Entry>, skip: nat, nlogs: nat, fields: seq<string>)
    requires nlogs > 0
    ensures var texts := Window(Texts(log, Wanted(fields)), skip, nlogs);
            var page := Response(log, skip, nlogs, fields);
            && page.entries == PageTexts(texts)
            && page.nextSkip == NextSkip(skip, |PageTexts(texts)|, |texts|, nlogs)
            && (page.nextSkip.Some? ==> skip < page.nextSkip.value <= |log|)
  {
    WindowTexts(log, skip, nlogs, Wanted(fields));
    FirstPage(Texts(log, Wanted(fields)), skip, nlogs);
  }

  /** Every response a client gets that follows next_skip, asking for as many entries as it likes each time. */
  function Responses(log: seq<Entry>, skip: nat, ask: nat -> nat, fields: seq<string>): (pages: seq<Page>)
    requires Asks(ask)
    ensures pages != []
    decreases Left(log, skip)
  {
    var page := Response(log, skip, ask(skip), fields);
    ResponsePage(log, skip, ask(skip), fields);
    [page] + if page.nextSkip.Some? then Responses(log, page.nextSkip.value, ask, fields) else []
  }

  /** The entries of the responses, put together. */
  function Collected(pages: seq<Page>): seq<string> {
    if pages == [] then [] else pages[0].entries + Collected(pages[1..])
  }

  /** The client that reads responses collects what following the texts of the log brings. */
  lemma {:induction false} ResponsesFollow(log: seq<Entry>, skip: nat, ask: nat -> nat, fields: seq<string>)
    requires Asks(ask)
    ensures Collected(Responses(log, skip, ask, fields)) == Follow(Texts(log, Wanted(fields)), skip, ask)
    decreases Left(log, skip)
  {
    var page := Response(log, skip, ask(skip), fields);
    ResponsePage(log, skip, ask(skip), fields);
    if page.nextSkip.Some? {
      ResponsesFollow(log, page.nextSkip.value, ask, fields);
      CollectedFirst(page, Responses(log, page.nextSkip.value, ask, fields));
    } else {
      CollectedFirst(page, []);
    }
  }

  lemma CollectedFirst(page: Page, rest: seq<Page>)
    ensures Collected([page] + rest) == page.entries + Collected(rest)
  {
    assert ([page] + rest)[1..] == rest;
  }

  /** The text is a JSON object that holds exactly these fields. */
  predicate ReadsAs(text: string, fields: seq<Field>) {
    match J.Parse(text)
    case Some(Obj(members)) => FieldsOf(members) == Some(fields)
    case _ => false
  }

  lemma TextReadsAs(fields: seq<Field>)
    requires Filled(fields)
    ensures ReadsAs(EntryText(fields), fields)
  {
    EntryParses(fields);
    FieldsOfMembers(fields);
  }

  /**
   * The responses a client collects by following next_skip hold one JSON object for each entry of the log from the
   * start, in order, and each parses to exactly the fields the client asked to see of that entry.
   */
  lemma PagesReadBack(log: seq<Entry>, skip: nat, ask: nat -> nat, fields: seq<string>, k: nat)
    requires Asks(ask) && skip + k < |log|
    ensures var texts := Collected(Responses(log, skip, ask, fields));
            |texts| == |log| - skip && ReadsAs(texts[k], Shown(log[skip + k], Wanted(fields)))
  {
    var texts := Texts(log, Wanted(fields));
    ResponsesFollow(log, skip, ask, fields);
    PagingLosesNothing(texts, skip, ask);
    assert texts[skip..][k] == texts[skip + k];
    TextReadsAs(Shown(log[skip + k], Wanted(fields)));
  }

  lemma KeyOfEntry(e: Entry, f: string)
    ensures f in KeySet(FieldsIn(e)) <==> f in PairKeys(e.adds)
  {
    KeySetMembers(FieldsIn(e), f);
    GroupedMeans(e.adds);
  }

  /** The unmatched names of a response that has entries are those asked for that no entry of the device has. */
  lemma UnmatchedInResponse(log: seq<Entry>, skip: nat, nlogs: nat, fields: seq<string>, f: string)
    ensures var entries := Window(log, skip, nlogs);
            f in Response(log, skip, nlogs, fields).unmatched <==>
              entries != [] && f in fields && forall i :: 0 <= i < |entries| ==> f !in PairKeys(entries[i].adds)
  {
    var entries := Window(log, skip, nlogs);
    var texts, keys := Texts(entries, Wanted(fields)), KeySets(entries);
    if entries == [] {
      PageSays(skip, nlogs, fields, texts, keys);
    } else {
      UnmatchedExact(skip, nlogs, fields, texts, keys, f);
      forall i | 0 <= i < |entries| ensures f in keys[i] <==> f in PairKeys(entries[i].adds) {
        KeyOfEntry(entries[i], f);
      }
    }
  }

  /** Which fields of an entry are shown: all of them if none were named, and else those that the names ask for. */
  lemma ShowsWhatIsAsked(e: Entry, fields: seq<string>, src: Source, values: seq<string>)
    requires Named(src) && "" !in fields
    ensures var f := Field(KeyOf(src), values);
            f in Shown(e, Wanted(fields)) <==>
              f in Grouped(e.adds) &&
              (fields == [] || match src
                               case EntryAttr(_) => true
                               case Element(n) => n in fields
                               case ElementAttr(n, a) => n in fields || n + "@" + a in fields)
  {
    if fields != [] {
      var want := Wanted(fields).value;
      ProjectedMembers(FieldsIn(e), want, Field(KeyOf(src), values));
      KeepBySource(src, want);
    }
  }
}
