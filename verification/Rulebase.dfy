/** The ordered rulebase: positions as the tools word them, and what moving a rule does. */
module Rulebase {
  import opened Wrappers
  import opened Sequences

  datatype Rule = Rule(name: string, body: string)

  datatype Position = Top | Bottom | Before(pivot: string) | After(pivot: string)

  /** `movePosition`: before and after need a pivot, top and bottom refuse one. */
  function MovePosition(position: string, relativeTo: string): Option<Position> {
    if position == "top" then (if relativeTo != "" then None else Some(Top))
    else if position == "bottom" then (if relativeTo != "" then None else Some(Bottom))
    else if position == "before" then (if relativeTo == "" then None else Some(Before(relativeTo)))
    else if position == "after" then (if relativeTo == "" then None else Some(After(relativeTo)))
    else None
  }

  function Names(rules: seq<Rule>): (names: seq<string>)
    ensures |names| == |rules| && forall i :: 0 <= i < |rules| ==> names[i] == rules[i].name
  {
    seq(|rules|, i requires 0 <= i < |rules| => rules[i].name)
  }

  /** Names identify rules. */
  ghost predicate Unique(rules: seq<Rule>) {
    Distinct(Names(rules))
  }

  function Find(rules: seq<Rule>, name: string): (i: nat)
    ensures i <= |rules| && (i < |rules| <==> name in Names(rules))
    ensures i < |rules| ==> rules[i].name == name
  {
    First(Names(rules), name)
  }

  function Without(rules: seq<Rule>, name: string): seq<Rule> {
    var i := Find(rules, name);
    if i < |rules| then rules[..i] + rules[i + 1..] else rules
  }

  /** The position can be taken by a rule of that name. */
  predicate Placeable(rules: seq<Rule>, name: string, pos: Position) {
    && name in Names(rules)
    && (pos.Before? || pos.After? ==> pos.pivot != name && pos.pivot in Names(rules))
  }

  /** Where in the rest of the rulebase the rule goes. */
  function SlotFor(rest: seq<Rule>, pos: Position): (slot: nat)
    ensures slot <= |rest|
  {
    match pos
    case Top => 0
    case Bottom => |rest|
    case Before(pivot) => Find(rest, pivot)
    case After(pivot) => if Find(rest, pivot) < |rest| then Find(rest, pivot) + 1 else |rest|
  }

  function Insert(rest: seq<Rule>, r: Rule, slot: nat): seq<Rule>
    requires slot <= |rest|
  {
    rest[..slot] + [r] + rest[slot..]
  }

  /** `MoveGroup` for one rule: out of its slot, and directly into the requested one. */
  function Placed(rules: seq<Rule>, name: string, pos: Position): seq<Rule>
    requires Placeable(rules, name, pos)
  {
    var rest := Without(rules, name);
    Insert(rest, rules[Find(rules, name)], SlotFor(rest, pos))
  }

  /** The rule is where the words say: first, last, or with the pivot as its direct neighbour. */
  predicate Sits(rules: seq<Rule>, name: string, pos: Position) {
    var i := Find(rules, name);
    && i < |rules|
    && match pos
       case Top => i == 0
       case Bottom => i == |rules| - 1
       case Before(pivot) => i + 1 < |rules| && rules[i + 1].name == pivot
       case After(pivot) => 0 < i && rules[i - 1].name == pivot
  }

  lemma FindIs(rules: seq<Rule>, name: string, i: nat)
    requires Unique(rules) && i < |rules| && rules[i].name == name
    ensures Find(rules, name) == i
  {
    assert Names(rules)[i] == name && name in Names(rules);
    var j := Find(rules, name);
    assert Names(rules)[j] == name;
  }

  lemma WithoutNames(rules: seq<Rule>, name: string)
    requires Unique(rules)
    ensures Unique(Without(rules, name)) && name !in Names(Without(rules, name))
    ensures forall p :: p != name ==> (p in Names(Without(rules, name)) <==> p in Names(rules))
  {
    var i, rest := Find(rules, name), Without(rules, name);
    if i < |rules| {
      forall j | 0 <= j < |rest| ensures Names(rest)[j] == Names(rules)[if j < i then j else j + 1] {
      }
      forall p | p != name && p in Names(rules) ensures p in Names(rest) {
        var j :| 0 <= j < |rules| && Names(rules)[j] == p;
        assert Names(rest)[if j < i then j else j - 1] == p;
      }
    }
  }

  lemma InsertNames(rest: seq<Rule>, r: Rule, slot: nat)
    requires slot <= |rest|
    ensures Names(Insert(rest, r, slot)) == Names(rest)[..slot] + [r.name] + Names(rest)[slot..]
  {
  }

  /** Taking a rule out and putting it in anywhere disturbs nothing else. */
  lemma InsertedElsewhere(rest: seq<Rule>, r: Rule, slot: nat)
    requires Unique(rest) && r.name !in Names(rest) && slot <= |rest|
    ensures var out := Insert(rest, r, slot);
            Unique(out) && slot < |out| && out[slot] == r && Find(out, r.name) == slot && Without(out, r.name) == rest
            && forall p :: p in Names(out) <==> p == r.name || p in Names(rest)
  {
    var out := Insert(rest, r, slot);
    InsertNames(rest, r, slot);
    InsertDistinct(Names(rest), r.name, slot);
    forall p ensures p in Names(out) <==> p == r.name || p in Names(rest) {
      InsertMembers(Names(rest), r.name, slot, p);
    }
    assert out[..slot] + out[slot + 1..] == rest;
  }

  lemma InsertedSits(rest: seq<Rule>, r: Rule, pos: Position)
    requires Find(Insert(rest, r, SlotFor(rest, pos)), r.name) == SlotFor(rest, pos)
    requires pos.Before? || pos.After? ==> pos.pivot in Names(rest)
    ensures Sits(Insert(rest, r, SlotFor(rest, pos)), r.name, pos)
  {
  }

  lemma PlacedIsInserted(rules: seq<Rule>, name: string, pos: Position)
    requires Placeable(rules, name, pos)
    ensures var rest := Without(rules, name);
            Placed(rules, name, pos) == Insert(rest, rules[Find(rules, name)], SlotFor(rest, pos))
  {
  }

  /** A move puts the rule where it was asked to be, keeps every other rule in order, and keeps its content. */
  lemma PlacedSits(rules: seq<Rule>, name: string, pos: Position)
    requires Unique(rules) && Placeable(rules, name, pos)
    ensures var out := Placed(rules, name, pos);
            && Sits(out, name, pos) && Unique(out) && Without(out, name) == Without(rules, name)
            && Find(out, name) < |out| && out[Find(out, name)] == rules[Find(rules, name)]
  {
    PlacedIsInserted(rules, name, pos);
    WithoutNames(rules, name);
    SlotSits(Without(rules, name), rules[Find(rules, name)], pos);
  }

  lemma PlacedKeepsNames(rules: seq<Rule>, name: string, pos: Position, p: string)
    requires Unique(rules) && Placeable(rules, name, pos)
    ensures p in Names(Placed(rules, name, pos)) <==> p in Names(rules)
  {
    PlacedIsInserted(rules, name, pos);
    WithoutNames(rules, name);
    SlotSits(Without(rules, name), rules[Find(rules, name)], pos);
  }

  /** Putting a rule into the slot a position asks for. */
  lemma SlotSits(rest: seq<Rule>, r: Rule, pos: Position)
    requires Unique(rest) && r.name !in Names(rest) && (pos.Before? || pos.After? ==> pos.pivot in Names(rest))
    ensures var out := Insert(rest, r, SlotFor(rest, pos));
            && Sits(out, r.name, pos) && Unique(out) && Without(out, r.name) == rest
            && Find(out, r.name) < |out| && out[Find(out, r.name)] == r
            && forall p :: p in Names(out) <==> p == r.name || p in Names(rest)
  {
    InsertedElsewhere(rest, r, SlotFor(rest, pos));
    InsertedSits(rest, r, pos);
  }

  /** Taking an element out and putting it back where it was. */
  lemma BackInPlace(rules: seq<Rule>, i: nat)
    requires i < |rules|
    ensures Insert(rules[..i] + rules[i + 1..], rules[i], i) == rules
  {
    var rest := rules[..i] + rules[i + 1..];
    assert rest[..i] == rules[..i] && rest[i..] == rules[i + 1..];
  }

  /** The slot asked for is the one the rule came from. */
  lemma SameSlot(rules: seq<Rule>, name: string, pos: Position)
    requires Unique(rules) && Placeable(rules, name, pos) && Sits(rules, name, pos)
    ensures SlotFor(Without(rules, name), pos) == Find(rules, name)
  {
    var i, rest := Find(rules, name), Without(rules, name);
    WithoutNames(rules, name);
    match pos
    case Top =>
    case Bottom =>
    case Before(pivot) =>
      assert rest[i] == rules[i + 1];
      FindIs(rest, pivot, i);
    case After(pivot) =>
      assert rest[i - 1] == rules[i - 1];
      FindIs(rest, pivot, i - 1);
  }

  /** A rule already in its place is not moved by a move. */
  lemma MoveIdempotent(rules: seq<Rule>, name: string, pos: Position)
    requires Unique(rules) && Placeable(rules, name, pos) && Sits(rules, name, pos)
    ensures Placed(rules, name, pos) == rules
  {
    SameSlot(rules, name, pos);
    BackInPlace(rules, Find(rules, name));
  }

  /** A move changes the rulebase exactly when the rule is not in its place. */
  lemma MoveChanges(rules: seq<Rule>, name: string, pos: Position)
    requires Unique(rules) && Placeable(rules, name, pos)
    ensures Placed(rules, name, pos) == rules <==> Sits(rules, name, pos)
  {
    if Sits(rules, name, pos) {
      MoveIdempotent(rules, name, pos);
    } else {
      PlacedSits(rules, name, pos);
    }
  }

  /** The position is the last slot of a rulebase whose other rules are these. */
  predicate LastSlot(rest: seq<Rule>, pos: Position) {
    match pos
    case Top => rest == []
    case Bottom => true
    case Before(_) => false
    case After(pivot) => rest != [] && rest[|rest| - 1].name == pivot
  }

  lemma PlacedAtBottom(rules: seq<Rule>, name: string, pos: Position)
    requires Unique(rules) && Placeable(rules, name, pos)
    ensures Sits(Placed(rules, name, pos), name, Bottom) <==> LastSlot(Without(rules, name), pos)
  {
    var rest, r := Without(rules, name), rules[Find(rules, name)];
    PlacedIsInserted(rules, name, pos);
    WithoutNames(rules, name);
    InsertedElsewhere(rest, r, SlotFor(rest, pos));
    if pos.After? && LastSlot(rest, pos) {
      FindIs(rest, pos.pivot, |rest| - 1);
    }
  }

  // ----- In the words of the tools -----

  /** The pairs of position and relative_to that make sense. */
  predicate Worded(position: string, relativeTo: string) {
    || ((position == "top" || position == "bottom") && relativeTo == "")
    || ((position == "before" || position == "after") && relativeTo != "")
  }

  /** The rule at `i` stands where the words say. */
  predicate StandsAt(rules: seq<Rule>, i: nat, position: string, relativeTo: string)
    requires i < |rules|
  {
    && (position == "top" ==> i == 0)
    && (position == "bottom" ==> i == |rules| - 1)
    && (position == "before" ==> i + 1 < |rules| && rules[i + 1].name == relativeTo)
    && (position == "after" ==> i > 0 && rules[i - 1].name == relativeTo)
  }

  /** The rule of that name does. */
  ghost predicate StandsAs(rules: seq<Rule>, name: string, position: string, relativeTo: string) {
    exists i :: 0 <= i < |rules| && rules[i].name == name && StandsAt(rules, i, position, relativeTo)
  }

  lemma WordsAccepted(position: string, relativeTo: string)
    ensures MovePosition(position, relativeTo).Some? <==> Worded(position, relativeTo)
  {
  }

  lemma SitsAsWorded(rules: seq<Rule>, name: string, position: string, relativeTo: string)
    requires Worded(position, relativeTo)
    requires MovePosition(position, relativeTo).Some? && Sits(rules, name, MovePosition(position, relativeTo).value)
    ensures StandsAs(rules, name, position, relativeTo)
  {
    var i := Find(rules, name);
    assert rules[i].name == name && StandsAt(rules, i, position, relativeTo);
  }

  /** A rule can be placed so if it is there, and so is the other rule, if one is named. */
  lemma WordsPlaceable(rules: seq<Rule>, name: string, position: string, relativeTo: string)
    requires Worded(position, relativeTo)
    ensures MovePosition(position, relativeTo).Some?
    ensures Placeable(rules, name, MovePosition(position, relativeTo).value) <==>
              name in Names(rules) && (relativeTo != "" ==> relativeTo != name && relativeTo in Names(rules))
  {
  }

  // ----- Setting a rule -----

  /** A rule set by name: in place of the one of that name, or else last. */
  function WithRule(rules: seq<Rule>, r: Rule): seq<Rule> {
    var i := Find(rules, r.name);
    if i < |rules| then rules[i := r] else rules + [r]
  }

  /** Setting a rule puts it in the rulebase and leaves every other rule where it was. */
  lemma WithRuleSets(rules: seq<Rule>, r: Rule)
    requires Unique(rules)
    ensures var out := WithRule(rules, r);
            && Unique(out) && Without(out, r.name) == Without(rules, r.name)
            && Find(out, r.name) < |out| && out[Find(out, r.name)] == r
            && (r.name !in Names(rules) ==> out == rules + [r])
  {
    var i := Find(rules, r.name);
    if i < |rules| {
      ReplacedSets(rules, r, i);
    } else {
      assert Insert(rules, r, |rules|) == rules + [r];
      InsertedElsewhere(rules, r, |rules|);
    }
  }

  lemma ReplacedSets(rules: seq<Rule>, r: Rule, i: nat)
    requires Unique(rules) && i < |rules| && rules[i].name == r.name
    ensures var out := rules[i := r];
            Unique(out) && Find(out, r.name) == i && Find(rules, r.name) == i
            && Without(out, r.name) == Without(rules, r.name)
  {
    var out := rules[i := r];
    assert Names(out) == Names(rules);
    FindIs(rules, r.name, i);
    FindIs(out, r.name, i);
    assert out[..i] == rules[..i] && out[i + 1..] == rules[i + 1..];
  }

  /** It changes the rulebase exactly when the rule is not in it already. */
  lemma WithRuleChanges(rules: seq<Rule>, r: Rule)
    requires Unique(rules)
    ensures WithRule(rules, r) == rules <==> r in rules
  {
    var i := Find(rules, r.name);
    if r in rules {
      var j :| 0 <= j < |rules| && rules[j] == r;
      FindIs(rules, r.name, j);
    } else if i < |rules| {
      assert WithRule(rules, r)[i] == r;
    } else {
      assert |WithRule(rules, r)| == |rules| + 1;
    }
  }
}
