/** The values a configuration field can hold, shared by the field-by-field views of branches and settings. */
module FieldValues {
  import opened Wrappers

  datatype Val = Text(s: string) | Number(n: int) | Flag(b: bool) | List(items: seq<string>)

  function Texted(s: Option<string>): Option<Val> {
    if s.Some? then Some(Text(s.value)) else None
  }

  function Numbered(n: Option<int>): Option<Val> {
    if n.Some? then Some(Number(n.value)) else None
  }

  function Flagged(b: Option<bool>): Option<Val> {
    if b.Some? then Some(Flag(b.value)) else None
  }

  function Listed(items: Option<seq<string>>): Option<Val> {
    if items.Some? then Some(List(items.value)) else None
  }

  /** Nothing is lost in the lifting: equal values come from equal fields. */
  lemma LiftedApart(s: Option<string>, s': Option<string>, n: Option<int>, n': Option<int>,
                    b: Option<bool>, b': Option<bool>, l: Option<seq<string>>, l': Option<seq<string>>)
    ensures Texted(s) == Texted(s') <==> s == s'
    ensures Numbered(n) == Numbered(n') <==> n == n'
    ensures Flagged(b) == Flagged(b') <==> b == b'
    ensures Listed(l) == Listed(l') <==> l == l'
  {
  }
}
