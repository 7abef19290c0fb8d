/** Status conditions: a list, searched from the front, that acts as a map from type to condition. */
module Conditions {
  import opened Common

  datatype Condition = Condition(ctype: string, status: string, reason: string, observed: int, transition: int)

  /** The condition a reader finds under a type: the first one. */
  function Lookup(conditions: seq<Condition>, t: string): Option<Condition> {
    if conditions == [] then None
    else if conditions[0].ctype == t then Some(conditions[0])
    else Lookup(conditions[1..], t)
  }

  predicate IsTrue(conditions: seq<Condition>, t: string) {
    var c := Lookup(conditions, t);
    c.Some? && c.value.status == "True"
  }

  /** The API's list-map contract: at most one condition per type. */
  ghost predicate UniqueTypes(conditions: seq<Condition>) {
    forall i, j :: 0 <= i < j < |conditions| ==> conditions[i].ctype != conditions[j].ctype
  }

  function Set(conditions: seq<Condition>, c: Condition): seq<Condition> {
    if conditions == [] then [c]
    else if conditions[0].ctype == c.ctype then [c] + conditions[1..]
    else [conditions[0]] + Set(conditions[1..], c)
  }

  /** Setting is map update: it is read back, and every other type still reads what it read before. */
  lemma {:induction false} SetIsMapUpdate(conditions: seq<Condition>, c: Condition, t: string)
    ensures Lookup(Set(conditions, c), t) == if t == c.ctype then Some(c) else Lookup(conditions, t)
  {
    if conditions != [] && conditions[0].ctype != c.ctype {
      SetIsMapUpdate(conditions[1..], c, t);
      var rest := Set(conditions[1..], c);
      assert ([conditions[0]] + rest)[1..] == rest;
    }
  }

  /** No condition is lost or duplicated, and types keep their places. */
  lemma {:induction false} SetKeepsList(conditions: seq<Condition>, c: Condition)
    requires UniqueTypes(conditions)
    ensures var r := Set(conditions, c);
      && UniqueTypes(r)
      && |r| == |conditions| + (if Lookup(conditions, c.ctype).Some? then 0 else 1)
      && (forall i :: 0 <= i < |conditions| ==> r[i].ctype == conditions[i].ctype)
      && (forall i :: 0 <= i < |conditions| && conditions[i].ctype != c.ctype ==> r[i] == conditions[i])
      && (Lookup(conditions, c.ctype).None? ==> r == conditions + [c])
  {
    if conditions != [] && conditions[0].ctype != c.ctype {
      SetKeepsList(conditions[1..], c);
      SetIsMapUpdate(conditions, c, conditions[0].ctype);
    }
  }

  /** The loop: overwrite the first condition of the same type, or append. */
  method SetCondition(conditions: seq<Condition>, c: Condition) returns (r: seq<Condition>)
    ensures r == Set(conditions, c)
  {
    for i := 0 to |conditions|
      invariant Set(conditions, c) == conditions[..i] + Set(conditions[i..], c)
    {
      if conditions[i].ctype == c.ctype {
        return conditions[i := c];
      }
    }
    return conditions + [c];
  }

  /** The last of several settings of one type is the one that is read. */
  lemma {:induction false} SetTwice(conditions: seq<Condition>, c: Condition, d: Condition)
    requires c.ctype == d.ctype
    ensures Set(Set(conditions, c), d) == Set(conditions, d)
  {
    if conditions != [] && conditions[0].ctype != c.ctype {
      SetTwice(conditions[1..], c, d);
      var rest := Set(conditions[1..], c);
      assert ([conditions[0]] + rest)[1..] == rest;
    }
  }
}
