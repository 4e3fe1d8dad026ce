/** Shared vocabulary: optional values and the lexicographic order Python uses when it compares tuples. */
module Basics {

  /** An interned identifier (site, hub, transport, interface, path, event). Numbers stand for the strings of the
      program and are ordered as those strings are. */
  type Name = nat

  datatype Option<+T> = None | Some(value: T)

  datatype EgressMode = HubOverlay | DirectInternet | CloudGateway

  function Max(a: real, b: real): real {
    if a >= b then a else b
  }

  function ToSet<T>(s: seq<T>): set<T> {
    if s == [] then {} else {s[0]} + ToSet(s[1..])
  }

  lemma ToSetMeaning<T>(s: seq<T>)
    ensures forall x :: x in ToSet(s) <==> x in s
  {
    if s != [] {
      ToSetMeaning(s[1..]);
      assert s == [s[0]] + s[1..];
    }
  }

  ghost predicate Distinct(order: seq<Name>) {
    forall a, b :: 0 <= a < b < |order| ==> order[a] != order[b]
  }

  // ----- lexicographic order on sequences of reals

  /** Python's `<=` on tuples, with a proper prefix smaller than its extension. */
  predicate LexLe(a: seq<real>, b: seq<real>) {
    if a == [] then true
    else if b == [] then false
    else if a[0] != b[0] then a[0] < b[0]
    else LexLe(a[1..], b[1..])
  }

  lemma {:induction false} LexTotal(a: seq<real>, b: seq<real>)
    ensures LexLe(a, b) || LexLe(b, a)
  {
    if a != [] && b != [] && a[0] == b[0] {
      LexTotal(a[1..], b[1..]);
    }
  }

  lemma {:induction false} LexTransitive(a: seq<real>, b: seq<real>, c: seq<real>)
    requires LexLe(a, b) && LexLe(b, c)
    ensures LexLe(a, c)
  {
    if a != [] && b != [] && c != [] && a[0] == b[0] && b[0] == c[0] {
      LexTransitive(a[1..], b[1..], c[1..]);
    }
  }
}
