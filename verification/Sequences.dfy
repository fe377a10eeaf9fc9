/** Facts about sequences, sets and names the proofs share. */
module Sequences {

  lemma {:induction false} Regroup<T>(a: seq<T>, b: seq<T>, c: seq<T>)
    ensures a + (b + c) == (a + b) + c
  {
  }

  lemma {:induction false} Regroup4<T>(a: seq<T>, b: seq<T>, c: seq<T>, d: seq<T>)
    ensures a + (b + (c + d)) == a + b + c + d
  {
  }

  lemma {:induction false} NothingInFront<T>(s: seq<T>)
    ensures [] + s == s
  {
  }

  lemma {:induction false} HeadTail<T>(s: seq<T>)
    requires s != []
    ensures s == [s[0]] + s[1..]
  {
  }

  lemma {:induction false} SubsetCard<T>(a: set<T>, b: set<T>)
    requires a <= b
    ensures |a| <= |b|
    decreases a
  {
    if a != {} {
      var x :| x in a;
      SubsetCard(a - {x}, b - {x});
    }
  }

  /** More places than values repeat a value. */
  lemma {:induction false} Pigeonhole<T>(values: set<T>, w: seq<T>) returns (i: nat, j: nat)
    requires |w| > |values| && forall x | x in w :: x in values
    ensures i < j < |w| && w[i] == w[j]
    decreases |w|
  {
    var front, last := w[..|w| - 1], w[|w| - 1];
    if last in front {
      i :| 0 <= i < |front| && front[i] == last;
      j := |front|;
    } else {
      i, j := Pigeonhole(values - {last}, front);
    }
  }

  // ----- the order of names -----

  /** Code-point order on names. */
  predicate NameLess(a: string, b: string)
  {
    if b == "" then false
    else if a == "" then true
    else a[0] < b[0] || (a[0] == b[0] && NameLess(a[1..], b[1..]))
  }

  lemma {:induction false} NameOrder(a: string, b: string)
    ensures !(NameLess(a, b) && NameLess(b, a))
    ensures a == b || NameLess(a, b) || NameLess(b, a)
    ensures !NameLess(a, a)
    decreases |a|
  {
    if a != "" {
      if b != "" { NameOrder(a[1..], b[1..]); }
      if b != "" && a[0] == b[0] && a[1..] == b[1..] {
        assert a == [a[0]] + a[1..] && b == [b[0]] + b[1..];
      }
      NameOrder(a[1..], a[1..]);
    }
  }

  lemma {:induction false} NameTransitive(a: string, b: string, c: string)
    requires NameLess(a, b) && NameLess(b, c)
    ensures NameLess(a, c)
    decreases |a|
  {
    if a != "" && a[0] == b[0] && b[0] == c[0] { NameTransitive(a[1..], b[1..], c[1..]); }
  }
}
