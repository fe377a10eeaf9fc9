/** Which structs are emitted, and which come last, told from the fields alone. */
module StructFields {
  import opened Sequences
  import opened StructEmit

  /** The last struct given under the name. */
  ghost predicate StandsFor(ss: seq<Struct>, n: string, s: Struct)
  {
    exists k :: 0 <= k < |ss| && ss[k] == s && s.name == n && LastAt(ss, k)
  }

  ghost predicate LastAt(ss: seq<Struct>, k: nat)
    requires k < |ss|
  {
    forall j | k < j < |ss| :: ss[j].name != ss[k].name
  }

  ghost predicate IsStruct(ss: seq<Struct>, n: string) { exists s :: s in ss && s.name == n }

  /** The struct the first name stands for has a field whose type is the struct of the second. */
  ghost predicate FieldLeads(ss: seq<Struct>, a: string, b: string)
  {
    IsStruct(ss, b) && exists s :: StandsFor(ss, a, s) && b in s.types
  }

  /** From a struct the kernel does not define, field type by field type. */
  ghost predicate WantedBy(ss: seq<Struct>, existing: set<string>, w: seq<string>)
  {
    && w != [] && IsStruct(ss, w[0]) && w[0] !in existing
    && forall k | 0 < k < |w| :: FieldLeads(ss, w[k - 1], w[k])
  }

  ghost predicate Wanted(ss: seq<Struct>, existing: set<string>, n: string)
  {
    exists w :: WantedBy(ss, existing, w) && w[|w| - 1] == n
  }

  lemma {:induction false} LastStands(ss: seq<Struct>, n: string, s: Struct)
    requires ss != [] && ss[|ss| - 1].name == n
    ensures StandsFor(ss, n, s) <==> s == ss[|ss| - 1]
  {
    assert LastAt(ss, |ss| - 1);
  }

  lemma {:induction false} LastAtFront(ss: seq<Struct>, k: nat)
    requires k < |ss| - 1
    ensures LastAt(ss, k) <==> LastAt(ss[..|ss| - 1], k) && ss[|ss| - 1].name != ss[k].name
  {
    var last := |ss| - 1;
    var front := ss[..last];
    if LastAt(ss, k) {
      forall j | k < j < |front| ensures front[j].name != front[k].name { assert ss[j].name != ss[k].name; }
    }
    if LastAt(front, k) && ss[last].name != ss[k].name {
      forall j | k < j < |ss| ensures ss[j].name != ss[k].name {
        if j < last { assert front[j].name != front[k].name; }
      }
    }
  }

  lemma {:induction false} FrontStands(ss: seq<Struct>, n: string, s: Struct)
    requires ss != [] && ss[|ss| - 1].name != n
    ensures StandsFor(ss, n, s) <==> StandsFor(ss[..|ss| - 1], n, s)
  {
    var front := ss[..|ss| - 1];
    if StandsFor(front, n, s) {
      var k :| 0 <= k < |front| && front[k] == s && s.name == n && LastAt(front, k);
      LastAtFront(ss, k);
    }
    if StandsFor(ss, n, s) {
      var k :| 0 <= k < |ss| && ss[k] == s && s.name == n && LastAt(ss, k);
      assert k < |ss| - 1;
      LastAtFront(ss, k);
      assert front[k] == s;
    }
  }

  lemma {:induction false} ByNameIs(ss: seq<Struct>, n: string, s: Struct)
    ensures n in ByName(ss) && ByName(ss)[n] == s <==> StandsFor(ss, n, s)
    decreases ss
  {
    if ss != [] {
      if ss[|ss| - 1].name == n {
        LastStands(ss, n, s);
      } else {
        FrontStands(ss, n, s);
        ByNameIs(ss[..|ss| - 1], n, s);
      }
    }
  }

  lemma {:induction false} FieldLeadsIff(ss: seq<Struct>, a: string, b: string)
    ensures FieldLeads(ss, a, b) <==> a in ByName(ss) && b in Deps(ss, ByName(ss)[a])
  {
    if a in ByName(ss) { ByNameIs(ss, a, ByName(ss)[a]); }
    if s :| StandsFor(ss, a, s) && b in s.types { ByNameIs(ss, a, s); }
  }

  /** What `StructsToEmit` says of the listed names. */
  ghost predicate LeastClosed(ss: seq<Struct>, existing: set<string>, names: set<string>)
  {
    && Undefined(ss, existing) <= names && ClosedUnderFields(ss, names)
    && forall other | Undefined(ss, existing) <= other && ClosedUnderFields(ss, other) :: names <= other
  }

  ghost function AllWanted(ss: seq<Struct>, existing: set<string>): set<string>
  {
    set n | n in Names(ss) && Wanted(ss, existing, n)
  }

  lemma {:induction false} WantedFurther(ss: seq<Struct>, existing: set<string>, a: string, b: string)
    requires Wanted(ss, existing, a) && FieldLeads(ss, a, b)
    ensures Wanted(ss, existing, b)
  {
    var w :| WantedBy(ss, existing, w) && w[|w| - 1] == a;
    var more := w + [b];
    forall k | 0 < k < |more| ensures FieldLeads(ss, more[k - 1], more[k]) {
      if k < |w| { assert more[k - 1] == w[k - 1] && more[k] == w[k]; }
    }
    assert WantedBy(ss, existing, more) && more[|more| - 1] == b;
  }

  lemma {:induction false} AllWantedClosed(ss: seq<Struct>, existing: set<string>)
    ensures Undefined(ss, existing) <= AllWanted(ss, existing) && ClosedUnderFields(ss, AllWanted(ss, existing))
  {
    var all := AllWanted(ss, existing);
    forall n | n in Undefined(ss, existing) ensures n in all { assert WantedBy(ss, existing, [n]); }
    forall n | n in all && n in ByName(ss) ensures Deps(ss, ByName(ss)[n]) <= all {
      forall t | t in Deps(ss, ByName(ss)[n]) ensures t in all {
        FieldLeadsIff(ss, n, t);
        WantedFurther(ss, existing, n, t);
      }
    }
  }

  lemma {:induction false} WantedIsHeld(ss: seq<Struct>, existing: set<string>, names: set<string>, w: seq<string>)
    requires Undefined(ss, existing) <= names && ClosedUnderFields(ss, names) && WantedBy(ss, existing, w)
    ensures w[|w| - 1] in names
    decreases |w|
  {
    if |w| > 1 {
      var front := w[..|w| - 1];
      WantedIsHeld(ss, existing, names, front);
      assert FieldLeads(ss, w[|w| - 2], w[|w| - 1]);
      FieldLeadsIff(ss, w[|w| - 2], w[|w| - 1]);
    } else {
      var s :| s in ss && s.name == w[0];
      assert s.name in Undefined(ss, existing);
    }
  }

  /** A name is emitted exactly when field types lead to it from a struct the kernel does not define, following each
      time the last struct of a name. */
  lemma {:induction false} EmittedIffWanted(ss: seq<Struct>, existing: set<string>, ordered: seq<Struct>, n: string)
    requires LeastClosed(ss, existing, Names(ordered))
    ensures IsStruct(ordered, n) <==> Wanted(ss, existing, n)
  {
    AllWantedClosed(ss, existing);
    assert Names(ordered) <= AllWanted(ss, existing);
    assert IsStruct(ordered, n) <==> n in Names(ordered);
    if Wanted(ss, existing, n) {
      var w :| WantedBy(ss, existing, w) && w[|w| - 1] == n;
      WantedIsHeld(ss, existing, Names(ordered), w);
    }
  }

  /** Every struct of such a name is listed, and as often as it is given. */
  lemma {:induction false} ListedAsGiven(ss: seq<Struct>, ordered: seq<Struct>, s: Struct)
    requires multiset(ordered) == multiset(Filter(ss, Names(ordered)))
    ensures s in ordered <==> s in ss && IsStruct(ordered, s.name)
    ensures s in ordered ==> multiset(ordered)[s] == multiset(ss)[s]
  {
    FilterKeeps(ss, Names(ordered));
    FilterCounts(ss, Names(ordered), s);
    assert s in ordered <==> s in multiset(ordered);
    assert s in Filter(ss, Names(ordered)) <==> s in multiset(Filter(ss, Names(ordered)));
  }

  // ----- the order -----

  /** A struct has a field of a listed type. */
  ghost predicate HasListed(ordered: seq<Struct>, s: Struct, t: string) { t in s.types && IsStruct(ordered, t) }

  lemma {:induction false} ListedDeps(ss: seq<Struct>, ordered: seq<Struct>, s: Struct, t: string)
    requires forall d | d in ordered :: d in ss
    ensures HasListed(ordered, s, t) <==> t in Deps(ss, s) && t in Names(ordered)
  {
  }

  /** Up to `placed`, every struct stands behind a struct of each listed type its fields have. */
  lemma {:induction false} FieldsComeFirst(ss: seq<Struct>, ordered: seq<Struct>, placed: nat, k: nat, t: string)
    requires PlacedUpTo(ss, ordered, placed) && (forall d | d in ordered :: d in ss)
    requires k < placed && HasListed(ordered, ordered[k], t)
    ensures exists j :: 0 <= j < k && ordered[j].name == t
  {
    ListedDeps(ss, ordered, ordered[k], t);
    assert NamedBefore(ordered, k, t);
  }

  /** Structs none of which can come first: each needs a listed type all of whose structs are among them. */
  ghost predicate Deadlock(ss: seq<Struct>, ordered: seq<Struct>, knot: set<Struct>)
  {
    forall s | s in knot :: Blocked(ss, ordered, knot, s)
  }

  ghost predicate Blocked(ss: seq<Struct>, ordered: seq<Struct>, knot: set<Struct>, s: Struct)
  {
    exists t :: HasListed(ordered, s, t) && forall d | d in ss && d.name == t :: d in knot
  }

  lemma {:induction false} BlockedIff(ss: seq<Struct>, ordered: seq<Struct>, knot: set<Struct>, s: Struct)
    requires forall d | d in ordered :: d in ss
    ensures Blocked(ss, ordered, knot, s) <==>
            exists t :: t in Deps(ss, s) * Names(ordered) && forall d | d in ss && d.name == t :: d in knot
  {
    if t :| HasListed(ordered, s, t) && forall d | d in ss && d.name == t :: d in knot {
      ListedDeps(ss, ordered, s, t);
      assert t in Deps(ss, s) * Names(ordered);
    }
    if t :| t in Deps(ss, s) * Names(ordered) && forall d | d in ss && d.name == t :: d in knot {
      ListedDeps(ss, ordered, s, t);
      assert HasListed(ordered, s, t);
    }
  }

  lemma {:induction false} DeadlockIff(ss: seq<Struct>, ordered: seq<Struct>, knot: set<Struct>)
    requires forall d | d in ordered :: d in ss
    ensures Deadlock(ss, ordered, knot) <==> Knot(ss, Names(ordered), knot)
  {
    forall s ensures Blocked(ss, ordered, knot, s) <==>
            exists t :: t in Deps(ss, s) * Names(ordered) && forall d | d in ss && d.name == t :: d in knot {
      BlockedIff(ss, ordered, knot, s);
    }
  }

  /** From `placed` on stand exactly the structs that are among such as block one another. */
  lemma {:induction false} LastIffBlocked(ss: seq<Struct>, ordered: seq<Struct>, placed: nat, k: nat)
    requires PlacedUpTo(ss, ordered, placed) && (forall d | d in ordered :: d in ss) && k < |ordered|
    ensures k >= placed <==> exists knot :: ordered[k] in knot && Deadlock(ss, ordered, knot)
  {
    if knot :| ordered[k] in knot && Deadlock(ss, ordered, knot) { DeadlockIff(ss, ordered, knot); }
    if knot :| ordered[k] in knot && Knot(ss, Names(ordered), knot) { DeadlockIff(ss, ordered, knot); }
  }
}
