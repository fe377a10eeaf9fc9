/** Which tiling structs are emitted, and in what order. */
module StructEmit {
  import opened Sequences

  /** A macro-declared struct; `types` are the type names of its fields, blank for primitive ones. */
  datatype Struct = Struct(name: string, types: seq<string>)

  predicate UniqueNames(ss: seq<Struct>)
  {
    forall i, j | 0 <= i < j < |ss| :: ss[i].name != ss[j].name
  }

  function Names(ss: seq<Struct>): set<string>
  {
    set s | s in ss :: s.name
  }

  /** The field types of a struct that are themselves among the structs. */
  function Deps(ss: seq<Struct>, s: Struct): set<string>
  {
    set t | t in s.types && t in Names(ss)
  }

  // ----- the chosen set -----

  function Undefined(ss: seq<Struct>, existing: set<string>): set<string>
  {
    set s | s in ss && s.name !in existing :: s.name
  }

  /** The struct a name stands for: the last one of that name. */
  function ByName(ss: seq<Struct>): (m: map<string, Struct>)
    ensures m.Keys == Names(ss) && forall n | n in m :: m[n] in ss && m[n].name == n
  {
    if ss == [] then map[]
    else
      var front, s := ss[..|ss| - 1], ss[|ss| - 1];
      assert ss == front + [s];
      ByName(front)[s.name := s]
  }

  /** With each name the set holds every name the fields of its struct name. */
  ghost predicate ClosedUnderFields(ss: seq<Struct>, names: set<string>)
  {
    forall n | n in names && n in ByName(ss) :: Deps(ss, ByName(ss)[n]) <= names
  }

  /** The struct of some name of the set has a field of type `t`. */
  ghost predicate NamedFrom(ss: seq<Struct>, names: set<string>, t: string)
  {
    exists n :: n in names && n in ByName(ss) && t in Deps(ss, ByName(ss)[n])
  }

  /** What the structs of `emit` name that is not in it yet. */
  method MissingFrom(ss: seq<Struct>, emit: set<string>) returns (extra: set<string>)
    ensures forall t :: t in extra <==> t !in emit && NamedFrom(ss, emit, t)
  {
    extra := {};
    var byName, todo := ByName(ss), emit;
    while todo != {}
      invariant todo <= emit
      invariant forall t :: t in extra <==> t !in emit && NamedFrom(ss, emit - todo, t)
    {
      var n :| n in todo;
      NamedFromOne(ss, emit - todo, n);
      assert emit - (todo - {n}) == emit - todo + {n};
      if n in byName { extra := extra + (Deps(ss, byName[n]) - emit); }
      todo := todo - {n};
    }
    assert emit - todo == emit;
  }

  lemma {:induction false} NamedFromOne(ss: seq<Struct>, names: set<string>, n: string)
    ensures forall t :: NamedFrom(ss, names + {n}, t) <==>
              NamedFrom(ss, names, t) || (n in ByName(ss) && t in Deps(ss, ByName(ss)[n]))
  {
    forall t | NamedFrom(ss, names, t) ensures NamedFrom(ss, names + {n}, t) {
      var m :| m in names && m in ByName(ss) && t in Deps(ss, ByName(ss)[m]);
      assert m in names + {n};
    }
    assert n in names + {n};
  }

  /** The least set that holds what the kernel does not define and is closed under field types. */
  method Choose(ss: seq<Struct>, existing: set<string>) returns (emit: set<string>)
    ensures Undefined(ss, existing) <= emit <= Names(ss)
    ensures ClosedUnderFields(ss, emit)
    ensures forall names | Undefined(ss, existing) <= names && ClosedUnderFields(ss, names) :: emit <= names
  {
    emit := Undefined(ss, existing);
    var changed := true;
    while changed
      invariant Undefined(ss, existing) <= emit <= Names(ss)
      invariant !changed ==> ClosedUnderFields(ss, emit)
      invariant forall names | Undefined(ss, existing) <= names && ClosedUnderFields(ss, names) :: emit <= names
      decreases Names(ss) - emit, changed
    {
      changed := false;
      var extra := MissingFrom(ss, emit);
      forall t | t in extra ensures t in Names(ss) {}
      if extra != {} {
        forall names | Undefined(ss, existing) <= names && ClosedUnderFields(ss, names) ensures extra <= names {}
        ghost var t :| t in extra;
        assert t in Names(ss) - emit;
        emit := emit + extra;
        changed := true;
      }
    }
  }

  // ----- the order -----

  /** Every struct stands behind the emitted structs its fields name. */
  ghost predicate Placed(ss: seq<Struct>, emit: set<string>, ordered: seq<Struct>)
  {
    PlacedFirst(ss, emit, ordered, |ordered|)
  }

  /** The first `n` do. */
  ghost predicate PlacedFirst(ss: seq<Struct>, emit: set<string>, ordered: seq<Struct>, n: nat)
    requires n <= |ordered|
  {
    forall k, t | 0 <= k < n && t in Deps(ss, ordered[k]) && t in emit :: NamedBefore(ordered, k, t)
  }

  ghost predicate NamedBefore(ordered: seq<Struct>, k: nat, name: string)
  {
    exists j :: 0 <= j < k && j < |ordered| && ordered[j].name == name
  }

  /** Each member has a field of an emitted type all of whose definitions are members: none of them can come first. */
  ghost predicate Knot(ss: seq<Struct>, emit: set<string>, knot: set<Struct>)
  {
    forall s | s in knot :: exists t :: t in Deps(ss, s) * emit && forall d | d in ss && d.name == t :: d in knot
  }

  ghost predicate InKnot(ss: seq<Struct>, emit: set<string>, s: Struct)
  {
    exists knot :: s in knot && Knot(ss, emit, knot)
  }

  /** The structs before `placed` stand behind what their fields name, those from there on are in knots. */
  ghost predicate PlacedUpTo(ss: seq<Struct>, ordered: seq<Struct>, placed: nat)
  {
    && placed <= |ordered| && PlacedFirst(ss, Names(ordered), ordered, placed)
    && forall k | 0 <= k < |ordered| :: k >= placed <==> InKnot(ss, Names(ordered), ordered[k])
  }

  lemma {:induction false} PlacedIsInNoKnot(
    ss: seq<Struct>, emit: set<string>, ordered: seq<Struct>, knot: set<Struct>, k: nat)
    requires Placed(ss, emit, ordered) && Knot(ss, emit, knot) && (forall s | s in ordered :: s in ss)
    requires k < |ordered|
    ensures ordered[k] !in knot
    decreases k
  {
    if ordered[k] in knot {
      var t :| t in Deps(ss, ordered[k]) * emit && forall d | d in ss && d.name == t :: d in knot;
      assert NamedBefore(ordered, k, t);
      var j :| 0 <= j < k && ordered[j].name == t;
      assert ordered[j] in ordered;
      PlacedIsInNoKnot(ss, emit, ordered, knot, j);
    }
  }

  lemma {:induction false} NoKnotBefore(ss: seq<Struct>, emit: set<string>, ordered: seq<Struct>)
    requires Placed(ss, emit, ordered) && forall s | s in ordered :: s in ss
    ensures forall k | 0 <= k < |ordered| :: !InKnot(ss, emit, ordered[k])
  {
    forall k | 0 <= k < |ordered| ensures !InKnot(ss, emit, ordered[k]) {
      forall knot | Knot(ss, emit, knot) ensures ordered[k] !in knot {
        PlacedIsInNoKnot(ss, emit, ordered, knot, k);
      }
    }
  }

  // ----- the loop -----

  /** The structs with these names, in their order, as often as they are given. */
  function Filter(ss: seq<Struct>, names: set<string>): seq<Struct>
  {
    if ss == [] then []
    else
      var front, s := Filter(ss[..|ss| - 1], names), ss[|ss| - 1];
      if s.name in names then front + [s] else front
  }

  lemma {:induction false} FilterKeeps(ss: seq<Struct>, names: set<string>)
    ensures forall s :: s in Filter(ss, names) <==> s in ss && s.name in names
    decreases ss
  {
    if ss != [] {
      FilterKeeps(ss[..|ss| - 1], names);
      assert ss == ss[..|ss| - 1] + [ss[|ss| - 1]];
    }
  }

  method Filtered(ss: seq<Struct>, emit: set<string>) returns (chosen: seq<Struct>)
    ensures chosen == Filter(ss, emit)
  {
    chosen := [];
    for i := 0 to |ss|
      invariant chosen == Filter(ss[..i], emit)
    {
      assert ss[..i + 1][..i] == ss[..i];
      if ss[i].name in emit { chosen := chosen + [ss[i]]; }
    }
    assert ss[..|ss|] == ss;
  }

  /** Both lists together hold what was chosen, each struct as often. */
  ghost predicate Splits(chosen: seq<Struct>, ordered: seq<Struct>, rest: seq<Struct>)
  {
    multiset(ordered) + multiset(rest) == multiset(chosen)
  }

  lemma {:induction false} SplitsHold(chosen: seq<Struct>, ordered: seq<Struct>, rest: seq<Struct>)
    requires Splits(chosen, ordered, rest)
    ensures forall s :: s in chosen <==> s in ordered || s in rest
  {
    forall s ensures s in chosen <==> s in ordered || s in rest {
      assert s in multiset(chosen) <==> s in multiset(ordered) || s in multiset(rest);
    }
  }

  /** One pass over the structs that are left: those whose field types are all placed are placed. */
  method Pass(
    ss: seq<Struct>, emit: set<string>, ghost chosen: seq<Struct>, ordered: seq<Struct>, remaining: seq<Struct>,
    ready: set<string>)
    returns (ordered': seq<Struct>, rest: seq<Struct>, ready': set<string>, progressed: bool)
    requires Splits(chosen, ordered, remaining) && Placed(ss, emit, ordered) && ready == Names(ordered)
    ensures Splits(chosen, ordered', rest) && Placed(ss, emit, ordered') && ready' == Names(ordered')
    ensures progressed ==> |rest| < |remaining|
    ensures !progressed ==>
              && rest == remaining && ordered' == ordered
              && forall s | s in rest :: !(Deps(ss, s) * emit <= ready)
  {
    ordered', rest, ready', progressed := ordered, [], ready, false;
    ghost var later := remaining;
    NothingInFront(remaining);
    for i := 0 to |remaining|
      invariant later == remaining[i..] && ready' == Names(ordered')
      invariant Passing(ss, emit, chosen, ordered, remaining, i, ordered', rest, later, progressed)
    {
      var s := remaining[i];
      PlaceTest(ss, emit, s, ready');
      assert s == later[0];
      if Deps(ss, s) <= ready' + (Names(ss) - emit) {
        PassPlaces(ss, emit, chosen, ordered, remaining, i, ordered', rest, later, progressed);
        ordered', ready', progressed := ordered' + [s], ready' + {s.name}, true;
      } else {
        PassKeeps(ss, emit, chosen, ordered, remaining, i, ordered', rest, later, progressed);
        rest := rest + [s];
      }
      later := later[1..];
    }
    assert rest + [] == rest;
  }

  /** Field types that are not emitted never hold a struct back. */
  lemma {:induction false} PlaceTest(ss: seq<Struct>, emit: set<string>, s: Struct, ready: set<string>)
    ensures Deps(ss, s) <= ready + (Names(ss) - emit) <==> Deps(ss, s) * emit <= ready
  {
  }

  /** The state of a pass after `i` structs, with `later` still to come. */
  ghost predicate Passing(
    ss: seq<Struct>, emit: set<string>, chosen: seq<Struct>, ordered: seq<Struct>, remaining: seq<Struct>, i: nat,
    ordered': seq<Struct>, rest: seq<Struct>, later: seq<Struct>, progressed: bool)
  {
    && Splits(chosen, ordered', rest + later) && Placed(ss, emit, ordered')
    && |rest| <= i && (progressed ==> |rest| < i)
    && (!progressed ==> rest + later == remaining && ordered' == ordered)
    && (!progressed ==> forall s | s in rest :: !(Deps(ss, s) * emit <= Names(ordered)))
  }

  lemma {:induction false} PassPlaces(
    ss: seq<Struct>, emit: set<string>, chosen: seq<Struct>, ordered: seq<Struct>, remaining: seq<Struct>, i: nat,
    ordered': seq<Struct>, rest: seq<Struct>, later: seq<Struct>, progressed: bool)
    requires later != [] && Passing(ss, emit, chosen, ordered, remaining, i, ordered', rest, later, progressed)
    requires Deps(ss, later[0]) * emit <= Names(ordered')
    ensures Passing(ss, emit, chosen, ordered, remaining, i + 1, ordered' + [later[0]], rest, later[1..], true)
    ensures Names(ordered' + [later[0]]) == Names(ordered') + {later[0].name}
  {
    PlacedSnoc(ss, emit, ordered', later[0]);
    HeadTail(later);
    SplitsMove(chosen, ordered', rest, later[0], later[1..]);
  }

  lemma {:induction false} SplitsMove(
    chosen: seq<Struct>, ordered: seq<Struct>, kept: seq<Struct>, s: Struct, rest: seq<Struct>)
    requires Splits(chosen, ordered, kept + ([s] + rest))
    ensures Splits(chosen, ordered + [s], kept + rest)
  {
  }

  lemma {:induction false} PassKeeps(
    ss: seq<Struct>, emit: set<string>, chosen: seq<Struct>, ordered: seq<Struct>, remaining: seq<Struct>, i: nat,
    ordered': seq<Struct>, rest: seq<Struct>, later: seq<Struct>, progressed: bool)
    requires later != [] && Passing(ss, emit, chosen, ordered, remaining, i, ordered', rest, later, progressed)
    requires !(Deps(ss, later[0]) * emit <= Names(ordered'))
    ensures Passing(ss, emit, chosen, ordered, remaining, i + 1, ordered', rest + [later[0]], later[1..], progressed)
  {
    HeadTail(later);
    Regroup(rest, [later[0]], later[1..]);
  }

  lemma {:induction false} PlacedSnoc(ss: seq<Struct>, emit: set<string>, ordered: seq<Struct>, s: Struct)
    requires Placed(ss, emit, ordered) && Deps(ss, s) * emit <= Names(ordered)
    ensures Placed(ss, emit, ordered + [s]) && Names(ordered + [s]) == Names(ordered) + {s.name}
  {
    var more := ordered + [s];
    forall k, t | 0 <= k < |more| && t in Deps(ss, more[k]) && t in emit ensures NamedBefore(more, k, t) {
      var j: nat;
      if k < |ordered| {
        assert NamedBefore(ordered, k, t);
        j :| 0 <= j < k && ordered[j].name == t;
      } else {
        assert t in Names(ordered);
        j :| 0 <= j < |ordered| && ordered[j].name == t;
      }
      assert more[j].name == t;
    }
    assert forall x :: x in more <==> x in ordered || x == s;
  }

  /** When nothing can be placed any more, what is left is a knot. */
  lemma {:induction false} StuckIsKnot(
    ss: seq<Struct>, emit: set<string>, chosen: seq<Struct>, ordered: seq<Struct>, rest: seq<Struct>)
    requires Splits(chosen, ordered, rest) && forall s :: s in chosen <==> s in ss && s.name in emit
    requires forall s | s in rest :: !(Deps(ss, s) * emit <= Names(ordered))
    ensures Knot(ss, emit, set s | s in rest)
  {
    SplitsHold(chosen, ordered, rest);
    var knot := set s | s in rest;
    forall s | s in knot ensures exists t :: t in Deps(ss, s) * emit && forall d | d in ss && d.name == t :: d in knot {
      var t :| t in Deps(ss, s) * emit && t !in Names(ordered);
      forall d | d in ss && d.name == t ensures d in knot { assert d in chosen; }
    }
  }

  /** What is put at the end is exactly what is in knots. */
  lemma {:induction false} KnotsAtEnd(
    ss: seq<Struct>, emit: set<string>, chosen: seq<Struct>, ordered: seq<Struct>, rest: seq<Struct>)
    requires Splits(chosen, ordered, rest) && forall s :: s in chosen <==> s in ss && s.name in emit
    requires Placed(ss, emit, ordered) && forall s | s in rest :: !(Deps(ss, s) * emit <= Names(ordered))
    ensures forall k | 0 <= k < |ordered| :: !InKnot(ss, emit, ordered[k])
    ensures forall k | 0 <= k < |rest| :: InKnot(ss, emit, rest[k])
  {
    SplitsHold(chosen, ordered, rest);
    StuckIsKnot(ss, emit, chosen, ordered, rest);
    NoKnotBefore(ss, emit, ordered);
    var knot := set s | s in rest;
    forall k | 0 <= k < |rest| ensures InKnot(ss, emit, rest[k]) { assert rest[k] in knot; }
  }

  /** The whole list, once nothing can be placed any more. */
  lemma {:induction false} Listed(
    ss: seq<Struct>, emit: set<string>, chosen: seq<Struct>, ordered: seq<Struct>, rest: seq<Struct>)
    requires Splits(chosen, ordered, rest) && chosen == Filter(ss, emit) && emit <= Names(ss)
    requires Placed(ss, emit, ordered) && forall s | s in rest :: !(Deps(ss, s) * emit <= Names(ordered))
    ensures Names(ordered + rest) == emit && multiset(ordered + rest) == multiset(chosen)
    ensures PlacedUpTo(ss, ordered + rest, |ordered|)
  {
    FilterKeeps(ss, emit);
    SplitsHold(chosen, ordered, rest);
    ListedNames(ss, emit, ordered + rest);
    KnotsAtEnd(ss, emit, chosen, ordered, rest);
    UpToRest(ss, emit, ordered, rest);
  }

  lemma {:induction false} UpToRest(ss: seq<Struct>, emit: set<string>, ordered: seq<Struct>, rest: seq<Struct>)
    requires Names(ordered + rest) == emit && Placed(ss, emit, ordered)
    requires forall k | 0 <= k < |ordered| :: !InKnot(ss, emit, ordered[k])
    requires forall k | 0 <= k < |rest| :: InKnot(ss, emit, rest[k])
    ensures PlacedUpTo(ss, ordered + rest, |ordered|)
  {
    var all := ordered + rest;
    forall k, t | 0 <= k < |ordered| && t in Deps(ss, all[k]) && t in emit ensures NamedBefore(all, k, t) {
      assert NamedBefore(ordered, k, t);
      var j :| 0 <= j < k && ordered[j].name == t;
      assert all[j] == ordered[j];
    }
    forall k | 0 <= k < |all| ensures k >= |ordered| <==> InKnot(ss, emit, all[k]) {
      if k >= |ordered| { assert all[k] == rest[k - |ordered|]; } else { assert all[k] == ordered[k]; }
    }
  }

  lemma {:induction false} ListedNames(ss: seq<Struct>, emit: set<string>, ordered: seq<Struct>)
    requires emit <= Names(ss) && forall s :: s in ordered <==> s in ss && s.name in emit
    ensures Names(ordered) == emit
  {
    forall n | n in emit ensures n in Names(ordered) {
      var s :| s in ss && s.name == n;
      assert s in ordered;
    }
  }

  /** The structs to emit: first those in no knot, each behind what its fields name, then the others. */
  method StructsToEmit(ss: seq<Struct>, existing: set<string>) returns (ordered: seq<Struct>)
    // the listed names are the least set that is closed under field types
    ensures Undefined(ss, existing) <= Names(ordered) && ClosedUnderFields(ss, Names(ordered))
    ensures forall names | Undefined(ss, existing) <= names && ClosedUnderFields(ss, names) :: Names(ordered) <= names
    // every struct of such a name is listed, as often as it is given
    ensures multiset(ordered) == multiset(Filter(ss, Names(ordered)))
    // first come the structs in no knot, each behind all the emitted structs its fields name, then the others
    ensures exists placed :: PlacedUpTo(ss, ordered, placed)
  {
    var emit := Choose(ss, existing);
    var chosen := Filtered(ss, emit);
    ordered := [];
    var remaining, ready := chosen, {};
    while remaining != []
      invariant Splits(chosen, ordered, remaining) && Placed(ss, emit, ordered) && ready == Names(ordered)
      decreases |remaining|
    {
      var progressed, rest;
      ordered, rest, ready, progressed := Pass(ss, emit, chosen, ordered, remaining, ready);
      if !progressed {
        Listed(ss, emit, chosen, ordered, rest);
        ordered := ordered + rest;
        return;
      }
      remaining := rest;
    }
    Listed(ss, emit, chosen, ordered, []);
    assert ordered + [] == ordered;
  }

  // ----- structs of different names -----

  /** A struct `a` has a field whose type is the struct `b`. */
  ghost predicate HasField(ss: seq<Struct>, a: string, b: string)
  {
    exists s :: s in ss && s.name == a && b in Deps(ss, s)
  }

  /** Each name is a field type of the one before. */
  ghost predicate Chain(ss: seq<Struct>, emit: set<string>, w: seq<string>)
  {
    && w != [] && (forall x | x in w :: x in emit)
    && forall k | 0 < k < |w| :: HasField(ss, w[k - 1], w[k])
  }

  /** The last name of the chain stands in it before. */
  ghost predicate EndsInCycle(w: seq<string>)
  {
    exists i :: 0 <= i < |w| - 1 && w[i] == w[|w| - 1]
  }

  /** Going from a struct to a field type and on, one comes to a cycle. */
  ghost predicate LeadsToCycle(ss: seq<Struct>, emit: set<string>, name: string)
  {
    exists w :: Chain(ss, emit, w) && w[0] == name && EndsInCycle(w)
  }

  /** Each member names another member, or itself: there is no order in which all follow what they name. */
  ghost predicate Knotted(ss: seq<Struct>, names: set<string>)
  {
    forall s | s in ss && s.name in names :: Deps(ss, s) * names != {}
  }

  /** From a member of a knot one can go on for ever. */
  lemma {:induction false} WalkOn(ss: seq<Struct>, names: set<string>, name: string, n: nat) returns (w: seq<string>)
    requires Knotted(ss, names) && names <= Names(ss) && name in names
    ensures Chain(ss, names, w) && w[0] == name && |w| == n + 1
    decreases n
  {
    if n == 0 {
      w := [name];
    } else {
      var s :| s in ss && s.name == name;
      var t :| t in Deps(ss, s) * names;
      var rest := WalkOn(ss, names, t, n - 1);
      w := [name] + rest;
      assert HasField(ss, name, t);
      forall k | 0 < k < |w| ensures HasField(ss, w[k - 1], w[k]) {
        if k > 1 { assert HasField(ss, rest[k - 2], rest[k - 1]); }
      }
    }
  }

  lemma {:induction false} KnotsLeadToCycles(ss: seq<Struct>, emit: set<string>, names: set<string>, name: string)
    requires Knotted(ss, names) && names <= emit && names <= Names(ss) && name in names
    ensures LeadsToCycle(ss, emit, name)
  {
    var w := WalkOn(ss, names, name, |names|);
    var i, j := Pigeonhole(names, w);
    var c := w[..j + 1];
    assert c[i] == c[|c| - 1];
    assert Chain(ss, emit, c) && c[0] == name && EndsInCycle(c);
  }

  /** The names of a chain into a cycle are a knot. */
  lemma {:induction false} CyclesAreKnots(ss: seq<Struct>, emit: set<string>, w: seq<string>)
    requires UniqueNames(ss) && Chain(ss, emit, w) && EndsInCycle(w)
    ensures Knotted(ss, set x | x in w) && (set x | x in w) <= emit
  {
    var names := set x | x in w;
    forall s | s in ss && s.name in names ensures Deps(ss, s) * names != {} {
      var k :| 0 <= k < |w| && w[k] == s.name;
      var i :| 0 <= i < |w| - 1 && w[i] == w[|w| - 1];
      var at := if k < |w| - 1 then k else i;
      assert HasField(ss, w[at], w[at + 1]);
      var a :| a in ss && a.name == w[at] && w[at + 1] in Deps(ss, a);
      SameName(ss, a, s);
      assert w[at + 1] in Deps(ss, s) * names;
    }
  }

  lemma {:induction false} SameName(ss: seq<Struct>, a: Struct, b: Struct)
    requires UniqueNames(ss) && a in ss && b in ss && a.name == b.name
    ensures a == b
  {
    var i, j :| 0 <= i < |ss| && ss[i] == a && 0 <= j < |ss| && ss[j] == b;
    assert !(i < j) && !(j < i);
  }

  function KnotNames(ss: seq<Struct>, emit: set<string>, knot: set<Struct>): set<string>
  {
    set d | d in knot && d in ss && d.name in emit :: d.name
  }

  lemma {:induction false} KnotNamesAre(ss: seq<Struct>, emit: set<string>, knot: set<Struct>, s: Struct)
    ensures KnotNames(ss, emit, knot) <= emit && KnotNames(ss, emit, knot) <= Names(ss)
    ensures s in ss && s.name in emit && s in knot ==> s.name in KnotNames(ss, emit, knot)
  {
  }

  /** The emitted names of a knot name one another. */
  lemma {:induction false} KnotIsKnotted(ss: seq<Struct>, emit: set<string>, knot: set<Struct>)
    requires UniqueNames(ss) && Knot(ss, emit, knot)
    ensures Knotted(ss, KnotNames(ss, emit, knot))
  {
    var names := KnotNames(ss, emit, knot);
    forall s | s in ss && s.name in names ensures Deps(ss, s) * names != {} {
      var d :| d in knot && d in ss && d.name == s.name;
      SameName(ss, d, s);
      var t :| t in Deps(ss, s) * emit && forall x | x in ss && x.name == t :: x in knot;
      var x :| x in ss && x.name == t;
      assert t in Deps(ss, s) * names;
    }
  }

  lemma {:induction false} KnotLeadsToCycle(ss: seq<Struct>, emit: set<string>, s: Struct, knot: set<Struct>)
    requires UniqueNames(ss) && emit <= Names(ss) && s in ss && s.name in emit && s in knot && Knot(ss, emit, knot)
    ensures LeadsToCycle(ss, emit, s.name)
  {
    KnotIsKnotted(ss, emit, knot);
    KnotNamesAre(ss, emit, knot, s);
    KnotsLeadToCycles(ss, emit, KnotNames(ss, emit, knot), s.name);
  }

  lemma {:induction false} CycleIsInKnot(ss: seq<Struct>, emit: set<string>, s: Struct, w: seq<string>)
    requires UniqueNames(ss) && s in ss && Chain(ss, emit, w) && w[0] == s.name && EndsInCycle(w)
    ensures InKnot(ss, emit, s)
  {
    CyclesAreKnots(ss, emit, w);
    KnottedIsKnot(ss, emit, set x | x in w);
  }

  /** Where names are unique, a struct is in a knot exactly when its field types lead to a cycle. */
  lemma {:induction false} KnotIffCycle(ss: seq<Struct>, emit: set<string>, s: Struct)
    requires UniqueNames(ss) && emit <= Names(ss) && s in ss && s.name in emit
    ensures InKnot(ss, emit, s) <==> LeadsToCycle(ss, emit, s.name)
  {
    forall knot | s in knot && Knot(ss, emit, knot) ensures LeadsToCycle(ss, emit, s.name) {
      KnotLeadsToCycle(ss, emit, s, knot);
    }
    forall w | Chain(ss, emit, w) && w[0] == s.name && EndsInCycle(w) ensures InKnot(ss, emit, s) {
      CycleIsInKnot(ss, emit, s, w);
    }
  }

  lemma {:induction false} KnottedIsKnot(ss: seq<Struct>, emit: set<string>, names: set<string>)
    requires Knotted(ss, names) && names <= emit
    ensures forall s | s in ss && s.name in names :: InKnot(ss, emit, s)
  {
    var knot := set d | d in ss && d.name in names;
    forall s | s in knot ensures exists t :: t in Deps(ss, s) * emit && forall d | d in ss && d.name == t :: d in knot {
      var t :| t in Deps(ss, s) * names;
      assert t in Deps(ss, s) * emit;
    }
    assert Knot(ss, emit, knot);
  }

  /** What is put at the end is then exactly what leads to a cycle of field types. */
  lemma {:induction false} CyclesAtEnd(ss: seq<Struct>, ordered: seq<Struct>, placed: nat)
    requires UniqueNames(ss) && PlacedUpTo(ss, ordered, placed) && forall s | s in ordered :: s in ss
    ensures forall k | 0 <= k < |ordered| :: k >= placed <==> LeadsToCycle(ss, Names(ordered), ordered[k].name)
  {
    forall k | 0 <= k < |ordered| ensures k >= placed <==> LeadsToCycle(ss, Names(ordered), ordered[k].name) {
      KnotIffCycle(ss, Names(ordered), ordered[k]);
    }
  }

  /** And each struct is listed once. */
  lemma {:induction false} ListedOnce(ss: seq<Struct>, names: set<string>, ordered: seq<Struct>)
    requires UniqueNames(ss) && multiset(ordered) == multiset(Filter(ss, names))
    ensures UniqueNames(ordered) && forall s :: s in ordered <==> s in ss && s.name in names
  {
    FilterKeeps(ss, names);
    assert forall s :: s in ordered <==> s in multiset(ordered);
    assert forall s :: s in Filter(ss, names) <==> s in multiset(Filter(ss, names));
    forall i, j | 0 <= i < j < |ordered| ensures ordered[i].name != ordered[j].name {
      if ordered[i].name == ordered[j].name {
        SameName(ss, ordered[i], ordered[j]);
        OccursTwice(ordered, i, j);
        FilterCounts(ss, names, ordered[i]);
        OccursOnce(ss, ordered[i]);
      }
    }
  }

  lemma {:induction false} OccursTwice(ss: seq<Struct>, i: nat, j: nat)
    requires i < j < |ss| && ss[i] == ss[j]
    ensures multiset(ss)[ss[i]] >= 2
  {
    assert ss == ss[..j] + ss[j..] && ss[i] in ss[..j] && ss[i] in ss[j..];
  }

  lemma {:induction false} OccursOnce(ss: seq<Struct>, s: Struct)
    requires UniqueNames(ss)
    ensures multiset(ss)[s] <= 1
    decreases ss
  {
    if ss != [] {
      var front, last := ss[..|ss| - 1], ss[|ss| - 1];
      assert ss == front + [last];
      OccursOnce(front, s);
      forall i | 0 <= i < |front| ensures front[i] != last { assert ss[i].name != ss[|ss| - 1].name; }
    }
  }

  lemma {:induction false} FilterCounts(ss: seq<Struct>, names: set<string>, s: Struct)
    ensures multiset(Filter(ss, names))[s] == if s.name in names then multiset(ss)[s] else 0
    decreases ss
  {
    if ss != [] {
      FilterCounts(ss[..|ss| - 1], names, s);
      assert ss == ss[..|ss| - 1] + [ss[|ss| - 1]];
    }
  }
}
