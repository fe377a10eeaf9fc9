/** The memoised expansion of call arguments through callers, `HostIR.param_bindings`. */
module ParamBindings {
  import opened Wrappers
  import opened Sequences

  // ----- names and texts -----

  predicate IsSpace(c: char) { c == ' ' || c == '\t' || c == '\n' || c == '\r' }

  function DropAmps(s: string): string
  {
    if s != "" && s[0] == '&' then DropAmps(s[1..]) else s
  }

  function DropSpacesLeft(s: string): string
  {
    if s != "" && IsSpace(s[0]) then DropSpacesLeft(s[1..]) else s
  }

  function DropSpacesRight(s: string): string
  {
    if s != "" && IsSpace(s[|s| - 1]) then DropSpacesRight(s[..|s| - 1]) else s
  }

  /** `actual.lstrip("&").strip()` */
  function Norm(s: string): string
  {
    DropSpacesRight(DropSpacesLeft(DropAmps(s)))
  }

  predicate IsWordStart(c: char) { 'a' <= c <= 'z' || 'A' <= c <= 'Z' || c == '_' }

  predicate IsWord(c: char) { IsWordStart(c) || '0' <= c <= '9' }

  predicate IsIdentifier(s: string)
  {
    s != "" && IsWordStart(s[0]) && forall k | 0 <= k < |s| :: IsWord(s[k])
  }

  /** The distinct elements, each at its first place. */
  function Distinct(xs: seq<string>): seq<string>
  {
    if xs == [] then []
    else
      var front := Distinct(xs[..|xs| - 1]);
      if xs[|xs| - 1] in front then front else front + [xs[|xs| - 1]]
  }

  lemma {:induction false} DistinctKeepsElements(xs: seq<string>)
    ensures forall x :: x in Distinct(xs) <==> x in xs
    decreases xs
  {
    if xs != [] {
      DistinctKeepsElements(xs[..|xs| - 1]);
      assert xs == xs[..|xs| - 1] + [xs[|xs| - 1]];
    }
  }

  /** `a` stands in the list before any `b`. */
  ghost predicate Earlier(xs: seq<string>, a: string, b: string)
  {
    exists k :: 0 <= k < |xs| && xs[k] == a && b !in xs[..k + 1]
  }

  /** The distinct elements stand in the order of their first places, and so each once. */
  lemma {:induction false} DistinctInOrder(xs: seq<string>)
    ensures forall i, j | 0 <= i < j < |Distinct(xs)| :: Earlier(xs, Distinct(xs)[i], Distinct(xs)[j])
    decreases xs
  {
    if xs != [] {
      var n := |xs| - 1;
      var front, d := Distinct(xs[..n]), Distinct(xs);
      DistinctInOrder(xs[..n]);
      DistinctKeepsElements(xs[..n]);
      forall i, j | 0 <= i < j < |d| ensures Earlier(xs, d[i], d[j]) {
        if j < |front| {
          assert Earlier(xs[..n], front[i], front[j]);
          var k :| 0 <= k < n && xs[..n][k] == front[i] && front[j] !in xs[..n][..k + 1];
          assert xs[k] == d[i] && xs[..k + 1] == xs[..n][..k + 1];
        } else {
          assert front[i] in front;
          var k :| 0 <= k < n && xs[..n][k] == front[i];
          assert xs[k] == d[i] && forall x :: x in xs[..k + 1] ==> x in xs[..n];
        }
      }
    }
  }

  // ----- the call sites -----

  /** `raw`: callee, parameter, and the distinct arguments seen for it; `callers`: who calls it;
      `locals`: the primary definition of a function's locals. */
  datatype Program = Program(
    raw: map<string, map<string, seq<string>>>,
    callers: map<string, seq<string>>,
    locals: map<string, map<string, string>>,
    params: map<string, seq<string>>)

  datatype Key = Key(callee: string, pname: string, actual: string)

  function CallersOf(p: Program, f: string): seq<string>
  {
    if f in p.callers then p.callers[f] else []
  }

  function RawOf(p: Program, f: string, name: string): seq<string>
  {
    if f in p.raw && name in p.raw[f] then p.raw[f][name] else []
  }

  /** The definition of a local, if there is one and it is not the name itself. */
  function LocalOf(p: Program, f: string, name: string): seq<string>
  {
    if f in p.locals && name in p.locals[f] && p.locals[f][name] != "" && p.locals[f][name] != name
    then [p.locals[f][name]] else []
  }

  /** The arguments a caller passes on: only for its own parameters, unless the name is the formal itself. */
  function PassedOf(p: Program, f: string, name: string, climb: bool): seq<string>
  {
    if climb || (f in p.params && name in p.params[f]) then RawOf(p, f, name) else []
  }

  /** Where a triple is looked up next, in one caller. */
  function Through(p: Program, k: Key, caller: string): seq<Key>
  {
    var next := LocalOf(p, caller, k.actual) + PassedOf(p, caller, k.actual, k.actual == k.pname);
    seq(|next|, i requires 0 <= i < |next| => Key(caller, k.actual, Norm(next[i])))
  }

  function ThroughAll(p: Program, k: Key, callers: seq<string>): seq<Key>
  {
    if callers == [] then [] else Through(p, k, callers[0]) + ThroughAll(p, k, callers[1..])
  }

  /** Everything a triple leads to in one step. */
  function Next(p: Program, k: Key): seq<Key>
  {
    if k.actual == k.pname || IsIdentifier(k.actual) then ThroughAll(p, k, CallersOf(p, k.callee)) else []
  }

  // ----- what may be reported -----

  /** Each triple is looked up one caller further than the one before it. */
  ghost predicate Chain(p: Program, ks: seq<Key>)
  {
    ks != [] && forall i | 0 < i < |ks| :: ks[i] in Next(p, ks[i - 1])
  }

  /** `x` stands at the end of some chain of callers, and is not the name looked for there. */
  ghost predicate Derived(p: Program, k: Key, x: string)
  {
    exists ks: seq<Key> :: Chain(p, ks) && ks[0] == k && ks[|ks| - 1].actual == x && x != ks[|ks| - 1].pname && x != ""
  }

  lemma {:induction false} DerivedStep(p: Program, k: Key, next: Key, x: string)
    requires next in Next(p, k) && Derived(p, next, x)
    ensures Derived(p, k, x)
  {
    var ks: seq<Key> :| Chain(p, ks) && ks[0] == next && ks[|ks| - 1].actual == x && x != ks[|ks| - 1].pname && x != "";
    ChainStep(p, k, ks);
    var more := [k] + ks;
    assert more[0] == k && more[|more| - 1] == ks[|ks| - 1];
  }

  lemma {:induction false} ChainStep(p: Program, k: Key, ks: seq<Key>)
    requires Chain(p, ks) && ks[0] in Next(p, k)
    ensures Chain(p, [k] + ks)
  {
    var more := [k] + ks;
    forall i | 0 < i < |more| ensures more[i] in Next(p, more[i - 1]) {
      assert more[i] == ks[i - 1];
      if i > 1 { assert more[i - 1] == ks[i - 2]; }
    }
  }

  lemma {:induction false} DerivedSelf(p: Program, k: Key)
    requires k.actual != k.pname && k.actual != ""
    ensures Derived(p, k, k.actual)
  {
    assert Chain(p, [k]);
  }

  // ----- the plain recursion the memo stands for -----

  /** Every step goes down in rank: no chain of callers comes back to where it was. */
  ghost predicate Ranked(p: Program, rank: map<Key, nat>)
  {
    forall k | k in rank :: forall n | n in Next(p, k) :: n in rank && rank[n] < rank[k]
  }

  /** What a triple contributes, given what its look-ups returned: an argument nothing is known of stands for itself. */
  function Outcome(k: Key, out: seq<string>): seq<string>
  {
    if out == [] && k.actual != k.pname then [k.actual] else Distinct(out)
  }

  lemma {:induction false} OutcomeDerived(p: Program, k: Key, out: seq<string>)
    requires k.actual != "" && forall x | x in out :: Derived(p, k, x)
    ensures forall x | x in Outcome(k, out) :: Derived(p, k, x)
  {
    if out == [] && k.actual != k.pname { DerivedSelf(p, k); } else { DistinctKeepsElements(out); }
  }

  /** The result of the expansion without memo and without cycle check. */
  ghost function Plain(p: Program, rank: map<Key, nat>, k: Key): seq<string>
    requires Ranked(p, rank) && k in rank
    decreases rank[k], 1
  {
    if k.actual == "" then [] else Outcome(k, PlainAll(p, rank, k, Next(p, k)))
  }

  ghost function PlainAll(p: Program, rank: map<Key, nat>, k: Key, ks: seq<Key>): seq<string>
    requires Ranked(p, rank) && k in rank && forall n | n in ks :: n in Next(p, k)
    decreases rank[k], 0, |ks|
  {
    if ks == [] then []
    else
      assert ks[|ks| - 1] in ks;
      PlainAll(p, rank, k, ks[..|ks| - 1]) + Plain(p, rank, ks[|ks| - 1])
  }

  // ----- the memo -----

  datatype Entry = InProgress | Done(result: seq<string>)

  /** All triples the expansion can meet. */
  ghost predicate Closed(p: Program, universe: set<Key>)
  {
    forall k | k in universe :: forall n | n in Next(p, k) :: n in universe
  }

  type Memo = map<Key, Entry>

  /** Finished entries hold nothing that is not derived. */
  ghost predicate Sound(p: Program, universe: set<Key>, memo: Memo)
  {
    && Closed(p, universe) && memo.Keys <= universe
    && forall k | k in memo && memo[k].Done? :: forall x | x in memo[k].result :: Derived(p, k, x)
  }

  /** Finished entries that are ranked hold what the plain recursion gives, and ranked entries in progress
      rank no lower than `bound`. */
  ghost predicate Faithful(p: Program, rank: map<Key, nat>, bound: nat, memo: Memo)
  {
    && Ranked(p, rank)
    && (forall k | k in memo && k in rank && memo[k].Done? :: memo[k].result == Plain(p, rank, k))
    && (forall k | k in memo && k in rank && memo[k].InProgress? :: rank[k] >= bound)
  }

  /** No ranked entry is in progress, whatever else is. */
  ghost predicate Undisturbed(p: Program, rank: map<Key, nat>, memo: Memo)
  {
    && Ranked(p, rank)
    && (forall k | k in memo && k in rank :: memo[k].Done? && memo[k].result == Plain(p, rank, k))
  }

  /** Only finished entries were added. */
  ghost predicate Grown(memo: Memo, memo': Memo)
  {
    && (forall k | k in memo :: k in memo' && memo'[k] == memo[k])
    && (forall k | k in memo' && k !in memo :: memo'[k].Done?)
  }

  lemma {:induction false} GrownSize(universe: set<Key>, memo: Memo, memo': Memo)
    requires Grown(memo, memo') && memo'.Keys <= universe
    ensures |memo.Keys| <= |memo'.Keys| <= |universe|
  {
    SubsetCard(memo.Keys, memo'.Keys);
    SubsetCard(memo'.Keys, universe);
  }

  // ----- what a look-up returns, and what it leaves in the memo -----

  /** The look-up of a triple; what is in progress, on a cycle, contributes nothing. */
  ghost function LookUp(p: Program, universe: set<Key>, memo: Memo, k: Key): (r: (seq<string>, Memo))
    requires Closed(p, universe) && memo.Keys <= universe && k in universe
    ensures Grown(memo, r.1) && r.1.Keys <= universe
    decreases |universe| - |memo.Keys|, 1, 0
  {
    if k.actual == "" then ([], memo)
    else if k in memo then (if memo[k].InProgress? then [] else memo[k].result, memo)
    else
      StartedSize(universe, memo, k);
      var (out, grown) := LookUpAll(p, universe, memo[k := InProgress], Next(p, k));
      (Outcome(k, out), grown[k := Done(Outcome(k, out))])
  }

  /** Look-ups one after the other, each with the memo the one before left. */
  ghost function LookUpAll(p: Program, universe: set<Key>, memo: Memo, ks: seq<Key>): (r: (seq<string>, Memo))
    requires Closed(p, universe) && memo.Keys <= universe && forall k | k in ks :: k in universe
    ensures Grown(memo, r.1) && r.1.Keys <= universe
    decreases |universe| - |memo.Keys|, 2, |ks|
  {
    if ks == [] then ([], memo)
    else
      assert ks[|ks| - 1] in ks;
      var (out, grown) := LookUpAll(p, universe, memo, ks[..|ks| - 1]);
      GrownSize(universe, memo, grown);
      var (more, last) := LookUp(p, universe, grown, ks[|ks| - 1]);
      (out + more, last)
  }

  lemma {:induction false} StartedSize(universe: set<Key>, memo: Memo, k: Key)
    requires memo.Keys <= universe && k in universe && k !in memo
    ensures memo[k := InProgress].Keys == memo.Keys + {k} && |memo.Keys| < |memo[k := InProgress].Keys| <= |universe|
  {
    assert memo[k := InProgress].Keys == memo.Keys + {k};
    SubsetCard(memo.Keys + {k}, universe);
  }

  lemma {:induction false} LookUpSnoc(p: Program, universe: set<Key>, memo: Memo, ks: seq<Key>, i: nat)
    requires Closed(p, universe) && memo.Keys <= universe && i < |ks| && forall k | k in ks :: k in universe
    ensures ks[i] in ks
    ensures var (out, grown) := LookUpAll(p, universe, memo, ks[..i]);
            var (more, last) := LookUp(p, universe, grown, ks[i]);
            LookUpAll(p, universe, memo, ks[..i + 1]) == (out + more, last)
  {
    assert ks[..i + 1][..i] == ks[..i] && ks[..i + 1][i] == ks[i];
  }

  // ----- against the plain recursion -----

  lemma {:induction false} GrownFaithful(p: Program, rank: map<Key, nat>, low: nat, bound: nat, memo: Memo, memo': Memo)
    requires Grown(memo, memo') && Faithful(p, rank, bound, memo) && Faithful(p, rank, low, memo')
    ensures Faithful(p, rank, bound, memo')
  {
  }

  lemma {:induction false} GrownUndisturbed(p: Program, rank: map<Key, nat>, bound: nat, memo: Memo, memo': Memo)
    requires Grown(memo, memo') && Undisturbed(p, rank, memo) && Faithful(p, rank, bound, memo')
    ensures Undisturbed(p, rank, memo')
  {
  }

  lemma {:induction false} GrownTwice(memo: Memo, memo': Memo, memo'': Memo)
    requires Grown(memo, memo') && Grown(memo', memo'')
    ensures Grown(memo, memo'')
  {
  }

  /** The entry in progress is finished with `r`. */
  lemma {:induction false} Finished(p: Program, universe: set<Key>, memo: Memo, memo': Memo, k: Key, r: seq<string>)
    requires k !in memo && Grown(memo[k := InProgress], memo') && Sound(p, universe, memo')
    requires forall x | x in r :: Derived(p, k, x)
    ensures Sound(p, universe, memo'[k := Done(r)]) && Grown(memo, memo'[k := Done(r)])
  {
    assert memo[k := InProgress][k] == InProgress;
  }

  lemma {:induction false} FinishedFaithful(
    p: Program, rank: map<Key, nat>, memo: Memo, memo': Memo, k: Key, r: seq<string>)
    requires k !in memo && k in rank && Grown(memo[k := InProgress], memo')
    requires Faithful(p, rank, rank[k] + 1, memo) && Faithful(p, rank, rank[k], memo')
    requires r == Plain(p, rank, k)
    ensures Faithful(p, rank, rank[k] + 1, memo'[k := Done(r)])
  {
    var before := memo[k := InProgress];
    forall j | j in memo' && memo'[j].InProgress? && j != k ensures j in memo && memo[j].InProgress? {
      assert j in before;
    }
  }

  /** What holds once a triple is entered as in progress. */
  lemma {:induction false} Started(p: Program, universe: set<Key>, rank: map<Key, nat>, before: Memo, k: Key)
    requires Sound(p, universe, before) && k in universe && k !in before
    ensures Sound(p, universe, before[k := InProgress])
    ensures before[k := InProgress].Keys == before.Keys + {k} &&
            |before.Keys| < |before[k := InProgress].Keys| <= |universe|
    ensures k in rank && Faithful(p, rank, rank[k] + 1, before) ==> Faithful(p, rank, rank[k], before[k := InProgress])
  {
    StartedSize(universe, before, k);
    if k in rank && Faithful(p, rank, rank[k] + 1, before) { StartedFaithful(p, rank, before, k); }
  }

  lemma {:induction false} StartedFaithful(p: Program, rank: map<Key, nat>, before: Memo, k: Key)
    requires k in rank && k !in before && Faithful(p, rank, rank[k] + 1, before)
    ensures Faithful(p, rank, rank[k], before[k := InProgress])
  {
  }

  /** What holds once its expansions are strung together. */
  lemma {:induction false} Completed(
    p: Program, universe: set<Key>, rank: map<Key, nat>, before: Memo, memo: Memo, k: Key, out: seq<string>)
    requires k !in before && Grown(before[k := InProgress], memo) && Sound(p, universe, memo)
    requires forall x | x in out :: Derived(p, k, x)
    requires k in rank && Faithful(p, rank, rank[k], before[k := InProgress]) ==>
               Faithful(p, rank, rank[k], memo) && out == PlainAll(p, rank, k, Next(p, k))
    requires k.actual != "" &&
            (k in rank && Faithful(p, rank, rank[k] + 1, before) ==>
                Faithful(p, rank, rank[k], before[k := InProgress]))
    ensures Sound(p, universe, memo[k := Done(Outcome(k, out))]) && Grown(before, memo[k := Done(Outcome(k, out))])
    ensures forall x | x in Outcome(k, out) :: Derived(p, k, x)
    ensures k in rank && Faithful(p, rank, rank[k] + 1, before) ==>
              Faithful(p, rank, rank[k] + 1, memo[k := Done(Outcome(k, out))]) && Outcome(k, out) == Plain(p, rank, k)
  {
    OutcomeDerived(p, k, out);
    Finished(p, universe, before, memo, k, Outcome(k, out));
    if k in rank && Faithful(p, rank, rank[k] + 1, before) {
      FinishedFaithful(p, rank, before, memo, k, Outcome(k, out));
    }
  }

  /** Whether ranked or not, a finished look-up leaves no ranked entry in progress that was not so before. */
  lemma {:induction false} ComputedUndisturbed(
    p: Program, rank: map<Key, nat>, before: Memo, grown: Memo, memo: Memo, k: Key, r: seq<string>)
    requires k !in before && Grown(before[k := InProgress], grown) && memo == grown[k := Done(r)] && Grown(before, memo)
    requires Undisturbed(p, rank, before[k := InProgress]) ==> Undisturbed(p, rank, grown)
    requires k in rank && Faithful(p, rank, rank[k] + 1, before) ==> Faithful(p, rank, rank[k] + 1, memo)
    ensures Undisturbed(p, rank, before) ==> Undisturbed(p, rank, memo)
  {
    if Undisturbed(p, rank, before) && k in rank { GrownUndisturbed(p, rank, rank[k] + 1, before, memo); }
  }

  class Expander {
    const p: Program
    var memo: Memo

    constructor (p: Program)
      ensures this.p == p && memo == map[]
    {
      this.p := p;
      memo := map[];
    }

    /** The source's `expand`, on a triple whose actual is stripped already. */
    method Expand(k: Key, stack: set<Key>, ghost universe: set<Key>, ghost rank: map<Key, nat>) returns (r: seq<string>)
      requires Sound(p, universe, memo) && k in universe && stack <= memo.Keys
      modifies this
      ensures (r, memo) == LookUp(p, universe, old(memo), k)
      ensures Sound(p, universe, memo) && Grown(old(memo), memo)
      ensures forall x | x in r :: Derived(p, k, x)
      ensures k in rank && Faithful(p, rank, rank[k] + 1, old(memo)) ==>
                Faithful(p, rank, rank[k] + 1, memo) && r == Plain(p, rank, k)
      ensures Undisturbed(p, rank, old(memo)) ==> Undisturbed(p, rank, memo)
      decreases |universe| - |memo.Keys|, 1, 0
    {
      if k.actual == "" { return []; }
      if k in memo {
        return if memo[k].InProgress? then [] else memo[k].result;
      }
      if k in stack { return []; }
      SubsetCard(memo.Keys + {k}, universe);
      r := Compute(k, stack, universe, rank);
    }

    /** The body of `expand` behind the checks. */
    method Compute(
      k: Key, stack: set<Key>, ghost universe: set<Key>, ghost rank: map<Key, nat>)
      returns (r: seq<string>)
      requires Sound(p, universe, memo) && k in universe && k !in memo && k.actual != "" && stack <= memo.Keys
      modifies this
      ensures (r, memo) == LookUp(p, universe, old(memo), k)
      ensures Sound(p, universe, memo) && Grown(old(memo), memo)
      ensures forall x | x in r :: Derived(p, k, x)
      ensures k in rank && Faithful(p, rank, rank[k] + 1, old(memo)) ==>
                Faithful(p, rank, rank[k] + 1, memo) && r == Plain(p, rank, k)
      ensures Undisturbed(p, rank, old(memo)) ==> Undisturbed(p, rank, memo)
      decreases |universe| - |memo.Keys|, 0, 0
    {
      ghost var before := memo;
      Started(p, universe, rank, before, k);
      memo := memo[k := InProgress];
      var out := ExpandAll(k, Next(p, k), stack + {k}, universe, rank);
      r := Outcome(k, out);
      Completed(p, universe, rank, before, memo, k, out);
      ghost var grown := memo;
      memo := memo[k := Done(r)];
      ComputedUndisturbed(p, rank, before, grown, memo, k, r);
    }

    /** One look-up after the other; the results are strung together. */
    method ExpandAll(
      k: Key, ks: seq<Key>, stack: set<Key>, ghost universe: set<Key>, ghost rank: map<Key, nat>)
      returns (out: seq<string>)
      requires Sound(p, universe, memo) && k in universe && stack <= memo.Keys
      requires forall n | n in ks :: n in Next(p, k)
      modifies this
      ensures (out, memo) == LookUpAll(p, universe, old(memo), ks)
      ensures Sound(p, universe, memo) && Grown(old(memo), memo)
      ensures forall x | x in out :: Derived(p, k, x)
      ensures k in rank && Faithful(p, rank, rank[k], old(memo)) ==>
                Faithful(p, rank, rank[k], memo) && out == PlainAll(p, rank, k, ks)
      ensures Undisturbed(p, rank, old(memo)) ==> Undisturbed(p, rank, memo)
      decreases |universe| - |memo.Keys|, 2, 0
    {
      out := [];
      ghost var start := memo;
      assert ks[..0] == [];
      for i := 0 to |ks|
        invariant Progress(p, universe, rank, start, memo, k, ks, i, out)
      {
        GrownSize(universe, start, memo);
        var more := ExpandOne(k, ks, i, stack, out, start, universe, rank);
        out := out + more;
      }
      assert ks[..|ks|] == ks;
    }

    /** What one more look-up adds. */
    method ExpandOne(
      k: Key, ks: seq<Key>, i: nat, stack: set<Key>, ghost out: seq<string>, ghost start: Memo,
      ghost universe: set<Key>, ghost rank: map<Key, nat>)
      returns (more: seq<string>)
      requires i < |ks| && forall n | n in ks :: n in Next(p, k)
      requires Closed(p, universe) && start.Keys <= universe && k in universe
      requires Progress(p, universe, rank, start, memo, k, ks, i, out) && stack <= memo.Keys
      modifies this
      ensures Progress(p, universe, rank, start, memo, k, ks, i + 1, out + more) && stack <= memo.Keys
      decreases |universe| - |memo.Keys|, 1, 1
    {
      ghost var before := memo;
      assert ks[i] in ks && ks[i] in universe;
      more := Expand(ks[i], stack, universe, rank);
      ProgressStep(p, universe, rank, start, before, memo, k, ks, i, out, more);
    }
  }

  /** The state of the loop after `i` look-ups. */
  ghost predicate Progress(p: Program, universe: set<Key>, rank: map<Key, nat>, start: Memo, memo: Memo,
                           k: Key, ks: seq<Key>, i: nat, out: seq<string>)
    requires i <= |ks| && forall n | n in ks :: n in Next(p, k)
    requires Closed(p, universe) && start.Keys <= universe && k in universe
  {
    && (out, memo) == LookUpAll(p, universe, start, ks[..i])
    && Sound(p, universe, memo) && Grown(start, memo)
    && (forall x | x in out :: Derived(p, k, x))
    && (k in rank && Faithful(p, rank, rank[k], start) ==>
          Faithful(p, rank, rank[k], memo) && out == PlainAll(p, rank, k, ks[..i]))
    && (Undisturbed(p, rank, start) ==> Undisturbed(p, rank, memo))
  }

  lemma {:induction false} ProgressStep(
    p: Program, universe: set<Key>, rank: map<Key, nat>, start: Memo, before: Memo, memo: Memo, k: Key, ks: seq<Key>,
    i: nat, out: seq<string>, more: seq<string>)
    requires i < |ks| && forall n | n in ks :: n in Next(p, k)
    requires Closed(p, universe) && start.Keys <= universe && k in universe
    requires Progress(p, universe, rank, start, before, k, ks, i, out)
    requires Sound(p, universe, memo) && Grown(before, memo)
    requires ks[i] in ks && (more, memo) == LookUp(p, universe, before, ks[i])
    requires forall x | x in more :: Derived(p, ks[i], x)
    requires ks[i] in rank && Faithful(p, rank, rank[ks[i]] + 1, before) ==>
               Faithful(p, rank, rank[ks[i]] + 1, memo) && more == Plain(p, rank, ks[i])
    requires Undisturbed(p, rank, before) ==> Undisturbed(p, rank, memo)
    ensures Progress(p, universe, rank, start, memo, k, ks, i + 1, out + more)
  {
    GrownTwice(start, before, memo);
    LookUpSnoc(p, universe, start, ks, i);
    StepDerived(p, k, ks[i], more);
    if k in rank && Faithful(p, rank, rank[k], start) { StepFaithful(p, rank, before, memo, k, ks, i, out, more); }
  }

  lemma {:induction false} StepDerived(p: Program, k: Key, next: Key, more: seq<string>)
    requires next in Next(p, k) && forall x | x in more :: Derived(p, next, x)
    ensures forall x | x in more :: Derived(p, k, x)
  {
    forall x | x in more ensures Derived(p, k, x) { DerivedStep(p, k, next, x); }
  }

  lemma {:induction false} StepFaithful(
    p: Program, rank: map<Key, nat>, before: Memo, memo: Memo, k: Key, ks: seq<Key>, i: nat, out: seq<string>,
    more: seq<string>)
    requires k in rank && i < |ks| && forall n | n in ks :: n in Next(p, k)
    requires Grown(before, memo) && Faithful(p, rank, rank[k], before)
    requires out == PlainAll(p, rank, k, ks[..i])
    requires ks[i] in rank && Faithful(p, rank, rank[ks[i]] + 1, before) ==>
               Faithful(p, rank, rank[ks[i]] + 1, memo) && more == Plain(p, rank, ks[i])
    ensures Faithful(p, rank, rank[k], memo) && out + more == PlainAll(p, rank, k, ks[..i + 1])
  {
    PlainSnoc(p, rank, k, ks, i);
    assert rank[ks[i]] < rank[k] by { assert ks[i] in ks; }
    GrownFaithful(p, rank, rank[ks[i]] + 1, rank[k], before, memo);
  }

  lemma {:induction false} PlainSnoc(p: Program, rank: map<Key, nat>, k: Key, ks: seq<Key>, i: nat)
    requires Ranked(p, rank) && k in rank && i < |ks| && forall n | n in ks :: n in Next(p, k)
    ensures ks[i] in rank
    ensures PlainAll(p, rank, k, ks[..i + 1]) == PlainAll(p, rank, k, ks[..i]) + Plain(p, rank, ks[i])
  {
    assert ks[i] in ks;
    assert ks[..i + 1][..i] == ks[..i] && ks[..i + 1][i] == ks[i];
  }

  // ----- reading the call sites -----

  datatype Site = Site(caller: string, callee: string, args: seq<string>)

  /** What a tuple, written in a caller, becomes once the caller's locals in it are replaced; nothing for any other
      text. */
  type Tuples = (string, string) -> Option<string>

  /** The text recorded for an argument. */
  function Recorded(tuples: Tuples, site: Site, i: nat): string
    requires i < |site.args|
  {
    var resolved := Norm(site.args[i]);
    match tuples(site.caller, resolved)
    case Some(expanded) => if expanded != "" then expanded else resolved
    case None => resolved
  }

  /** The site passes `x` for parameter `name` of `f`. */
  ghost predicate PassedBy(
    params: map<string, seq<string>>, tuples: Tuples, site: Site, f: string, name: string, x: string)
  {
    site.callee == f && f in params && PassedAmong(params[f], tuples, site, name, x)
  }

  ghost predicate PassedAmong(names: seq<string>, tuples: Tuples, site: Site, name: string, x: string)
  {
    exists i ::
      0 <= i < |names| && i < |site.args| && names[i] == name && site.args[i] != "" && x == Recorded(tuples, site, i)
  }

  /** Some site does. */
  ghost predicate PassedAt(
    params: map<string, seq<string>>, tuples: Tuples, sites: seq<Site>, f: string, name: string, x: string)
  {
    exists s :: s in sites && PassedBy(params, tuples, s, f, name, x)
  }

  function RawAt(raw: map<string, map<string, seq<string>>>, f: string, name: string): seq<string>
  {
    if f in raw && name in raw[f] then raw[f][name] else []
  }

  function Append(xs: seq<string>, x: string): seq<string>
  {
    if x in xs then xs else xs + [x]
  }

  /** Adds one argument to the table. */
  function WithArgument(raw: map<string, map<string, seq<string>>>, f: string, name: string, x: string)
    : map<string, map<string, seq<string>>>
    requires f in raw
  {
    raw[f := raw[f][name := Append(RawAt(raw, f, name), x)]]
  }

  lemma {:induction false} WithArgumentAt(
    raw: map<string, map<string, seq<string>>>, f: string, name: string, x: string)
    requires f in raw
    ensures forall g, m, y :: y in RawAt(WithArgument(raw, f, name, x), g, m) <==>
              y in RawAt(raw, g, m) || (g == f && m == name && y == x)
  {
  }

  /** What the first `n` arguments of a site pass for the parameter, in their order. */
  function PassedHere(names: seq<string>, tuples: Tuples, site: Site, name: string, n: nat): seq<string>
    requires n <= |names| && n <= |site.args|
  {
    if n == 0 then []
    else
      PassedHere(names, tuples, site, name, n - 1)
      + (if names[n - 1] == name && site.args[n - 1] != "" then [Recorded(tuples, site, n - 1)] else [])
  }

  function ArgumentCount(names: seq<string>, site: Site): nat
  {
    if |names| < |site.args| then |names| else |site.args|
  }

  /** What all sites pass for it, site by site. */
  function PassedTexts(
    params: map<string, seq<string>>, tuples: Tuples, sites: seq<Site>, f: string, name: string): seq<string>
  {
    if sites == [] then []
    else
      var n := |sites| - 1;
      PassedTexts(params, tuples, sites[..n], f, name) + PassedFrom(params, tuples, sites[n], f, name)
  }

  function PassedFrom(
    params: map<string, seq<string>>, tuples: Tuples, site: Site, f: string, name: string): seq<string>
  {
    if site.callee == f && f in params then
      PassedHere(params[f], tuples, site, name, ArgumentCount(params[f], site))
    else []
  }

  /** Who calls the function, call by call. */
  function CallerTexts(sites: seq<Site>, f: string): seq<string>
  {
    if sites == [] then []
    else
      var n := |sites| - 1;
      CallerTexts(sites[..n], f) + (if sites[n].callee == f then [sites[n].caller] else [])
  }

  function AppendAll(xs: seq<string>, ys: seq<string>): seq<string>
  {
    if ys == [] then xs else Append(AppendAll(xs, ys[..|ys| - 1]), ys[|ys| - 1])
  }

  lemma {:induction false} AppendOne(xs: seq<string>, ys: seq<string>, y: string)
    ensures AppendAll(xs, ys + [y]) == Append(AppendAll(xs, ys), y) && ys + [] == ys && AppendAll(xs, []) == xs
  {
    assert (ys + [y])[..|ys|] == ys;
  }

  lemma {:induction false} DistinctAppends(xs: seq<string>, ys: seq<string>)
    ensures AppendAll(Distinct(xs), ys) == Distinct(xs + ys)
    decreases ys
  {
    if ys == [] {
      assert xs + ys == xs;
    } else {
      var n := |ys| - 1;
      DistinctAppends(xs, ys[..n]);
      assert (xs + ys)[..|xs + ys| - 1] == xs + ys[..n];
    }
  }

  /** The arguments of one site, parameter by parameter. */
  method AddSite(
    raw: map<string, map<string, seq<string>>>, params: map<string, seq<string>>, tuples: Tuples, site: Site)
    returns (raw': map<string, map<string, seq<string>>>)
    requires site.callee in raw && site.callee in params
    ensures forall g :: g in raw' <==> g in raw
    ensures forall g, m, y :: y in RawAt(raw', g, m) <==>
            y in RawAt(raw, g, m) || PassedBy(params, tuples, site, g, m, y)
    ensures forall g, m :: RawAt(raw', g, m) == AppendAll(RawAt(raw, g, m), PassedFrom(params, tuples, site, g, m))
  {
    var f := site.callee;
    var n := ArgumentCount(params[f], site);
    raw' := raw;
    for i := 0 to n
      invariant ReadTo(params[f], raw, raw', tuples, site, i)
    {
      ArgumentRead(params[f], raw, raw', tuples, site, i);
      if site.args[i] != "" {
        raw' := WithArgument(raw', f, params[f][i], Recorded(tuples, site, i));
      }
    }
    PassedAmongAll(params[f], tuples, site, n);
  }

  /** The table with the first `n` arguments of the site added to it. */
  ghost predicate ReadTo(
    names: seq<string>, raw: map<string, map<string, seq<string>>>, raw': map<string, map<string, seq<string>>>,
    tuples: Tuples, site: Site, n: nat)
  {
    && n <= |names| && n <= |site.args| && raw'.Keys == raw.Keys
    && HoldsTo(names, raw, raw', tuples, site, n)
    && (forall g, m :: RawAt(raw', g, m) == AppendedTo(names, raw, tuples, site, g, m, n))
  }

  ghost predicate HoldsTo(
    names: seq<string>, raw: map<string, map<string, seq<string>>>, raw': map<string, map<string, seq<string>>>,
    tuples: Tuples, site: Site, n: nat)
    requires n <= |names|
  {
    forall g, m, y :: y in RawAt(raw', g, m) <==>
      y in RawAt(raw, g, m) || (g == site.callee && PassedAmong(names[..n], tuples, site, m, y))
  }

  lemma {:induction false} HoldsFurther(
    names: seq<string>, raw: map<string, map<string, seq<string>>>, raw': map<string, map<string, seq<string>>>,
    tuples: Tuples, site: Site, i: nat)
    requires i < |names| && i < |site.args| && site.callee in raw' && HoldsTo(names, raw, raw', tuples, site, i)
    ensures site.args[i] == "" ==> HoldsTo(names, raw, raw', tuples, site, i + 1)
    ensures site.args[i] != "" ==>
              HoldsTo(names, raw, WithArgument(raw', site.callee, names[i], Recorded(tuples, site, i)), tuples, site,
                      i + 1)
  {
    PassedAmongSnoc(names, tuples, site, i);
    if site.args[i] != "" { WithArgumentAt(raw', site.callee, names[i], Recorded(tuples, site, i)); }
  }

  lemma {:induction false} ArgumentRead(
    names: seq<string>, raw: map<string, map<string, seq<string>>>, raw': map<string, map<string, seq<string>>>,
    tuples: Tuples, site: Site, i: nat)
    requires i < |names| && i < |site.args| && site.callee in raw && ReadTo(names, raw, raw', tuples, site, i)
    ensures site.args[i] == "" ==> ReadTo(names, raw, raw', tuples, site, i + 1)
    ensures site.args[i] != "" ==>
              ReadTo(names, raw, WithArgument(raw', site.callee, names[i], Recorded(tuples, site, i)), tuples, site,
                  i + 1)
  {
    HoldsFurther(names, raw, raw', tuples, site, i);
    AppendedSnoc(names, raw, tuples, site, i);
    if site.args[i] != "" { WithArgumentIs(raw', site.callee, names[i], Recorded(tuples, site, i)); }
  }

  lemma {:induction false} WithArgumentIs(
    raw: map<string, map<string, seq<string>>>, f: string, name: string, x: string)
    requires f in raw
    ensures WithArgument(raw, f, name, x).Keys == raw.Keys
    ensures forall g, m :: RawAt(WithArgument(raw, f, name, x), g, m) ==
              if g == f && m == name then Append(RawAt(raw, g, m), x) else RawAt(raw, g, m)
  {
  }

  /** The texts of one parameter when the first `n` arguments of the site are read. */
  function AppendedTo(
    names: seq<string>, raw: map<string, map<string, seq<string>>>, tuples: Tuples, site: Site, f: string,
    name: string, n: nat): seq<string>
    requires n <= |names| && n <= |site.args|
  {
    if f == site.callee then AppendAll(RawAt(raw, f, name), PassedHere(names, tuples, site, name, n))
    else RawAt(raw, f, name)
  }

  lemma {:induction false} AppendedSnoc(
    names: seq<string>, raw: map<string, map<string, seq<string>>>, tuples: Tuples, site: Site, i: nat)
    requires i < |names| && i < |site.args|
    ensures forall g, m :: AppendedTo(names, raw, tuples, site, g, m, i + 1) ==
              if g == site.callee && m == names[i] && site.args[i] != "" then
                Append(AppendedTo(names, raw, tuples, site, g, m, i), Recorded(tuples, site, i))
              else AppendedTo(names, raw, tuples, site, g, m, i)
  {
    forall m ensures PassedHere(names, tuples, site, m, i + 1) ==
                     if m == names[i] && site.args[i] != "" then
                       PassedHere(names, tuples, site, m, i) + [Recorded(tuples, site, i)]
                     else PassedHere(names, tuples, site, m, i) {
    }
    forall g, m {
      AppendOne(RawAt(raw, g, m), PassedHere(names, tuples, site, m, i), Recorded(tuples, site, i));
    }
  }

  lemma {:induction false} PassedAmongSnoc(names: seq<string>, tuples: Tuples, site: Site, i: nat)
    requires i < |names| && i < |site.args|
    ensures forall m, y :: PassedAmong(names[..i + 1], tuples, site, m, y) <==>
              PassedAmong(names[..i], tuples, site, m, y) ||
                  (m == names[i] && site.args[i] != "" && y == Recorded(tuples, site, i))
  {
    var longer := names[..i + 1];
    assert longer == names[..i] + [names[i]];
    forall m, y | PassedAmong(names[..i], tuples, site, m, y) ensures PassedAmong(longer, tuples, site, m, y) {
      var k :| 0 <= k < i && k < |site.args| && names[..i][k] == m && site.args[k] != "" &&
          y == Recorded(tuples, site, k);
      assert longer[k] == m;
    }
    if site.args[i] != "" { assert longer[i] == names[i]; }
  }

  lemma {:induction false} PassedAmongAll(names: seq<string>, tuples: Tuples, site: Site, n: nat)
    requires n == if |names| < |site.args| then |names| else |site.args|
    ensures forall m, y :: PassedAmong(names[..n], tuples, site, m, y) <==> PassedAmong(names, tuples, site, m, y)
  {
    forall m, y | PassedAmong(names, tuples, site, m, y) ensures PassedAmong(names[..n], tuples, site, m, y) {
      var i :| 0 <= i < |names| && i < |site.args| && names[i] == m && site.args[i] != "" &&
          y == Recorded(tuples, site, i);
      assert names[..n][i] == m;
    }
    forall m, y | PassedAmong(names[..n], tuples, site, m, y) ensures PassedAmong(names, tuples, site, m, y) {
      var i :| 0 <= i < n && names[..n][i] == m && site.args[i] != "" && y == Recorded(tuples, site, i);
      assert names[i] == m;
    }
  }

  ghost predicate CallsAt(sites: seq<Site>, f: string, caller: string)
  {
    exists s :: s in sites && s.callee == f && s.caller == caller
  }

  lemma {:induction false} SitesSnoc(
    params: map<string, seq<string>>, tuples: Tuples, sites: seq<Site>, site: Site, longer: seq<Site>)
    requires longer == sites + [site]
    ensures forall f, c :: CallsAt(longer, f, c) <==> CallsAt(sites, f, c) || (site.callee == f && site.caller == c)
    ensures forall f, n, x :: PassedAt(params, tuples, longer, f, n, x) <==>
              PassedAt(params, tuples, sites, f, n, x) || PassedBy(params, tuples, site, f, n, x)
  {
    assert forall s :: s in longer <==> s in sites || s == site;
    forall f, c | CallsAt(sites, f, c) ensures CallsAt(longer, f, c) {
      var s :| s in sites && s.callee == f && s.caller == c;
      assert s in longer;
    }
    assert CallsAt(longer, site.callee, site.caller);
    forall f, n, x | PassedAt(params, tuples, sites, f, n, x) ensures PassedAt(params, tuples, longer, f, n, x) {
      var s :| s in sites && PassedBy(params, tuples, s, f, n, x);
      assert s in longer;
    }
  }

  function CallersAt(callers: map<string, seq<string>>, f: string): seq<string>
  {
    if f in callers then callers[f] else []
  }

  function WithCaller(callers: map<string, seq<string>>, f: string, caller: string): (r: map<string, seq<string>>)
    ensures forall g :: g in r <==> g in callers || g == f
    ensures forall g, c :: c in CallersAt(r, g) <==> c in CallersAt(callers, g) || (g == f && c == caller)
  {
    callers[f := Append(CallersAt(callers, f), caller)]
  }

  /** The caller table holds the callers of every function that has parameters. */
  ghost predicate CallersRead(params: map<string, seq<string>>, sites: seq<Site>, callers: map<string, seq<string>>)
  {
    && (forall f :: f in callers ==> f in params && params[f] != [])
    && (forall f, c :: c in CallersAt(callers, f) <==> f in callers && CallsAt(sites, f, c))
    && (forall f, c :: CallsAt(sites, f, c) && f in params && params[f] != [] ==> f in callers)
  }

  lemma {:induction false} CallersReadStep(
    params: map<string, seq<string>>, tuples: Tuples, sites: seq<Site>, site: Site, longer: seq<Site>,
    callers: map<string, seq<string>>)
    requires longer == sites + [site] && CallersRead(params, sites, callers)
    ensures var f := site.callee;
            CallersRead(params, longer,
                        if f in params && params[f] != [] then WithCaller(callers, f, site.caller) else callers)
  {
    SitesSnoc(params, tuples, sites, site, longer);
    var f := site.callee;
    var callers' := if f in params && params[f] != [] then WithCaller(callers, f, site.caller) else callers;
    forall g, c ensures c in CallersAt(callers', g) <==> g in callers' && CallsAt(longer, g, c) {
      if g == f { assert CallsAt(longer, g, c) <==> CallsAt(sites, g, c) || site.caller == c; }
    }
    forall g, c | CallsAt(longer, g, c) && g in params && params[g] != [] ensures g in callers' {
      if g != f { assert CallsAt(sites, g, c); }
    }
  }

  /** The tables of arguments and callers. */
  method ReadSites(params: map<string, seq<string>>, tuples: Tuples, sites: seq<Site>)
    returns (raw: map<string, map<string, seq<string>>>, callers: map<string, seq<string>>)
    ensures forall f, name, x :: x in RawAt(raw, f, name) <==> PassedAt(params, tuples, sites, f, name, x)
    ensures forall f :: f in raw <==> f in callers
    ensures CallersRead(params, sites, callers)
    ensures TablesInOrder(params, tuples, sites, raw, callers)
  {
    raw, callers := map[], map[];
    for j := 0 to |sites|
      invariant SitesRead(params, tuples, sites[..j], raw, callers)
    {
      ghost var raw', callers' := raw, callers;
      raw, callers := ReadSite(params, tuples, sites[j], raw, callers);
      SitesReadStep(params, tuples, sites[..j], sites[j], sites[..j + 1], raw', callers', raw, callers);
    }
    assert sites[..|sites|] == sites;
  }

  ghost predicate SitesRead(params: map<string, seq<string>>, tuples: Tuples, sites: seq<Site>,
                            raw: map<string, map<string, seq<string>>>, callers: map<string, seq<string>>)
  {
    && (forall f, name, x :: x in RawAt(raw, f, name) <==> PassedAt(params, tuples, sites, f, name, x))
    && (forall f :: f in raw <==> f in callers) && CallersRead(params, sites, callers)
    && TablesInOrder(params, tuples, sites, raw, callers)
  }

  /** Arguments and callers stand in the order in which the sites first have them. */
  ghost predicate TablesInOrder(params: map<string, seq<string>>, tuples: Tuples, sites: seq<Site>,
                                raw: map<string, map<string, seq<string>>>, callers: map<string, seq<string>>)
  {
    && (forall f, name :: RawAt(raw, f, name) == Distinct(PassedTexts(params, tuples, sites, f, name)))
    && (forall f :: CallersInOrder(params, sites, callers, f))
  }

  ghost predicate CallersInOrder(
    params: map<string, seq<string>>, sites: seq<Site>, callers: map<string, seq<string>>, f: string)
  {
    if f in callers then callers[f] == Distinct(CallerTexts(sites, f))
    else f in params && params[f] != [] ==> CallerTexts(sites, f) == []
  }

  lemma {:induction false} TablesStep(
    params: map<string, seq<string>>, tuples: Tuples, sites: seq<Site>, site: Site, longer: seq<Site>,
    raw: map<string, map<string, seq<string>>>, callers: map<string, seq<string>>,
    raw': map<string, map<string, seq<string>>>, callers': map<string, seq<string>>)
    requires longer == sites + [site] && TablesInOrder(params, tuples, sites, raw, callers)
    requires forall f | f in callers :: f in params && params[f] != []
    requires forall g, m :: RawAt(raw', g, m) == AppendAll(RawAt(raw, g, m), PassedFrom(params, tuples, site, g, m))
    requires var f := site.callee;
             callers' == if f in params && params[f] != [] then WithCaller(callers, f, site.caller) else callers
    ensures TablesInOrder(params, tuples, longer, raw', callers')
  {
    assert longer[..|longer| - 1] == sites;
    forall g, m ensures RawAt(raw', g, m) == Distinct(PassedTexts(params, tuples, longer, g, m)) {
      DistinctAppends(PassedTexts(params, tuples, sites, g, m), PassedFrom(params, tuples, site, g, m));
    }
    forall f ensures CallersInOrder(params, longer, callers', f) {
      assert CallersInOrder(params, sites, callers, f);
      CallerAppended(sites, f, site.caller);
    }
  }

  lemma {:induction false} CallerAppended(sites: seq<Site>, f: string, c: string)
    ensures Distinct(CallerTexts(sites, f) + [c]) == Append(Distinct(CallerTexts(sites, f)), c)
    ensures CallerTexts(sites, f) + [] == CallerTexts(sites, f)
  {
    assert (CallerTexts(sites, f) + [c])[..|CallerTexts(sites, f)|] == CallerTexts(sites, f);
  }

  lemma {:induction false} SitesReadStep(
    params: map<string, seq<string>>, tuples: Tuples, sites: seq<Site>, site: Site, longer: seq<Site>,
    raw: map<string, map<string, seq<string>>>, callers: map<string, seq<string>>,
    raw': map<string, map<string, seq<string>>>, callers': map<string, seq<string>>)
    requires longer == sites + [site] && SitesRead(params, tuples, sites, raw, callers)
    requires forall f :: f in raw' <==> f in callers'
    requires forall g, m, y :: y in RawAt(raw', g, m) <==>
            y in RawAt(raw, g, m) || PassedBy(params, tuples, site, g, m, y)
    requires forall g, m :: RawAt(raw', g, m) == AppendAll(RawAt(raw, g, m), PassedFrom(params, tuples, site, g, m))
    requires var f := site.callee;
             callers' == if f in params && params[f] != [] then WithCaller(callers, f, site.caller) else callers
    ensures SitesRead(params, tuples, longer, raw', callers')
  {
    SitesSnoc(params, tuples, sites, site, longer);
    CallersReadStep(params, tuples, sites, site, longer, callers);
    TablesStep(params, tuples, sites, site, longer, raw, callers, raw', callers');
  }

  method ReadSite(
    params: map<string, seq<string>>, tuples: Tuples, site: Site, raw: map<string, map<string, seq<string>>>,
    callers: map<string, seq<string>>)
    returns (raw': map<string, map<string, seq<string>>>, callers': map<string, seq<string>>)
    requires forall f :: f in raw <==> f in callers
    ensures forall f :: f in raw' <==> f in callers'
    ensures forall g, m, y :: y in RawAt(raw', g, m) <==>
            y in RawAt(raw, g, m) || PassedBy(params, tuples, site, g, m, y)
    ensures forall g, m :: RawAt(raw', g, m) == AppendAll(RawAt(raw, g, m), PassedFrom(params, tuples, site, g, m))
    ensures var f := site.callee;
            callers' == if f in params && params[f] != [] then WithCaller(callers, f, site.caller) else callers
  {
    var f := site.callee;
    raw', callers' := raw, callers;
    if f in params && params[f] != [] {
      if f !in raw' { raw' := raw'[f := map[]]; }
      assert forall g, m :: RawAt(raw', g, m) == RawAt(raw, g, m);
      callers' := WithCaller(callers, f, site.caller);
      raw' := AddSite(raw', params, tuples, site);
    } else {
      assert forall g, m, y :: !PassedBy(params, tuples, site, g, m, y);
      assert forall g, m :: PassedFrom(params, tuples, site, g, m) == [];
    }
  }

  // ----- the result -----

  function Functions(p: Program): set<string>
  {
    p.raw.Keys + set f, c | f in p.callers && c in p.callers[f] :: c
  }

  /** Every name or text a triple can hold. */
  function Texts(p: Program): set<string>
  {
    (set f, n | f in p.raw && n in p.raw[f] :: n)
    + (set f, n, a | f in p.raw && n in p.raw[f] && a in p.raw[f][n] :: Norm(a))
    + (set f, n | f in p.locals && n in p.locals[f] :: Norm(p.locals[f][n]))
  }

  function Universe(p: Program): set<Key>
  {
    set f, n, a | f in Functions(p) && n in Texts(p) && a in Texts(p) :: Key(f, n, a)
  }

  lemma {:induction false} ThroughAllIn(p: Program, k: Key, callers: seq<string>, n: Key)
    requires n in ThroughAll(p, k, callers)
    ensures exists c :: c in callers && n in Through(p, k, c)
    decreases callers
  {
    if n in Through(p, k, callers[0]) {
      assert callers[0] in callers;
    } else {
      ThroughAllIn(p, k, callers[1..], n);
      var c :| c in callers[1..] && n in Through(p, k, c);
      assert c in callers;
    }
  }

  lemma {:induction false} ThroughStep(p: Program, k: Key, c: string, n: Key)
    requires n in Through(p, k, c)
    ensures n.callee == c && n.pname == k.actual
    ensures (exists a :: a in RawOf(p, c, k.actual) && n.actual == Norm(a))
            || (c in p.locals && k.actual in p.locals[c] && n.actual == Norm(p.locals[c][k.actual]))
  {
    var next := LocalOf(p, c, k.actual) + PassedOf(p, c, k.actual, k.actual == k.pname);
    var i :| 0 <= i < |next| && n == Key(c, k.actual, Norm(next[i]));
    if next[i] in RawOf(p, c, k.actual) { assert n.actual == Norm(next[i]); }
  }

  /** The triples are finitely many, and stay among themselves. */
  lemma {:induction false} UniverseClosed(p: Program)
    ensures Closed(p, Universe(p))
  {
    forall k, n | k in Universe(p) && n in Next(p, k) ensures n in Universe(p) {
      ThroughAllIn(p, k, CallersOf(p, k.callee), n);
      var c :| c in CallersOf(p, k.callee) && n in Through(p, k, c);
      ThroughStep(p, k, c, n);
    }
  }

  /** The text is a stripped argument or the stripped definition of a caller's local. */
  ghost predicate ActualOrLocal(p: Program, x: string)
  {
    || (exists f, n, a :: a in RawOf(p, f, n) && x == Norm(a))
    || (exists f, n :: f in p.locals && n in p.locals[f] && x == Norm(p.locals[f][n]))
  }

  /** What a chain of callers ends in is an argument or a local's definition found there. */
  lemma {:induction false} DerivedIsFound(p: Program, k: Key, x: string)
    requires Derived(p, k, x) && ActualOrLocal(p, k.actual)
    ensures ActualOrLocal(p, x)
  {
    var ks: seq<Key> :| Chain(p, ks) && ks[0] == k && ks[|ks| - 1].actual == x && x != ks[|ks| - 1].pname && x != "";
    if |ks| > 1 {
      var j, n := ks[|ks| - 2], ks[|ks| - 1];
      ThroughAllIn(p, j, CallersOf(p, j.callee), n);
      var c :| c in CallersOf(p, j.callee) && n in Through(p, j, c);
      ThroughStep(p, j, c, n);
    }
  }

  /** Without the name itself, or the unexpanded arguments when nothing else is left. */
  function Settled(expanded: seq<string>, pname: string, actuals: seq<string>): seq<string>
  {
    var kept := Without(expanded, pname);
    if kept == [] then actuals else Distinct(kept)
  }

  function Without(xs: seq<string>, pname: string): seq<string>
  {
    if xs == [] then []
    else Without(xs[..|xs| - 1], pname) + (if xs[|xs| - 1] == "" || xs[|xs| - 1] == pname then [] else [xs[|xs| - 1]])
  }

  lemma {:induction false} WithoutKeeps(xs: seq<string>, pname: string)
    ensures forall x :: x in Without(xs, pname) <==> x in xs && x != "" && x != pname
    decreases xs
  {
    if xs != [] {
      WithoutKeeps(xs[..|xs| - 1], pname);
      assert xs == xs[..|xs| - 1] + [xs[|xs| - 1]];
    }
  }

  /** All arguments of one parameter, expanded by the plain recursion. */
  ghost function PlainFor(p: Program, rank: map<Key, nat>, f: string, pname: string, actuals: seq<string>): seq<string>
    requires Ranked(p, rank) && forall a | a in actuals :: Key(f, pname, Norm(a)) in rank
  {
    if actuals == [] then []
    else
      assert actuals[|actuals| - 1] in actuals;
      PlainFor(p, rank, f, pname, actuals[..|actuals| - 1])
      + Plain(p, rank, Key(f, pname, Norm(actuals[|actuals| - 1])))
  }

  ghost predicate AllDone(memo: Memo)
  {
    forall k | k in memo :: memo[k].Done?
  }

  /** A reported text ends a chain of callers that starts at an argument of this parameter, or is such an argument. */
  ghost predicate Justified(p: Program, f: string, pname: string, x: string)
  {
    || x in RawOf(p, f, pname)
    || (x != pname && exists a :: a in RawOf(p, f, pname) && Derived(p, Key(f, pname, Norm(a)), x))
  }

  /** In particular it is an argument or a caller's local definition. */
  lemma {:induction false} JustifiedIsFound(p: Program, f: string, pname: string, x: string)
    requires Justified(p, f, pname, x)
    ensures x in RawOf(p, f, pname) || ActualOrLocal(p, x)
  {
    if x !in RawOf(p, f, pname) {
      var a :| a in RawOf(p, f, pname) && Derived(p, Key(f, pname, Norm(a)), x);
      DerivedIsFound(p, Key(f, pname, Norm(a)), x);
    }
  }

  /** The triples the arguments of a parameter are looked up as. */
  function ArgumentKeys(f: string, pname: string, actuals: seq<string>): seq<Key>
  {
    seq(|actuals|, i requires 0 <= i < |actuals| => Key(f, pname, Norm(actuals[i])))
  }

  lemma {:induction false} ArgumentKeysIn(p: Program, f: string, pname: string, actuals: seq<string>)
    requires forall a | a in actuals :: Key(f, pname, Norm(a)) in Universe(p)
    ensures forall k | k in ArgumentKeys(f, pname, actuals) :: k in Universe(p)
  {
    forall k | k in ArgumentKeys(f, pname, actuals) ensures k in Universe(p) {
      var i :| 0 <= i < |actuals| && k == Key(f, pname, Norm(actuals[i]));
      assert actuals[i] in actuals;
    }
  }

  /** What is reported of a parameter, given the memo, and the memo it leaves. */
  ghost function Report(p: Program, memo: Memo, f: string, pname: string, actuals: seq<string>): (seq<string>, Memo)
    requires Closed(p, Universe(p)) && memo.Keys <= Universe(p)
    requires forall a | a in actuals :: Key(f, pname, Norm(a)) in Universe(p)
  {
    ArgumentKeysIn(p, f, pname, actuals);
    var (expanded, last) := LookUpAll(p, Universe(p), memo, ArgumentKeys(f, pname, actuals));
    (Settled(expanded, pname, actuals), last)
  }

  /** The state of `Bind` after `i` arguments. */
  ghost predicate Binding(p: Program, rank: map<Key, nat>, start: Memo, memo: Memo, f: string, pname: string,
                          actuals: seq<string>, i: nat, expanded: seq<string>)
    requires i <= |actuals| && forall a | a in actuals :: Key(f, pname, Norm(a)) in Universe(p)
    requires Closed(p, Universe(p)) && start.Keys <= Universe(p)
  {
    && (expanded, memo) == LookUpAll(p, Universe(p), start, ArgumentKeys(f, pname, actuals[..i]))
    && Sound(p, Universe(p), memo) && AllDone(memo)
    && (forall x | x in expanded :: exists a :: a in actuals && Derived(p, Key(f, pname, Norm(a)), x))
    && (Undisturbed(p, rank, start) ==> Undisturbed(p, rank, memo))
    && (Undisturbed(p, rank, start) && RankedArguments(rank, f, pname, actuals) ==>
          expanded == PlainFor(p, rank, f, pname, actuals[..i]))
  }

  /** Every argument of the parameter is ranked; nothing is asked of other parameters. */
  ghost predicate RankedArguments(rank: map<Key, nat>, f: string, pname: string, actuals: seq<string>)
  {
    forall a | a in actuals :: Key(f, pname, Norm(a)) in rank
  }

  lemma {:induction false} BindingStep(
    p: Program, rank: map<Key, nat>, start: Memo, before: Memo, memo: Memo, f: string, pname: string,
    actuals: seq<string>, i: nat, expanded: seq<string>, more: seq<string>)
    requires i < |actuals| && forall a | a in actuals :: Key(f, pname, Norm(a)) in Universe(p)
    requires Closed(p, Universe(p)) && start.Keys <= Universe(p)
    requires Binding(p, rank, start, before, f, pname, actuals, i, expanded)
    requires Sound(p, Universe(p), memo) && Grown(before, memo)
    requires actuals[i] in actuals && before.Keys <= Universe(p)
    requires (more, memo) == LookUp(p, Universe(p), before, Key(f, pname, Norm(actuals[i])))
    requires forall x | x in more :: Derived(p, Key(f, pname, Norm(actuals[i])), x)
    requires var k := Key(f, pname, Norm(actuals[i]));
             k in rank && Faithful(p, rank, rank[k] + 1, before) ==>
               Faithful(p, rank, rank[k] + 1, memo) && more == Plain(p, rank, k)
    requires Undisturbed(p, rank, before) ==> Undisturbed(p, rank, memo)
    ensures Binding(p, rank, start, memo, f, pname, actuals, i + 1, expanded + more)
  {
    assert AllDone(memo);
    ArgumentKeysSnoc(p, start, f, pname, actuals, i);
    MoreDerived(p, f, pname, actuals, i, expanded, more);
    if Undisturbed(p, rank, start) && RankedArguments(rank, f, pname, actuals) {
      assert actuals[i] in actuals;
      PlainForSnoc(p, rank, f, pname, actuals, i);
    }
  }

  lemma {:induction false} ArgumentKeysSnoc(
    p: Program, start: Memo, f: string, pname: string, actuals: seq<string>, i: nat)
    requires i < |actuals| && forall a | a in actuals :: Key(f, pname, Norm(a)) in Universe(p)
    requires Closed(p, Universe(p)) && start.Keys <= Universe(p)
    ensures actuals[i] in actuals
    ensures forall j | 0 <= j <= |actuals| :: forall k | k in ArgumentKeys(f, pname, actuals[..j]) :: k in Universe(p)
    ensures var (out, grown) := LookUpAll(p, Universe(p), start, ArgumentKeys(f, pname, actuals[..i]));
            var (more, last) := LookUp(p, Universe(p), grown, Key(f, pname, Norm(actuals[i])));
            LookUpAll(p, Universe(p), start, ArgumentKeys(f, pname, actuals[..i + 1])) == (out + more, last)
  {
    var ks := ArgumentKeys(f, pname, actuals);
    ArgumentKeysIn(p, f, pname, actuals);
    forall j | 0 <= j <= |actuals| ensures ArgumentKeys(f, pname, actuals[..j]) == ks[..j] {}
    LookUpSnoc(p, Universe(p), start, ks, i);
  }

  lemma {:induction false} PlainForSnoc(
    p: Program, rank: map<Key, nat>, f: string, pname: string, actuals: seq<string>, i: nat)
    requires Ranked(p, rank) && i < |actuals| && RankedArguments(rank, f, pname, actuals)
    ensures actuals[i] in actuals
    ensures PlainFor(p, rank, f, pname, actuals[..i + 1]) ==
            PlainFor(p, rank, f, pname, actuals[..i]) + Plain(p, rank, Key(f, pname, Norm(actuals[i])))
  {
    assert actuals[..i + 1][..i] == actuals[..i] && actuals[..i + 1][i] == actuals[i];
  }

  lemma {:induction false} MoreDerived(
    p: Program, f: string, pname: string, actuals: seq<string>, i: nat, expanded: seq<string>, more: seq<string>)
    requires i < |actuals| && forall x | x in more :: Derived(p, Key(f, pname, Norm(actuals[i])), x)
    requires forall x | x in expanded :: exists a :: a in actuals && Derived(p, Key(f, pname, Norm(a)), x)
    ensures forall x | x in expanded + more :: exists a :: a in actuals && Derived(p, Key(f, pname, Norm(a)), x)
  {
    forall x | x in expanded + more ensures exists a :: a in actuals && Derived(p, Key(f, pname, Norm(a)), x) {
      if x in more { assert actuals[i] in actuals && Derived(p, Key(f, pname, Norm(actuals[i])), x); }
    }
  }

  /** What one more argument adds. */
  method BindArgument(e: Expander, f: string, pname: string, actuals: seq<string>, i: nat, ghost expanded: seq<string>,
                      ghost start: Memo, ghost rank: map<Key, nat>)
    returns (more: seq<string>)
    requires i < |actuals| && forall a | a in actuals :: Key(f, pname, Norm(a)) in Universe(e.p)
    requires Closed(e.p, Universe(e.p)) && start.Keys <= Universe(e.p)
    requires Binding(e.p, rank, start, e.memo, f, pname, actuals, i, expanded)
    modifies e
    ensures Binding(e.p, rank, start, e.memo, f, pname, actuals, i + 1, expanded + more)
  {
    ghost var before := e.memo;
    assert actuals[i] in actuals;
    more := e.Expand(Key(f, pname, Norm(actuals[i])), {}, Universe(e.p), rank);
    BindingStep(e.p, rank, start, before, e.memo, f, pname, actuals, i, expanded, more);
  }

  method Bind(
    e: Expander, f: string, pname: string, actuals: seq<string>, ghost rank: map<Key, nat>)
    returns (r: seq<string>)
    requires f in e.p.raw && pname in e.p.raw[f] && actuals == e.p.raw[f][pname]
    requires Sound(e.p, Universe(e.p), e.memo) && AllDone(e.memo)
    modifies e
    ensures forall a | a in actuals :: Key(f, pname, Norm(a)) in Universe(e.p)
    ensures (r, e.memo) == Report(e.p, old(e.memo), f, pname, actuals)
    ensures Sound(e.p, Universe(e.p), e.memo) && AllDone(e.memo)
    ensures forall x | x in r :: Justified(e.p, f, pname, x)
    ensures Undisturbed(e.p, rank, old(e.memo)) ==> Undisturbed(e.p, rank, e.memo)
    ensures Undisturbed(e.p, rank, old(e.memo)) && RankedArguments(rank, f, pname, actuals) ==>
              r == Settled(PlainFor(e.p, rank, f, pname, actuals), pname, actuals)
  {
    var expanded: seq<string> := [];
    ghost var start := e.memo;
    ghost var p := e.p;
    ArgumentsInUniverse(p, f, pname);
    for i := 0 to |actuals|
      invariant Binding(p, rank, start, e.memo, f, pname, actuals, i, expanded)
    {
      var more := BindArgument(e, f, pname, actuals, i, expanded, start, rank);
      expanded := expanded + more;
    }
    assert actuals[..|actuals|] == actuals;
    r := Settled(expanded, pname, actuals);
    SettledIsJustified(p, f, pname, expanded);
  }

  lemma {:induction false} ArgumentsInUniverse(p: Program, f: string, pname: string)
    requires f in p.raw && pname in p.raw[f]
    ensures forall a | a in p.raw[f][pname] :: Key(f, pname, Norm(a)) in Universe(p)
  {
  }

  lemma {:induction false} SettledIsJustified(p: Program, f: string, pname: string, expanded: seq<string>)
    requires f in p.raw && pname in p.raw[f]
    requires forall x | x in expanded :: exists a :: a in p.raw[f][pname] && Derived(p, Key(f, pname, Norm(a)), x)
    ensures forall x | x in Settled(expanded, pname, p.raw[f][pname]) :: Justified(p, f, pname, x)
  {
    WithoutKeeps(expanded, pname);
    DistinctKeepsElements(Without(expanded, pname));
  }

  /** For each callee and parameter, the argument sources seen at call sites, expanded through callers.
      It comes to an end on every call graph; for each parameter whose arguments lead into no cycle it is the
      plain recursion, whatever cycles there are elsewhere. */
  method Bindings(p: Program, ghost rank: map<Key, nat>) returns (out: map<string, map<string, seq<string>>>)
    ensures forall f :: f in out <==> f in p.raw
    ensures forall f | f in p.raw :: forall n :: n in out[f] <==> n in p.raw[f]
    ensures forall f | f in p.raw :: forall n | n in p.raw[f] :: forall x | x in out[f][n] :: Justified(p, f, n, x)
    ensures Ranked(p, rank) ==>
              forall f | f in p.raw :: forall n | n in p.raw[f] && RankedArguments(rank, f, n, p.raw[f][n]) ::
                out[f][n] == Settled(PlainFor(p, rank, f, n, p.raw[f][n]), n, p.raw[f][n])
  {
    UniverseClosed(p);
    var e := new Expander(p);
    out := map[];
    var todo := p.raw.Keys;
    while todo != {}
      invariant todo <= p.raw.Keys && out.Keys == p.raw.Keys - todo
      invariant Sound(p, Universe(p), e.memo) && AllDone(e.memo)
      invariant forall f | f in out :: SlotsJustified(p, f, out[f])
      invariant Ranked(p, rank) ==>
                  Undisturbed(p, rank, e.memo) && forall f | f in out :: SlotsPlain(p, rank, f, out[f])
    {
      var f :| f in todo;
      var slots := BindSlots(e, f, rank);
      out := out[f := slots];
      todo := todo - {f};
    }
  }

  /** One entry per parameter with arguments, and every text in it justified. */
  ghost predicate SlotsJustified(p: Program, f: string, slots: map<string, seq<string>>)
    requires f in p.raw
  {
    slots.Keys == p.raw[f].Keys && forall n | n in slots :: forall x | x in slots[n] :: Justified(p, f, n, x)
  }

  /** The entries of parameters with ranked arguments are what the plain recursion gives. */
  ghost predicate SlotsPlain(p: Program, rank: map<Key, nat>, f: string, slots: map<string, seq<string>>)
    requires f in p.raw && Ranked(p, rank) && slots.Keys <= p.raw[f].Keys
  {
    forall n | n in slots && RankedArguments(rank, f, n, p.raw[f][n]) ::
      slots[n] == Settled(PlainFor(p, rank, f, n, p.raw[f][n]), n, p.raw[f][n])
  }

  method BindSlots(e: Expander, f: string, ghost rank: map<Key, nat>) returns (slots: map<string, seq<string>>)
    requires f in e.p.raw && Sound(e.p, Universe(e.p), e.memo) && AllDone(e.memo)
    modifies e
    ensures Sound(e.p, Universe(e.p), e.memo) && AllDone(e.memo)
    ensures SlotsJustified(e.p, f, slots)
    ensures Undisturbed(e.p, rank, old(e.memo)) ==>
              Undisturbed(e.p, rank, e.memo) && SlotsPlain(e.p, rank, f, slots)
  {
    slots := map[];
    var todo := e.p.raw[f].Keys;
    ghost var start := e.memo;
    while todo != {}
      invariant todo <= e.p.raw[f].Keys && slots.Keys == e.p.raw[f].Keys - todo
      invariant Slotting(e.p, rank, start, e.memo, f, slots)
    {
      var n :| n in todo;
      ghost var before := e.memo;
      var r := Bind(e, f, n, e.p.raw[f][n], rank);
      SlotAdded(e.p, rank, start, before, e.memo, f, slots, n, r);
      slots := slots[n := r];
      todo := todo - {n};
    }
  }

  /** The state of `BindSlots` after some parameters. */
  ghost predicate Slotting(
    p: Program, rank: map<Key, nat>, start: Memo, memo: Memo, f: string, slots: map<string, seq<string>>)
  {
    && f in p.raw && slots.Keys <= p.raw[f].Keys && Sound(p, Universe(p), memo) && AllDone(memo)
    && (forall n | n in slots :: forall x | x in slots[n] :: Justified(p, f, n, x))
    && (Undisturbed(p, rank, start) ==> Undisturbed(p, rank, memo) && SlotsPlain(p, rank, f, slots))
  }

  lemma {:induction false} SlotAdded(
    p: Program, rank: map<Key, nat>, start: Memo, before: Memo, memo: Memo, f: string,
    slots: map<string, seq<string>>, n: string, r: seq<string>)
    requires Slotting(p, rank, start, before, f, slots) && n in p.raw[f]
    requires Sound(p, Universe(p), memo) && AllDone(memo) && forall x | x in r :: Justified(p, f, n, x)
    requires Undisturbed(p, rank, before) ==>
               && Undisturbed(p, rank, memo)
               && (RankedArguments(rank, f, n, p.raw[f][n]) ==>
                     r == Settled(PlainFor(p, rank, f, n, p.raw[f][n]), n, p.raw[f][n]))
    ensures Slotting(p, rank, start, memo, f, slots[n := r])
  {
  }

  // ----- on a cycle the order of the look-ups shows -----

  /** Two triples lead to each other, and the first of them to a third that leads nowhere. */
  ghost predicate CycleWithExit(p: Program, f: Key, g: Key, h: Key)
  {
    && f != g && f != h && g != h && f.actual == f.pname != "" && g.actual == g.pname != ""
    && h.actual != h.pname && h.actual != ""
    && Next(p, f) == [g, h] && Next(p, g) == [f] && Next(p, h) == []
  }

  lemma {:induction false} OneLookUp(p: Program, universe: set<Key>, memo: Memo, k: Key)
    requires Closed(p, universe) && memo.Keys <= universe && k in universe
    ensures forall n | n in [k] :: n in universe
    ensures LookUpAll(p, universe, memo, [k]) == LookUp(p, universe, memo, k)
  {
    var ks := [k];
    assert ks[..0] == [] && ks[..1] == ks;
    LookUpSnoc(p, universe, memo, ks, 0);
    NothingInFront(LookUp(p, universe, memo, k).0);
  }

  /** The second triple first: it finds what the exit gives. */
  lemma {:induction false} SecondFirst(p: Program, universe: set<Key>, memo: Memo, f: Key, g: Key, h: Key)
    requires Closed(p, universe) && memo.Keys <= universe && {f, g, h} <= universe && CycleWithExit(p, f, g, h)
    requires f !in memo && g !in memo && h !in memo
    ensures LookUp(p, universe, memo, g).0 == [h.actual]
  {
    var m1 := memo[g := InProgress];
    StartedSize(universe, memo, g);
    OneLookUp(p, universe, m1, f);
    var m2 := m1[f := InProgress];
    StartedSize(universe, m1, f);
    CutThenExit(p, universe, m2, g, h);
    assert Distinct([h.actual]) == [h.actual] by { assert [h.actual][..0] == []; }
  }

  /** What is in progress gives nothing, and the exit gives its text. */
  lemma {:induction false} CutThenExit(p: Program, universe: set<Key>, memo: Memo, g: Key, h: Key)
    requires Closed(p, universe) && memo.Keys <= universe && g in universe && h in universe
    requires g in memo && memo[g] == InProgress && g.actual != "" && h !in memo && h.actual != "" && h.actual != h.pname
    requires Next(p, h) == []
    ensures forall n | n in [g, h] :: n in universe
    ensures LookUpAll(p, universe, memo, [g, h]) == ([h.actual], memo[h := InProgress][h := Done([h.actual])])
  {
    var ks := [g, h];
    assert ks[..1] == [g] && ks[..2] == ks;
    OneLookUp(p, universe, memo, g);
    LookUpSnoc(p, universe, memo, ks, 1);
    StartedSize(universe, memo, h);
    NothingInFront([h.actual]);
  }

  /** The first triple first: the second is finished with nothing while the first is in progress, and keeps that. */
  lemma {:induction false} FirstFirst(p: Program, universe: set<Key>, memo: Memo, f: Key, g: Key, h: Key)
    requires Closed(p, universe) && memo.Keys <= universe && {f, g, h} <= universe && CycleWithExit(p, f, g, h)
    requires f !in memo && g !in memo && h !in memo
    ensures LookUp(p, universe, LookUp(p, universe, memo, f).1, g).0 == []
  {
    var m1 := memo[f := InProgress];
    StartedSize(universe, memo, f);
    FinishedEmpty(p, universe, m1, f, g);
    var ks := [g, h];
    assert ks[..1] == [g] && ks[..2] == ks;
    OneLookUp(p, universe, m1, g);
    LookUpSnoc(p, universe, m1, ks, 1);
  }

  lemma {:induction false} FinishedEmpty(p: Program, universe: set<Key>, memo: Memo, f: Key, g: Key)
    requires Closed(p, universe) && memo.Keys <= universe && f in universe && g in universe && f != g
    requires f in memo && memo[f] == InProgress && g !in memo && f.actual != "" && g.actual == g.pname != ""
    requires Next(p, g) == [f]
    ensures LookUp(p, universe, memo, g) == ([], memo[g := InProgress][g := Done([])])
  {
    StartedSize(universe, memo, g);
    OneLookUp(p, universe, memo[g := InProgress], f);
  }

  /** `f` is called by `g` with its own `x` and by `h`, whose `x` is `"b"`; `g` is called by `f` with its own `x`. */
  function CyclicCalls(): Program
  {
    Program(map["f" := map["x" := ["x"]], "g" := map["x" := ["x"]]], map["f" := ["g", "h"], "g" := ["f"]],
            map["h" := map["x" := "b"]], map["f" := ["x"], "g" := ["x"]])
  }

  lemma {:induction false} CyclicCallsLoop()
    ensures CycleWithExit(CyclicCalls(), Key("f", "x", "x"), Key("g", "x", "x"), Key("h", "x", "b"))
  {
    var p := CyclicCalls();
    var f, g, h := Key("f", "x", "x"), Key("g", "x", "x"), Key("h", "x", "b");
    assert Norm("x") == "x" && Norm("b") == "b";
    assert Through(p, f, "g") == [g] && Through(p, f, "h") == [h] && Through(p, g, "f") == [f];
    var callers := ["g", "h"];
    assert callers[1..] == ["h"] && ["h"][1..] == [] && ["f"][1..] == [];
    assert ThroughAll(p, f, ["h"]) == [h] && ThroughAll(p, f, callers) == [g] + [h];
    assert ThroughAll(p, g, ["f"]) == [f] + [];
  }

  lemma {:induction false} CyclicCallsKeys()
    ensures {Key("f", "x", "x"), Key("g", "x", "x"), Key("h", "x", "b")} <= Universe(CyclicCalls())
  {
    var p := CyclicCalls();
    assert Norm("x") == "x" && Norm("b") == "b";
    assert "h" in p.callers["f"] && "f" in p.raw && "g" in p.raw && "x" in p.raw["f"];
    assert "h" in p.locals && "x" in p.locals["h"] && Norm(p.locals["h"]["x"]) == "b";
    assert "f" in Functions(p) && "g" in Functions(p) && "h" in Functions(p) && "x" in Texts(p) && "b" in Texts(p);
  }

  /** Reported first, `x` of `g` is `"b"`; reported after `f`, only its own name is left. */
  lemma {:induction false} OrderOfReportsMatters()
    ensures var p := CyclicCalls();
            && Closed(p, Universe(p)) && Key("f", "x", Norm("x")) in Universe(p) &&
                Key("g", "x", Norm("x")) in Universe(p)
            && Report(p, map[], "g", "x", ["x"]).0 == ["b"]
            && Report(p, Report(p, map[], "f", "x", ["x"]).1, "g", "x", ["x"]).0 == ["x"]
  {
    assert Norm("x") == "x";
    CyclicCallsKeys();
    CyclicCallsLoop();
    ReportsDiffer(CyclicCalls(), "f", "g", "x", Key("h", "x", "b"));
  }

  /** On every such cycle the exit is reported of the second parameter only when that is reported first. */
  lemma {:induction false} ReportsDiffer(p: Program, f: string, g: string, x: string, h: Key)
    requires CycleWithExit(p, Key(f, x, x), Key(g, x, x), h) && Norm(x) == x && h.actual != x
    requires {Key(f, x, x), Key(g, x, x), h} <= Universe(p)
    ensures Closed(p, Universe(p))
    ensures Report(p, map[], g, x, [x]).0 == [h.actual]
    ensures Report(p, Report(p, map[], f, x, [x]).1, g, x, [x]).0 == [x]
  {
    UniverseClosed(p);
    SecondFirst(p, Universe(p), map[], Key(f, x, x), Key(g, x, x), h);
    FirstFirst(p, Universe(p), map[], Key(f, x, x), Key(g, x, x), h);
    ReportOne(p, map[], g, x);
    ReportOne(p, map[], f, x);
    ReportOne(p, LookUp(p, Universe(p), map[], Key(f, x, x)).1, g, x);
    SettledOne(h.actual, x);
  }

  lemma {:induction false} SettledOne(y: string, x: string)
    requires y != "" && y != x
    ensures Settled([y], x, [x]) == [y] && Settled([], x, [x]) == [x]
  {
    assert [y][..0] == [];
    assert Without([y], x) == [] + [y];
    assert Distinct([y]) == [y];
  }

  /** The report of one argument that is the parameter's own name. */
  lemma {:induction false} ReportOne(p: Program, memo: Memo, f: string, x: string)
    requires Closed(p, Universe(p)) && memo.Keys <= Universe(p) && Norm(x) == x && Key(f, x, x) in Universe(p)
    ensures forall a | a in [x] :: Key(f, x, Norm(a)) in Universe(p)
    ensures var (out, last) := LookUp(p, Universe(p), memo, Key(f, x, x));
            Report(p, memo, f, x, [x]) == (Settled(out, x, [x]), last)
  {
    assert ArgumentKeys(f, x, [x]) == [Key(f, x, x)];
    OneLookUp(p, Universe(p), memo, Key(f, x, x));
  }
}
