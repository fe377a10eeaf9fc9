/** How far the results on guards reach: runs that are not cut short exist, and a guard recorded for
    a later link of a chain can be false where it is recorded. */
module GuardLimits {
  import opened Wrappers
  import opened GuardSyntax
  import opened GuardSemantics
  import opened GuardSoundness
  import opened GuardExactness

  // ----- enough samples -----

  ghost predicate LoopFree(n: Node)
    decreases n, 0
  {
    match n
    case Block(b) => LoopFreeSeq(b)
    case If(c, t, _, e) => LoopFree(c.arg) && LoopFree(t) && (e.Some? ==> LoopFree(e.value))
    case Ternary(c, t, e) => LoopFree(c.arg) && LoopFree(t) && LoopFree(e)
    case Loop(_, _, _, _, _) => false
    case DoOnce(b) => LoopFree(b)
    case Exit(_, _, a) => LoopFree(a)
    case Write(_, a) => LoopFree(a)
    case Other(ps) => LoopFreeSeq(ps)
  }

  ghost predicate LoopFreeSeq(ns: seq<Node>)
    decreases ns, 0
  {
    ns == [] || (LoopFree(ns[0]) && LoopFreeSeq(ns[1..]))
  }

  /** The most conditions a run of a loop-free statement decides. */
  function Decisions(n: Node): nat
    decreases n, 0
  {
    match n
    case Block(b) => DecisionsSeq(b)
    case If(c, t, _, e) =>
      1 + Decisions(c.arg) + Decisions(t) + (if e.Some? then Decisions(e.value) else 0)
    case Ternary(c, t, e) => 1 + Decisions(c.arg) + Decisions(t) + Decisions(e)
    case Loop(_, i, c, st, b) => 1 + Decisions(i) + Decisions(c.arg) + Decisions(st) + Decisions(b)
    case DoOnce(b) => Decisions(b)
    case Exit(_, _, a) => Decisions(a)
    case Write(_, a) => Decisions(a)
    case Other(ps) => DecisionsSeq(ps)
  }

  function DecisionsSeq(ns: seq<Node>): nat
    decreases ns, 0
  {
    if ns == [] then 0 else Decisions(ns[0]) + DecisionsSeq(ns[1..])
  }

  /** A loop-free run with a sample for every condition is not cut short. */
  lemma {:induction false} EnoughSamples(n: Node, s: set<nat>, w: seq<set<nat>>)
    requires LoopFree(n) && |w| >= Decisions(n)
    ensures !Exec(n, s, w).outcome.Cut? && |Exec(n, s, w).world| >= |w| - Decisions(n)
    decreases n, 0
  {
    match n
    case Block(b) => EnoughSamplesSeq(b, s, w);
    case If(c, t, _, e) =>
      EnoughToDecide(c, ChainSites(e), s, w);
      var d := Decide(c, ChainSites(e), s, w);
      if d.outcome.Normal? {
        if c.site in d.state { EnoughSamples(t, d.state, d.world); }
        else if e.Some? { EnoughSamples(e.value, d.state, d.world); }
      }
    case Ternary(c, t, e) =>
      EnoughToDecide(c, {}, s, w);
      var d := Decide(c, {}, s, w);
      if d.outcome.Normal? { EnoughSamples(if c.site in d.state then t else e, d.state, d.world); }
    case DoOnce(b) => EnoughSamples(b, s, w);
    case Exit(_, _, a) => EnoughSamples(a, s, w);
    case Write(_, a) => EnoughSamples(a, s, w);
    case Other(ps) => EnoughSamplesSeq(ps, s, w);
  }

  lemma {:induction false} EnoughToDecide(c: Cond, skipped: set<nat>, s: set<nat>, w: seq<set<nat>>)
    requires LoopFree(c.arg) && |w| >= 1 + Decisions(c.arg)
    ensures var d := Decide(c, skipped, s, w); !d.outcome.Cut? && |d.world| >= |w| - 1 - Decisions(c.arg)
    decreases c, 1
  {
    EnoughSamples(c.arg, s, w);
  }

  lemma {:induction false} EnoughSamplesSeq(ns: seq<Node>, s: set<nat>, w: seq<set<nat>>)
    requires LoopFreeSeq(ns) && |w| >= DecisionsSeq(ns)
    ensures !ExecSeq(ns, s, w).outcome.Cut? && |ExecSeq(ns, s, w).world| >= |w| - DecisionsSeq(ns)
    decreases ns, 0
  {
    if ns != [] {
      EnoughSamples(ns[0], s, w);
      var r := Exec(ns[0], s, w);
      if r.outcome.Normal? { EnoughSamplesSeq(ns[1..], r.state, r.world); }
    }
  }

  lemma {:induction false} QuietIsLoopFree(n: Node)
    requires Quiet(n)
    ensures LoopFree(n)
    decreases n, 0
  {
    match n
    case Block(b) => QuietSeqIsLoopFree(b);
    case If(c, t, _, e) =>
      QuietIsLoopFree(c.arg);
      QuietIsLoopFree(t);
      if e.Some? { QuietIsLoopFree(e.value); }
    case Ternary(c, t, e) =>
      QuietIsLoopFree(c.arg);
      QuietIsLoopFree(t);
      QuietIsLoopFree(e);
    case DoOnce(b) => QuietIsLoopFree(b);
    case Write(_, a) => QuietIsLoopFree(a);
    case Other(ps) => QuietSeqIsLoopFree(ps);
  }

  lemma {:induction false} QuietSeqIsLoopFree(ns: seq<Node>)
    requires QuietSeq(ns)
    ensures LoopFreeSeq(ns)
    decreases ns, 0
  {
    if ns != [] {
      QuietIsLoopFree(ns[0]);
      QuietSeqIsLoopFree(ns[1..]);
    }
  }

  /** The bodies exactness is about are loop-free, so each has runs that are not cut short. */
  lemma {:induction false} ExactBodyIsLoopFree(n: Node, byLog: bool)
    requires ExactBody(n, byLog)
    ensures LoopFree(n)
    decreases n, 0
  {
    match n
    case Block(b) => ExactBlockIsLoopFree(b, byLog);
    case If(c, t, _, e) =>
      QuietIsLoopFree(c.arg);
      ExactBodyIsLoopFree(t, byLog);
      if e.Some? { ExactBodyIsLoopFree(e.value, byLog); }
    case Exit(_, _, a) => QuietIsLoopFree(a);
    case _ => QuietIsLoopFree(n);
  }

  lemma {:induction false} ExactBlockIsLoopFree(ns: seq<Node>, byLog: bool)
    requires ExactBlock(ns, byLog)
    ensures LoopFreeSeq(ns)
    decreases ns, 0
  {
    if ns != [] {
      ExactBodyIsLoopFree(ns[0], byLog);
      ExactBlockIsLoopFree(ns[1..], byLog);
    }
  }

  /** With enough samples of one truth, the guards of an exact body decide what it reaches. */
  lemma {:induction false} ExactBodiesAreDecided(
    body: Node, byLog: bool, truth: set<nat>, s: set<nat>, w: seq<set<nat>>, r: Record)
    requires Distinct(body) && ExactBody(body, byLog) && Constant(w, truth) && |w| >= Decisions(body)
    requires r in Records(body, [], byLog)
    ensures (exists e :: e in Exec(body, s, w).events && e.site == r.site) <==>
            (forall p | p in r.conds :: Holds(p, truth))
  {
    ExactBodyIsLoopFree(body, byLog);
    EnoughSamples(body, s, w);
    CollectedGuardsAreExact(body, byLog, truth, s, w, r);
  }

  // ----- the claim of a later link -----

  // `if (A) {} else if (B) { if (C) return; } write` with the sites 0, 1, 2 and 3

  function Plain(site: nat): Cond { Cond(site, true, false, Other([])) }

  function InnerIf(): Node { If(Plain(2), Exit(Return, false, Other([])), false, None) }

  function LaterLink(): Node { If(Plain(1), Block([InnerIf()]), false, None) }

  function TwoLinks(): Node { If(Plain(0), Block([]), false, Some(LaterLink())) }

  function TwoLinksBody(): Node { Block([TwoLinks(), Write(3, Other([]))]) }

  function LaterClaim(): PathCond
  {
    PathCond(Unless(1, PathCond(Is(2, true), true, IfKind)), false, Bailout)
  }

  lemma {:induction false} TwoLinksShape()
    ensures Distinct(TwoLinksBody())
  {
    var c, b, a, x := InnerIf(), LaterLink(), TwoLinks(), Write(3, Other([]));
    assert forall k: nat :: CondSites(Plain(k)) == {k} && DistinctCond(Plain(k));
    assert [c][1..] == [] && [x][1..] == [] && [a, x][1..] == [x];
    assert SitesSeq([c]) == Sites(c) + SitesSeq([]) == {2};
    assert Sites(b) == {1} + Sites(b.thn) + {} == {1, 2};
    assert Sites(a) == {0} + Sites(a.thn) + Sites(b) == {0, 1, 2};
    assert SitesSeq([x]) == Sites(x) + SitesSeq([]) == {3};
    assert DistinctSeq([c]) && Distinct(b.thn) && Distinct(b);
    assert DistinctSeq([]) && Distinct(a.thn) && Distinct(a);
  }

  lemma {:induction false} TwoLinksRecords()
    ensures Record(false, 3, [LaterClaim()]) in Records(TwoLinksBody(), [], false)
  {
    var c, b, a, x, p := InnerIf(), LaterLink(), TwoLinks(), Write(3, Other([])), LaterClaim();
    var q := [Negation(c.cond, IfKind)];
    assert q[1..] == [] && [c][1..] == [] && [x][1..] == [] && [a, x][1..] == [x];
    assert Links(c) == [Link(c.cond, c.thn, false)];
    assert ImpliedBySeq([c], false) == q + [];
    assert UnlessEach(1, q) == [p] + [];
    assert ImpliedByNestedGuards(b, false) == [p] + [];
    assert GuardClauseNegations(a, false) == ImpliedByNestedGuards(a, false) == [p];
    assert Records(Other([]), [p], false) == RecordsAll([], [p], false) == [];
    assert RecordsSeq([x], [p], false) == [Record(false, 3, [p])] + [] + [];
    assert [] + [p] == [p];
  }

  lemma {:induction false} TwoLinksRun()
    ensures Event(3, {0, 1, 2}) in Exec(TwoLinksBody(), {2}, [{0, 1, 2}]).events
  {
    var a, x, w := TwoLinks(), Write(3, Other([])), [{0, 1, 2}];
    assert ChainSites(None) == {} && ChainSites(a.els) == {1} + {};
    var d := Decide(a.cond, ChainSites(a.els), {2}, w);
    assert d.state == {0, 1, 2} && d.outcome.Normal?;
    assert Exec(a.thn, d.state, d.world) == ExecSeq([], d.state, d.world);
    var ra := Exec(a, {2}, w);
    assert ra.outcome.Normal? && ra.state == {0, 1, 2};
    assert Exec(x, ra.state, ra.world).events == [Event(3, {0, 1, 2})];
    assert [a, x][1..] == [x];
    assert ExecSeq([x], ra.state, ra.world).events == [Event(3, {0, 1, 2})];
  }

  /** The guard `!(B) || !(C)` recorded on the write is false on a run that takes the first link while
      B and C are true as well. */
  lemma {:induction false} LaterLinkCounterexample()
    ensures Distinct(TwoLinksBody())
    ensures exists r, e, p ::
              && r in Records(TwoLinksBody(), [], false)
              && e in Exec(TwoLinksBody(), {2}, [{0, 1, 2}]).events
              && r.site == e.site && p in r.conds && !Holds(p, e.state)
  {
    TwoLinksShape();
    TwoLinksRecords();
    TwoLinksRun();
    var r, e, p := Record(false, 3, [LaterClaim()]), Event(3, {0, 1, 2}), LaterClaim();
    assert Truth(p.text, e.state) == (1 !in e.state || Holds(p.text.inner, e.state));
    assert r.site == e.site && p in r.conds && !Holds(p, e.state);
  }
}
