/** On loop-free bodies whose early exits are guard clauses, the recorded guards are exact:
    a statement is reached if and only if all of them hold. */
module GuardExactness {
  import opened Wrappers
  import opened GuardSyntax
  import opened GuardSemantics
  import opened GuardSoundness

  // ----- the fragment -----

  /** No loop and no exit below: such a statement always falls through. */
  ghost predicate Quiet(n: Node)
    decreases n, 0
  {
    match n
    case Block(b) => QuietSeq(b)
    case If(c, t, _, e) => Quiet(c.arg) && Quiet(t) && (e.Some? ==> Quiet(e.value))
    case Ternary(c, t, e) => Quiet(c.arg) && Quiet(t) && Quiet(e)
    case Loop(_, _, _, _, _) => false
    case DoOnce(b) => Quiet(b)
    case Exit(_, _, _) => false
    case Write(_, a) => Quiet(a)
    case Other(ps) => QuietSeq(ps)
  }

  ghost predicate QuietSeq(ns: seq<Node>)
    decreases ns, 0
  {
    ns == [] || (Quiet(ns[0]) && QuietSeq(ns[1..]))
  }

  ghost predicate QuietArgs(n: Node)
  {
    n.If? ==> Quiet(n.cond.arg) && (n.els.Some? ==> QuietArgs(n.els.value))
  }

  /** Statements that may have later siblings: they never leave, or they are a guard clause, a chain
      that leaves on every link without rejecting, or an `if` with guard clauses one level inside. */
  ghost predicate ExactStmt(n: Node, byLog: bool)
    decreases n, 1
  {
    || Quiet(n)
    || (n.If? && Quiet(n.cond.arg) && n.cond.readable && QuietElse(n) && Leaves(n.thn) && !n.cond.statusTest)
    || (n.If? && Quiet(n.cond.arg) && n.cond.readable && QuietElse(n) && !Leaves(n.thn) && ExactInside(n.thn, byLog))
    || (n.If? && QuietArgs(n) && WholeChain(Links(n), byLog) && (Tail(n).Some? ==> Quiet(Tail(n).value)))
  }

  ghost predicate QuietElse(n: Node)
    requires n.If?
  {
    n.els.Some? ==> Quiet(n.els.value)
  }

  ghost predicate ExactInside(n: Node, byLog: bool)
    decreases n, 2
  {
    if n.Block? then ExactStmts(n.stmts, byLog) else ExactStmt(n, byLog)
  }

  ghost predicate ExactStmts(ns: seq<Node>, byLog: bool)
    decreases ns, 0
  {
    ns == [] || (ExactStmt(ns[0], byLog) && ExactStmts(ns[1..], byLog))
  }

  /** Bodies in which every statement with a later sibling is an `ExactStmt`, at every level. */
  ghost predicate ExactBody(n: Node, byLog: bool)
    decreases n, 0
  {
    match n
    case Block(b) => ExactBlock(b, byLog)
    case If(c, t, _, e) => Quiet(c.arg) && ExactBody(t, byLog) && (e.Some? ==> ExactBody(e.value, byLog))
    case Exit(_, _, a) => Quiet(a)
    case _ => Quiet(n)
  }

  ghost predicate ExactBlock(ns: seq<Node>, byLog: bool)
    decreases ns, 0
  {
    ns == [] || (ExactBody(ns[0], byLog) && (|ns| > 1 ==> ExactStmt(ns[0], byLog)) && ExactBlock(ns[1..], byLog))
  }

  /** The conditions keep one truth value each throughout the run. */
  ghost predicate Constant(w: seq<set<nat>>, truth: set<nat>)
  {
    forall k | 0 <= k < |w| :: w[k] == truth
  }

  // ----- quiet statements -----

  lemma {:induction false} QuietFallsThrough(n: Node, s: set<nat>, w: seq<set<nat>>)
    requires Quiet(n)
    ensures !Exec(n, s, w).outcome.Left?
    decreases n, 0
  {
    match n
    case Block(b) => QuietSeqFallsThrough(b, s, w);
    case If(c, t, _, e) =>
      var d := Decide(c, ChainSites(e), s, w);
      QuietFallsThrough(c.arg, s, w);
      if d.outcome.Normal? {
        QuietFallsThrough(t, d.state, d.world);
        if e.Some? { QuietFallsThrough(e.value, d.state, d.world); }
      }
    case Ternary(c, t, e) =>
      var d := Decide(c, {}, s, w);
      QuietFallsThrough(c.arg, s, w);
      if d.outcome.Normal? {
        QuietFallsThrough(t, d.state, d.world);
        QuietFallsThrough(e, d.state, d.world);
      }
    case DoOnce(b) => QuietFallsThrough(b, s, w);
    case Write(_, a) => QuietFallsThrough(a, s, w);
    case Other(ps) => QuietSeqFallsThrough(ps, s, w);
  }

  lemma {:induction false} QuietSeqFallsThrough(ns: seq<Node>, s: set<nat>, w: seq<set<nat>>)
    requires QuietSeq(ns)
    ensures !ExecSeq(ns, s, w).outcome.Left?
    decreases ns, 0
  {
    if ns != [] {
      QuietFallsThrough(ns[0], s, w);
      var r := Exec(ns[0], s, w);
      if r.outcome.Normal? { QuietSeqFallsThrough(ns[1..], r.state, r.world); }
    }
  }

  lemma {:induction false} QuietNeverLeaves(n: Node)
    requires Quiet(n)
    ensures !Leaves(n)
    decreases n
  {
    if n.Block? && n.stmts != [] {
      QuietSeqAt(n.stmts, |n.stmts| - 1);
      QuietNeverLeaves(n.stmts[|n.stmts| - 1]);
    }
  }

  lemma {:induction false} QuietSeqAt(ns: seq<Node>, k: nat)
    requires QuietSeq(ns) && k < |ns|
    ensures Quiet(ns[k])
    decreases ns
  {
    if k > 0 { QuietSeqAt(ns[1..], k - 1); }
  }

  lemma {:induction false} QuietImpliesNothing(n: Node, byLog: bool)
    requires Quiet(n)
    ensures GuardClauseNegations(n, byLog) == [] && ImpliedByNestedGuards(n, byLog) == [] && ExitsInside(n, byLog) == []
    decreases n, 1
  {
    if n.Block? { QuietSeqImpliesNothing(n.stmts, byLog); }
    if n.If? {
      QuietNeverLeaves(n.thn);
      QuietImpliesNothing(n.thn, byLog);
      if n.els.Some? { QuietImpliesNothing(n.els.value, byLog); }
    }
  }

  lemma {:induction false} QuietSeqImpliesNothing(ns: seq<Node>, byLog: bool)
    requires QuietSeq(ns)
    ensures ImpliedBySeq(ns, byLog) == []
    decreases ns, 0
  {
    if ns != [] {
      QuietImpliesNothing(ns[0], byLog);
      QuietSeqImpliesNothing(ns[1..], byLog);
    }
  }

  lemma {:induction false} QuietIsExact(n: Node, byLog: bool)
    requires Quiet(n)
    ensures ExactBody(n, byLog)
    decreases n, 1
  {
    if n.Block? { QuietBlockIsExact(n.stmts, byLog); }
    if n.If? {
      QuietIsExact(n.thn, byLog);
      if n.els.Some? { QuietIsExact(n.els.value, byLog); }
    }
  }

  lemma {:induction false} QuietBlockIsExact(ns: seq<Node>, byLog: bool)
    requires QuietSeq(ns)
    ensures ExactBlock(ns, byLog)
    decreases ns, 0
  {
    if ns != [] {
      QuietIsExact(ns[0], byLog);
      QuietBlockIsExact(ns[1..], byLog);
    }
  }

  // ----- constant worlds -----

  lemma {:induction false} ConstantAfter(n: Node, s: set<nat>, w: seq<set<nat>>, truth: set<nat>)
    requires Constant(w, truth)
    ensures Constant(Exec(n, s, w).world, truth)
  {
    ExecFrame(n, s, w);
  }

  lemma {:induction false} DecideConstant(c: Cond, skipped: set<nat>, s: set<nat>, w: seq<set<nat>>, truth: set<nat>)
    requires Constant(w, truth) && Quiet(c.arg)
    ensures !Decide(c, skipped, s, w).outcome.Left?
    ensures Decide(c, skipped, s, w).outcome.Normal? ==>
              (c.site in Decide(c, skipped, s, w).state <==> c.site in truth)
    ensures Constant(Decide(c, skipped, s, w).world, truth)
  {
    QuietFallsThrough(c.arg, s, w);
    ConstantAfter(c.arg, s, w, truth);
  }

  // ----- a statement falls through exactly when its negations hold -----

  lemma {:induction false} AllHoldJoin(ps: seq<PathCond>, qs: seq<PathCond>, s: set<nat>)
    ensures AllHold(ps + qs, s) <==> AllHold(ps, s) && AllHold(qs, s)
  {
    assert forall k | 0 <= k < |ps| :: (ps + qs)[k] == ps[k];
    assert forall k | 0 <= k < |qs| :: (ps + qs)[|ps| + k] == qs[k];
  }

  lemma {:induction false} UnlessEachExact(outer: nat, inner: seq<PathCond>, s: set<nat>)
    requires forall p | p in inner :: !p.IsOpaque()
    ensures AllHold(UnlessEach(outer, inner), s) <==> (outer in s ==> AllHold(inner, s))
    decreases inner
  {
    if inner != [] {
      assert inner[0] in inner;
      UnlessEachExact(outer, inner[1..], s);
      var own := [PathCond(Unless(outer, inner[0]), false, Bailout)];
      AllHoldJoin(own, UnlessEach(outer, inner[1..]), s);
      AllHoldJoin([inner[0]], inner[1..], s);
      assert inner == [inner[0]] + inner[1..];
      assert UnlessEach(outer, inner) == own + UnlessEach(outer, inner[1..]);
      assert AllHold(own, s) <==> Holds(own[0], s);
      assert Truth(Unless(outer, inner[0]), s) == (outer !in s || Holds(inner[0], s));
      assert AllHold([inner[0]], s) <==> Holds([inner[0]][0], s);
    }
  }

  lemma {:induction false} ExactStmtFalls(n: Node, byLog: bool, truth: set<nat>, s: set<nat>, w: seq<set<nat>>)
    requires ExactStmt(n, byLog) && Constant(w, truth) && !Exec(n, s, w).outcome.Cut?
    ensures Exec(n, s, w).outcome.Normal? <==> AllHold(GuardClauseNegations(n, byLog), truth)
    decreases n, 1
  {
    if Quiet(n) {
      QuietFallsThrough(n, s, w);
      QuietImpliesNothing(n, byLog);
    } else if WholeChain(Links(n), byLog) && QuietArgs(n) && (Tail(n).Some? ==> Quiet(Tail(n).value)) {
      WholeChainFalls(n, byLog, truth, s, w);
    } else if Leaves(n.thn) {
      ClauseFalls(n, byLog, truth, s, w);
    } else {
      NestedFalls(n, byLog, truth, s, w);
    }
  }

  lemma {:induction false} WholeChainFalls(n: Node, byLog: bool, truth: set<nat>, s: set<nat>, w: seq<set<nat>>)
    requires n.If? && QuietArgs(n) && WholeChain(Links(n), byLog) && (Tail(n).Some? ==> Quiet(Tail(n).value))
    requires Constant(w, truth) && !Exec(n, s, w).outcome.Cut?
    ensures Exec(n, s, w).outcome.Normal? <==> AllHold(GuardClauseNegations(n, byLog), truth)
  {
    ChainFalls(n, truth, s, w);
    assert Leaves(Links(n)[0].body);
    if Tail(n).Some? { QuietNeverLeaves(Tail(n).value); }
    assert GuardClauseNegations(n, byLog) == Negations(Links(n));
    NegationsHold(Links(n), truth);
  }

  lemma {:induction false} ClauseFalls(n: Node, byLog: bool, truth: set<nat>, s: set<nat>, w: seq<set<nat>>)
    requires n.If? && Quiet(n.cond.arg) && n.cond.readable && QuietElse(n) && Leaves(n.thn) && !n.cond.statusTest
    requires Constant(w, truth) && !Exec(n, s, w).outcome.Cut?
    ensures Exec(n, s, w).outcome.Normal? <==> AllHold(GuardClauseNegations(n, byLog), truth)
  {
    var d := Decide(n.cond, ChainSites(n.els), s, w);
    DecideConstant(n.cond, ChainSites(n.els), s, w, truth);
    if n.els.Some? { QuietFallsThrough(n.els.value, d.state, d.world); }
    LeavingNeverFallsThrough(n.thn, d.state, d.world);
    GuardClauseIsFirst(n, byLog);
    var claims := GuardClauseNegations(n, byLog);
    assert AllHold(claims, truth) <==> Holds(claims[0], truth);
  }

  lemma {:induction false} NestedFalls(n: Node, byLog: bool, truth: set<nat>, s: set<nat>, w: seq<set<nat>>)
    requires n.If? && Quiet(n.cond.arg) && n.cond.readable && QuietElse(n) && !Leaves(n.thn) &&
            ExactInside(n.thn, byLog)
    requires Constant(w, truth) && !Exec(n, s, w).outcome.Cut?
    ensures Exec(n, s, w).outcome.Normal? <==> AllHold(GuardClauseNegations(n, byLog), truth)
    decreases n, 0
  {
    var d := Decide(n.cond, ChainSites(n.els), s, w);
    DecideConstant(n.cond, ChainSites(n.els), s, w, truth);
    if n.els.Some? {
      QuietFallsThrough(n.els.value, d.state, d.world);
      QuietImpliesNothing(n.els.value, byLog);
    }
    InsideReadable(n.thn, byLog);
    assert GuardClauseNegations(n, byLog) == UnlessEach(n.cond.site, ExitsInside(n.thn, byLog));
    UnlessEachExact(n.cond.site, ExitsInside(n.thn, byLog), truth);
    if n.cond.site in truth { InsideFalls(n.thn, byLog, truth, d.state, d.world); }
  }

  lemma {:induction false} NegationsHold(ls: seq<Link>, s: set<nat>)
    ensures AllHold(Negations(ls), s) <==> forall k | 0 <= k < |ls| :: ls[k].cond.site !in s
  {
    assert forall k | 0 <= k < |ls| :: Holds(Negations(ls)[k], s) <==> ls[k].cond.site !in s;
  }

  /** A guard clause with a quiet `else` contributes the negation of its own condition. */
  lemma {:induction false} GuardClauseIsFirst(n: Node, byLog: bool)
    requires n.If? && QuietElse(n) && Leaves(n.thn) && n.cond.readable && !n.cond.statusTest
    ensures |GuardClauseNegations(n, byLog)| == 1
    ensures forall s: set<nat> :: Holds(GuardClauseNegations(n, byLog)[0], s) <==> n.cond.site !in s
  {
    LinksTail(n);
    if n.els.Some? {
      var m := n.els.value;
      QuietNeverLeaves(m);
      if m.If? {
        QuietNeverLeaves(m.thn);
        assert Links(n)[1] == Links(n)[1..][0] == Links(m)[0];
        assert !AllLeave(Links(n));
      } else {
        assert Tail(n) == Tail(m) == Some(m);
      }
    }
    assert !WholeChain(Links(n), byLog);
  }

  lemma {:induction false} ChainFalls(n: Node, truth: set<nat>, s: set<nat>, w: seq<set<nat>>)
    requires n.If? && QuietArgs(n) && AllLeave(Links(n)) && (Tail(n).Some? ==> Quiet(Tail(n).value))
    requires Constant(w, truth) && !Exec(n, s, w).outcome.Cut?
    ensures Exec(n, s, w).outcome.Normal? <==> forall k | 0 <= k < |Links(n)| :: Links(n)[k].cond.site !in truth
    decreases n
  {
    var d := Decide(n.cond, ChainSites(n.els), s, w);
    DecideConstant(n.cond, ChainSites(n.els), s, w, truth);
    assert Leaves(Links(n)[0].body);
    LinksTail(n);
    if n.cond.site in truth {
      LeavingNeverFallsThrough(n.thn, d.state, d.world);
      assert Links(n)[0].cond.site in truth;
    } else if n.els.Some? {
      var m := n.els.value;
      if m.If? {
        ChainFalls(m, truth, d.state, d.world);
        assert forall k | 0 <= k < |Links(n)| :: Links(n)[k] == if k == 0 then Links(n)[0] else Links(m)[k - 1];
        assert forall k | 0 <= k < |Links(m)| :: Links(m)[k] == Links(n)[k + 1];
      } else {
        assert Tail(n) == Tail(m) == Some(m);
        QuietFallsThrough(m, d.state, d.world);
      }
    }
  }

  lemma {:induction false} InsideFalls(n: Node, byLog: bool, truth: set<nat>, s: set<nat>, w: seq<set<nat>>)
    requires ExactInside(n, byLog) && Constant(w, truth) && !Exec(n, s, w).outcome.Cut?
    ensures Exec(n, s, w).outcome.Normal? <==> AllHold(ExitsInside(n, byLog), truth)
    decreases n, 2
  {
    if n.Block? { ExactStmtsFall(n.stmts, byLog, truth, s, w); } else { ExactStmtFalls(n, byLog, truth, s, w); }
  }

  lemma {:induction false} ExactStmtsFall(ns: seq<Node>, byLog: bool, truth: set<nat>, s: set<nat>, w: seq<set<nat>>)
    requires ExactStmts(ns, byLog) && Constant(w, truth) && !ExecSeq(ns, s, w).outcome.Cut?
    ensures ExecSeq(ns, s, w).outcome.Normal? <==> AllHold(ImpliedBySeq(ns, byLog), truth)
    decreases ns, 0
  {
    if ns != [] {
      var r := Exec(ns[0], s, w);
      ExactStmtFalls(ns[0], byLog, truth, s, w);
      ConstantAfter(ns[0], s, w, truth);
      AllHoldJoin(GuardClauseNegations(ns[0], byLog), ImpliedBySeq(ns[1..], byLog), truth);
      if r.outcome.Normal? { ExactStmtsFall(ns[1..], byLog, truth, r.state, r.world); }
    }
  }

  // ----- records are exact -----

  ghost predicate Reached(es: seq<Event>, site: nat)
  {
    exists j :: 0 <= j < |es| && es[j].site == site
  }

  /** Given the guards of `stack`, a record's site is reached iff its further guards all hold. */
  ghost predicate Exact(rs: seq<Record>, es: seq<Event>, stack: seq<PathCond>, truth: set<nat>)
  {
    forall i | 0 <= i < |rs| ::
      stack <= rs[i].conds && (Reached(es, rs[i].site) <==> AllHold(rs[i].conds[|stack|..], truth))
  }

  ghost predicate Extends(rs: seq<Record>, stack: seq<PathCond>)
  {
    forall i | 0 <= i < |rs| :: stack <= rs[i].conds
  }

  lemma {:induction false} ExtendsJoin(a: seq<Record>, b: seq<Record>, stack: seq<PathCond>)
    requires Extends(a, stack) && Extends(b, stack)
    ensures Extends(a + b, stack)
  {
  }

  lemma {:induction false} ExtendsLess(rs: seq<Record>, stack: seq<PathCond>, longer: seq<PathCond>)
    requires stack <= longer && Extends(rs, longer)
    ensures Extends(rs, stack)
  {
  }

  lemma {:induction false} RecordsExtend(n: Node, stack: seq<PathCond>, byLog: bool)
    ensures Extends(Records(n, stack, byLog), stack)
    decreases n, 1
  {
    match n
    case Block(b) => RecordsSeqExtend(b, stack, byLog);
    case If(_, _, _, _) => ChoiceExtends(n, stack, byLog);
    case Ternary(_, _, _) => ChoiceExtends(n, stack, byLog);
    case Loop(_, _, _, _, _) => LoopExtends(n, stack, byLog);
    case DoOnce(b) => RecordsExtend(b, stack, byLog);
    case Exit(_, _, a) => RecordsExtend(a, stack, byLog);
    case Write(_, a) => RecordsExtend(a, stack, byLog);
    case Other(ps) => RecordsAllExtend(ps, stack, byLog);
  }

  lemma {:induction false} GuardedExtends(
    n: Node, stack: seq<PathCond>, c: Cond, negated: bool, kind: GuardKind, byLog: bool)
    ensures Extends(Records(n, Guarded(stack, c, negated, kind), byLog), stack)
    decreases n, 2
  {
    var longer := Guarded(stack, c, negated, kind);
    RecordsExtend(n, longer, byLog);
    ExtendsLess(Records(n, longer, byLog), stack, longer);
  }

  lemma {:induction false} ChoiceExtends(n: Node, stack: seq<PathCond>, byLog: bool)
    requires n.If? || n.Ternary?
    ensures Extends(Records(n, stack, byLog), stack)
    decreases n, 0
  {
    ChoiceRecords(n, stack, byLog);
    RecordsExtend(n.cond.arg, stack, byLog);
    GuardedExtends(n.thn, stack, n.cond, false, KindOf(n), byLog);
    if ElseOf(n).Some? { GuardedExtends(ElseOf(n).value, stack, n.cond, true, KindOf(n), byLog); }
    var own, arg := [Record(true, n.cond.site, stack)], Records(n.cond.arg, stack, byLog);
    ExtendsJoin(own, arg, stack);
    ExtendsJoin(ThenRecords(n, stack, byLog), ElseRecords(n, stack, byLog), stack);
    ExtendsJoin(own + arg, ThenRecords(n, stack, byLog) + ElseRecords(n, stack, byLog), stack);
  }

  lemma {:induction false} LoopExtends(n: Node, stack: seq<PathCond>, byLog: bool)
    requires n.Loop?
    ensures Extends(Records(n, stack, byLog), stack)
    decreases n, 0
  {
    var kind := LoopGuard(n.kind);
    GuardedExtends(n.init, stack, n.cond, false, kind, byLog);
    GuardedExtends(n.cond.arg, stack, n.cond, false, kind, byLog);
    GuardedExtends(n.step, stack, n.cond, false, kind, byLog);
    GuardedExtends(n.body, stack, n.cond, false, kind, byLog);
  }

  lemma {:induction false} RecordsSeqExtend(ns: seq<Node>, stack: seq<PathCond>, byLog: bool)
    ensures Extends(RecordsSeq(ns, stack, byLog), stack)
    decreases ns, 0
  {
    if ns != [] {
      RecordsExtend(ns[0], stack, byLog);
      RecordsSeqExtend(ns[1..], stack + GuardClauseNegations(ns[0], byLog), byLog);
    }
  }

  lemma {:induction false} RecordsAllExtend(ns: seq<Node>, stack: seq<PathCond>, byLog: bool)
    ensures Extends(RecordsAll(ns, stack, byLog), stack)
    decreases ns, 0
  {
    if ns != [] {
      RecordsExtend(ns[0], stack, byLog);
      RecordsAllExtend(ns[1..], stack, byLog);
    }
  }

  lemma {:induction false} ExactJoin(
    rs: seq<Record>, rs': seq<Record>, es: seq<Event>, es': seq<Event>, p: set<nat>, q: set<nat>, stack: seq<PathCond>,
    truth: set<nat>)
    requires Exact(rs, es, stack, truth) && Exact(rs', es', stack, truth) && p !! q
    requires RecordsIn(rs, p) && EventsIn(es, p) && RecordsIn(rs', q) && EventsIn(es', q)
    ensures Exact(rs + rs', es + es', stack, truth)
  {
    forall i | 0 <= i < |rs + rs'|
      ensures Reached(es + es', (rs + rs')[i].site) <==> Reached(if i < |rs| then es else es', (rs + rs')[i].site)
    {
      ReachedJoin(es, es', (rs + rs')[i].site);
    }
  }

  lemma {:induction false} ReachedJoin(es: seq<Event>, es': seq<Event>, site: nat)
    ensures Reached(es + es', site) <==> Reached(es, site) || Reached(es', site)
  {
    if Reached(es, site) {
      var j :| 0 <= j < |es| && es[j].site == site;
      assert (es + es')[j].site == site;
    }
    if Reached(es', site) {
      var j :| 0 <= j < |es'| && es'[j].site == site;
      assert (es + es')[|es| + j].site == site;
    }
  }

  lemma {:induction false} BehindStack(conds: seq<PathCond>, stack: seq<PathCond>, ps: seq<PathCond>)
    requires stack + ps <= conds
    ensures stack <= conds && conds[|stack|..] == ps + conds[|stack + ps|..]
  {
    assert conds == stack + ps + conds[|stack + ps|..];
  }

  /** Further guards that hold may be dropped from the stack. */
  lemma {:induction false} ExactShift(
    rs: seq<Record>, es: seq<Event>, stack: seq<PathCond>, ps: seq<PathCond>, truth: set<nat>)
    requires Exact(rs, es, stack + ps, truth) && AllHold(ps, truth)
    ensures Exact(rs, es, stack, truth)
  {
    forall i | 0 <= i < |rs|
      ensures stack <= rs[i].conds && (Reached(es, rs[i].site) <==> AllHold(rs[i].conds[|stack|..], truth))
    {
      BehindStack(rs[i].conds, stack, ps);
      AllHoldJoin(ps, rs[i].conds[|stack + ps|..], truth);
    }
  }

  /** Code under further guards that do not all hold is rightly not reached. */
  lemma {:induction false} ExactDead(rs: seq<Record>, stack: seq<PathCond>, ps: seq<PathCond>, truth: set<nat>)
    requires Extends(rs, stack + ps) && !AllHold(ps, truth)
    ensures Exact(rs, [], stack, truth)
  {
    forall i | 0 <= i < |rs|
      ensures stack <= rs[i].conds && !AllHold(rs[i].conds[|stack|..], truth)
    {
      BehindStack(rs[i].conds, stack, ps);
      AllHoldJoin(ps, rs[i].conds[|stack + ps|..], truth);
    }
  }

  lemma {:induction false} DecideIsExact(c: Cond, skipped: set<nat>, stack: seq<PathCond>, byLog: bool,
                                         truth: set<nat>, s: set<nat>, w: seq<set<nat>>)
    requires DistinctCond(c) && Quiet(c.arg) && Constant(w, truth)
    requires Decide(c, skipped, s, w).outcome.Normal?
    ensures Exact([Record(true, c.site, stack)] + Records(c.arg, stack, byLog), Decide(c, skipped, s, w).events, stack,
            truth)
    decreases c, 0
  {
    QuietIsExact(c.arg, byLog);
    WalkIsExact(c.arg, stack, byLog, truth, s, w);
    RecordsBelow(c.arg, stack, byLog);
    ExecFrame(c.arg, s, w);
    var a := Exec(c.arg, s, w);
    OneIsExact(Record(true, c.site, stack), a.state, truth);
    ExactSwap([Record(true, c.site, stack)], Records(c.arg, stack, byLog),
              [Event(c.site, a.state)], a.events, {c.site}, Sites(c.arg), stack, truth);
  }

  lemma {:induction false} OneIsExact(r: Record, s: set<nat>, truth: set<nat>)
    ensures Exact([r], [Event(r.site, s)], r.conds, truth)
  {
    var es := [Event(r.site, s)];
    assert es[0].site == r.site;
    assert r.conds[|r.conds|..] == [];
  }

  /** The walker records a condition or write before its argument; a run reaches it afterwards. */
  lemma {:induction false} ExactSwap(
    rs: seq<Record>, rs': seq<Record>, es: seq<Event>, es': seq<Event>, p: set<nat>, q: set<nat>, stack: seq<PathCond>,
    truth: set<nat>)
    requires Exact(rs, es, stack, truth) && Exact(rs', es', stack, truth) && p !! q
    requires RecordsIn(rs, p) && EventsIn(es, p) && RecordsIn(rs', q) && EventsIn(es', q)
    ensures Exact(rs + rs', es' + es, stack, truth)
  {
    ExactJoin(rs', rs, es', es, q, p, stack, truth);
    forall i | 0 <= i < |rs + rs'|
      ensures (rs + rs')[i] == (rs' + rs)[if i < |rs| then |rs'| + i else i - |rs|]
    {}
  }

  lemma {:induction false} BranchesExtend(n: Node, stack: seq<PathCond>, byLog: bool)
    requires n.If? || n.Ternary?
    ensures Extends(ThenRecords(n, stack, byLog), Guarded(stack, n.cond, false, KindOf(n)))
    ensures Extends(ElseRecords(n, stack, byLog), Guarded(stack, n.cond, true, KindOf(n)))
  {
    RecordsExtend(n.thn, Guarded(stack, n.cond, false, KindOf(n)), byLog);
    if ElseOf(n).Some? { RecordsExtend(ElseOf(n).value, Guarded(stack, n.cond, true, KindOf(n)), byLog); }
  }

  /** A taken branch: its guard holds, and that of the other branch does not. */
  lemma {:induction false} BranchShift(
    rs: seq<Record>, es: seq<Event>, stack: seq<PathCond>, c: Cond, negated: bool, kind: GuardKind, truth: set<nat>)
    requires !kind.LoopGuard?
    requires c.site in truth <==> !negated
    requires Exact(rs, es, Guarded(stack, c, negated, kind), truth)
    ensures Exact(rs, es, stack, truth)
  {
    ExactShift(rs, es, stack, [PathCond(Is(c.site, c.readable), negated, kind)], truth);
  }

  lemma {:induction false} BranchDead(
    rs: seq<Record>, stack: seq<PathCond>, c: Cond, negated: bool, kind: GuardKind, truth: set<nat>)
    requires !kind.LoopGuard?
    requires c.site in truth <==> negated
    requires Extends(rs, Guarded(stack, c, negated, kind))
    ensures Exact(rs, [], stack, truth)
  {
    var ps := [PathCond(Is(c.site, c.readable), negated, kind)];
    assert !Holds(ps[0], truth);
    ExactDead(rs, stack, ps, truth);
  }

  /** The part of an `if` or ternary behind its condition: the branch taken, if there is one. */
  lemma {:induction false} BranchesAreExact(n: Node, stack: seq<PathCond>, byLog: bool, truth: set<nat>,
                                            s: set<nat>, w: seq<set<nat>>)
    returns (es: seq<Event>)
    requires (n.If? || n.Ternary?) && Distinct(n) && ExactBody(n, byLog) && Constant(w, truth)
    requires n.cond.site in truth ==> !Exec(n.thn, s, w).outcome.Cut?
    requires n.cond.site !in truth && ElseOf(n).Some? ==> !Exec(ElseOf(n).value, s, w).outcome.Cut?
    ensures es == (if n.cond.site in truth then Exec(n.thn, s, w).events
                   else if ElseOf(n).Some? then Exec(ElseOf(n).value, s, w).events else [])
    ensures Exact(ThenRecords(n, stack, byLog) + ElseRecords(n, stack, byLog), es, stack, truth)
    ensures EventsIn(es, Sites(n.thn) + ElseSites(n))
    decreases n, 0
  {
    BranchRecords(n, stack, byLog);
    BranchesExtend(n, stack, byLog);
    var thn, alt := ThenRecords(n, stack, byLog), ElseRecords(n, stack, byLog);
    if n.cond.site in truth {
      if n.Ternary? { QuietIsExact(n.thn, byLog); }
      es := Exec(n.thn, s, w).events;
      WalkIsExact(n.thn, Guarded(stack, n.cond, false, KindOf(n)), byLog, truth, s, w);
      ExecFrame(n.thn, s, w);
      BranchShift(thn, es, stack, n.cond, false, KindOf(n), truth);
      BranchDead(alt, stack, n.cond, true, KindOf(n), truth);
      ExactJoin(thn, alt, es, [], Sites(n.thn), ElseSites(n), stack, truth);
      assert es + [] == es;
    } else {
      BranchDead(thn, stack, n.cond, false, KindOf(n), truth);
      es := [];
      if ElseOf(n).Some? {
        var m := ElseOf(n).value;
        if n.Ternary? { QuietIsExact(m, byLog); }
        es := Exec(m, s, w).events;
        WalkIsExact(m, Guarded(stack, n.cond, true, KindOf(n)), byLog, truth, s, w);
        ExecFrame(m, s, w);
        BranchShift(alt, es, stack, n.cond, true, KindOf(n), truth);
      }
      ExactJoin(thn, alt, [], es, Sites(n.thn), ElseSites(n), stack, truth);
      assert [] + es == es;
    }
  }

  /** With constant conditions and a run that is not cut short, a write or condition of an exact body is
      reached if and only if all the guards recorded on it hold. */
  lemma {:induction false} WalkIsExact(n: Node, stack: seq<PathCond>, byLog: bool, truth: set<nat>,
                                       s: set<nat>, w: seq<set<nat>>)
    requires Distinct(n) && ExactBody(n, byLog) && Constant(w, truth)
    requires !Exec(n, s, w).outcome.Cut?
    ensures Exact(Records(n, stack, byLog), Exec(n, s, w).events, stack, truth)
    decreases n, 2
  {
    match n
    case Block(b) => BlockIsExact(b, stack, byLog, truth, s, w);
    case If(_, _, _, _) => ChoiceIsExact(n, stack, byLog, truth, s, w);
    case Ternary(_, _, _) => ChoiceIsExact(n, stack, byLog, truth, s, w);
    case DoOnce(b) =>
      QuietIsExact(b, byLog);
      WalkIsExact(b, stack, byLog, truth, s, w);
    case Exit(_, _, a) =>
      QuietIsExact(a, byLog);
      WalkIsExact(a, stack, byLog, truth, s, w);
    case Write(l, a) =>
      QuietIsExact(a, byLog);
      WalkIsExact(a, stack, byLog, truth, s, w);
      QuietFallsThrough(a, s, w);
      RecordsBelow(a, stack, byLog);
      ExecFrame(a, s, w);
      OneIsExact(Record(false, l, stack), Exec(a, s, w).state, truth);
      ExactSwap([Record(false, l, stack)], Records(a, stack, byLog),
                [Event(l, Exec(a, s, w).state)], Exec(a, s, w).events, {l}, Sites(a), stack, truth);
    case Other(ps) => PartsAreExact(ps, stack, byLog, truth, s, w);
  }

  lemma {:induction false} ChoiceIsExact(n: Node, stack: seq<PathCond>, byLog: bool, truth: set<nat>,
                                         s: set<nat>, w: seq<set<nat>>)
    requires n.If? || n.Ternary?
    requires Distinct(n) && ExactBody(n, byLog) && Constant(w, truth)
    requires !Exec(n, s, w).outcome.Cut?
    ensures Exact(Records(n, stack, byLog), Exec(n, s, w).events, stack, truth)
    decreases n, 1
  {
    var c := n.cond;
    var d := Decide(c, Skipped(n), s, w);
    ChoiceRun(n, s, w);
    DecideConstant(c, Skipped(n), s, w, truth);
    DecideIsExact(c, Skipped(n), stack, byLog, truth, s, w);
    DecideEvents(c, Skipped(n), s, w);
    RecordsBelow(c.arg, stack, byLog);
    BranchRecords(n, stack, byLog);
    var own := [Record(true, c.site, stack)] + Records(c.arg, stack, byLog);
    var rest := ThenRecords(n, stack, byLog) + ElseRecords(n, stack, byLog);
    var es := BranchesAreExact(n, stack, byLog, truth, d.state, d.world);
    ExactJoin(own, rest, d.events, es, CondSites(c), Sites(n.thn) + ElseSites(n), stack, truth);
    ChoiceRecords(n, stack, byLog);
    assert Exec(n, s, w).events == d.events + es;
  }

  lemma {:induction false} BlockIsExact(ns: seq<Node>, stack: seq<PathCond>, byLog: bool, truth: set<nat>,
                                        s: set<nat>, w: seq<set<nat>>)
    requires DistinctSeq(ns) && ExactBlock(ns, byLog) && Constant(w, truth)
    requires !ExecSeq(ns, s, w).outcome.Cut?
    ensures Exact(RecordsSeq(ns, stack, byLog), ExecSeq(ns, s, w).events, stack, truth)
    decreases ns, 0
  {
    if ns != [] {
      var r := Exec(ns[0], s, w);
      var negations := GuardClauseNegations(ns[0], byLog);
      var later := RecordsSeq(ns[1..], stack + negations, byLog);
      WalkIsExact(ns[0], stack, byLog, truth, s, w);
      ExecFrame(ns[0], s, w);
      ConstantAfter(ns[0], s, w, truth);
      RecordsBelow(ns[0], stack, byLog);
      RecordsSeqBelow(ns[1..], stack + negations, byLog);
      RecordsSeqExtend(ns[1..], stack + negations, byLog);
      var es := if r.outcome.Normal? then ExecSeq(ns[1..], r.state, r.world).events else [];
      if |ns| > 1 {
        ExactStmtFalls(ns[0], byLog, truth, s, w);
        if r.outcome.Normal? {
          BlockIsExact(ns[1..], stack + negations, byLog, truth, r.state, r.world);
          ExactShift(later, es, stack, negations, truth);
        } else {
          ExactDead(later, stack, negations, truth);
        }
      }
      if r.outcome.Normal? { ExecSeqFrame(ns[1..], r.state, r.world); }
      ExactJoin(Records(ns[0], stack, byLog), later, r.events, es, Sites(ns[0]), SitesSeq(ns[1..]), stack, truth);
      assert ExecSeq(ns, s, w).events == r.events + es;
    }
  }

  lemma {:induction false} PartsAreExact(ns: seq<Node>, stack: seq<PathCond>, byLog: bool, truth: set<nat>,
                                         s: set<nat>, w: seq<set<nat>>)
    requires DistinctSeq(ns) && QuietSeq(ns) && Constant(w, truth)
    requires !ExecSeq(ns, s, w).outcome.Cut?
    ensures Exact(RecordsAll(ns, stack, byLog), ExecSeq(ns, s, w).events, stack, truth)
    decreases ns, 0
  {
    if ns != [] {
      var r := Exec(ns[0], s, w);
      QuietFallsThrough(ns[0], s, w);
      QuietIsExact(ns[0], byLog);
      WalkIsExact(ns[0], stack, byLog, truth, s, w);
      ExecFrame(ns[0], s, w);
      ConstantAfter(ns[0], s, w, truth);
      RecordsBelow(ns[0], stack, byLog);
      RecordsAllBelow(ns[1..], stack, byLog);
      PartsAreExact(ns[1..], stack, byLog, truth, r.state, r.world);
      ExecSeqFrame(ns[1..], r.state, r.world);
      ExactJoin(Records(ns[0], stack, byLog), RecordsAll(ns[1..], stack, byLog), r.events,
                ExecSeq(ns[1..], r.state, r.world).events, Sites(ns[0]), SitesSeq(ns[1..]), stack, truth);
    }
  }

  /** The result for a function body. */
  lemma {:induction false} CollectedGuardsAreExact(
    body: Node, byLog: bool, truth: set<nat>, s: set<nat>, w: seq<set<nat>>, r: Record)
    requires Distinct(body) && ExactBody(body, byLog) && Constant(w, truth)
    requires !Exec(body, s, w).outcome.Cut?
    requires r in Records(body, [], byLog)
    ensures (exists e :: e in Exec(body, s, w).events && e.site == r.site) <==>
            (forall p | p in r.conds :: Holds(p, truth))
  {
    WalkIsExact(body, [], byLog, truth, s, w);
    var i :| 0 <= i < |Records(body, [], byLog)| && Records(body, [], byLog)[i] == r;
    assert r.conds[0..] == r.conds;
    var es := Exec(body, s, w).events;
    if Reached(es, r.site) {
      var j :| 0 <= j < |es| && es[j].site == r.site;
      assert es[j] in es;
    }
    if AllHold(r.conds, truth) {
      assert forall p | p in r.conds :: Holds(p, truth);
    } else {
      var k :| 0 <= k < |r.conds| && !Holds(r.conds[k], truth);
      assert r.conds[k] in r.conds;
    }
  }
}
