/** Every guard recorded on a write or a control statement holds whenever it is reached. */
module GuardSoundness {
  import opened Wrappers
  import opened GuardSyntax
  import opened GuardSemantics

  // ----- the hypothesis on else-if chains -----

  /** None of the links from `e` on that imply something about later code is true in the sample. */
  ghost predicate NoClaimingLink(e: Option<Node>, byLog: bool, sample: set<nat>)
  {
    e.Some? && e.value.If? ==>
      && (e.value.cond.readable && ExitsInside(e.value.thn, byLog) != [] ==> e.value.cond.site !in sample)
      && NoClaimingLink(e.value.els, byLog, sample)
  }

  /** In each chain below `n`, a link with guards inside is never true together with an earlier link. */
  ghost predicate Exclusive(n: Node, byLog: bool, sample: set<nat>)
    decreases n, 0
  {
    match n
    case Block(b) => ExclusiveSeq(b, byLog, sample)
    case If(c, t, _, e) =>
      && (c.site in sample ==> NoClaimingLink(e, byLog, sample))
      && Exclusive(c.arg, byLog, sample) && Exclusive(t, byLog, sample)
      && (e.Some? ==> Exclusive(e.value, byLog, sample))
    case Ternary(c, t, e) =>
      Exclusive(c.arg, byLog, sample) && Exclusive(t, byLog, sample) && Exclusive(e, byLog, sample)
    case Loop(_, i, c, st, b) =>
      && Exclusive(i, byLog, sample) && Exclusive(c.arg, byLog, sample)
      && Exclusive(st, byLog, sample) && Exclusive(b, byLog, sample)
    case DoOnce(b) => Exclusive(b, byLog, sample)
    case Exit(_, _, a) => Exclusive(a, byLog, sample)
    case Write(_, a) => Exclusive(a, byLog, sample)
    case Other(ps) => ExclusiveSeq(ps, byLog, sample)
  }

  ghost predicate ExclusiveSeq(ns: seq<Node>, byLog: bool, sample: set<nat>)
    decreases ns, 0
  {
    ns == [] || (Exclusive(ns[0], byLog, sample) && ExclusiveSeq(ns[1..], byLog, sample))
  }

  ghost predicate ExclusiveWorld(n: Node, byLog: bool, w: seq<set<nat>>)
  {
    forall k | 0 <= k < |w| :: Exclusive(n, byLog, w[k])
  }

  ghost predicate ExclusiveWorldSeq(ns: seq<Node>, byLog: bool, w: seq<set<nat>>)
  {
    forall k | 0 <= k < |w| :: ExclusiveSeq(ns, byLog, w[k])
  }

  // ----- leaving statements -----

  /** A statement with an exit statement never falls through to its next sibling. */
  lemma {:induction false} LeavingNeverFallsThrough(n: Node, s: set<nat>, w: seq<set<nat>>)
    requires Leaves(n)
    ensures !Exec(n, s, w).outcome.Normal?
    decreases n, 0
  {
    if n.Block? { LeavingSeqNeverFallsThrough(n.stmts, s, w); }
  }

  lemma {:induction false} LeavingSeqNeverFallsThrough(ns: seq<Node>, s: set<nat>, w: seq<set<nat>>)
    requires ns != [] && Leaves(ns[|ns| - 1])
    ensures !ExecSeq(ns, s, w).outcome.Normal?
    decreases ns, 0
  {
    if |ns| == 1 {
      LeavingNeverFallsThrough(ns[0], s, w);
    } else {
      var r := Exec(ns[0], s, w);
      assert ns[1..][|ns[1..]| - 1] == ns[|ns| - 1];
      LeavingSeqNeverFallsThrough(ns[1..], r.state, r.world);
    }
  }

  /** When every branch of a chain and its plain `else` leave, nothing after the chain runs. */
  lemma {:induction false} ChainThatLeavesEverywhere(n: Node, s: set<nat>, w: seq<set<nat>>)
    requires n.If? && AllLeave(Links(n)) && Tail(n).Some? && Leaves(Tail(n).value)
    ensures !Exec(n, s, w).outcome.Normal?
    decreases n
  {
    var d := Decide(n.cond, ChainSites(n.els), s, w);
    if d.outcome.Normal? {
      assert Leaves(Links(n)[0].body);
      LeavingNeverFallsThrough(n.thn, d.state, d.world);
      LinksTail(n);
      if n.els.Some? {
        if n.els.value.If? {
          ChainThatLeavesEverywhere(n.els.value, d.state, d.world);
        } else {
          LeavingNeverFallsThrough(n.els.value, d.state, d.world);
        }
      }
    }
  }

  lemma {:induction false} LinksTail(n: Node)
    requires n.If?
    ensures n.els.Some? ==> Links(n)[1..] == Links(n.els.value)
    ensures n.els.None? ==> Links(n)[1..] == []
    ensures AllLeave(Links(n)) ==> n.els.Some? ==> AllLeave(Links(n.els.value))
  {
    if n.els.Some? {
      assert forall k | 0 <= k < |Links(n.els.value)| :: Links(n.els.value)[k] == Links(n)[k + 1];
    }
  }

  // ----- which sites the claims speak of -----

  lemma {:induction false} ClaimSitesJoin(ps: seq<PathCond>, qs: seq<PathCond>)
    ensures ClaimSites(ps + qs) == ClaimSites(ps) + ClaimSites(qs)
  {
    forall l | l in ClaimSites(ps) + ClaimSites(qs) ensures l in ClaimSites(ps + qs) {
      if l in ClaimSites(ps) {
        var k :| 0 <= k < |ps| && l in TextSites(ps[k].text);
        assert (ps + qs)[k] == ps[k];
      } else {
        var k :| 0 <= k < |qs| && l in TextSites(qs[k].text);
        assert (ps + qs)[|ps| + k] == qs[k];
      }
    }
  }

  lemma {:induction false} ClaimSitesOne(p: PathCond)
    ensures ClaimSites([p]) == TextSites(p.text)
  {
    forall l | l in TextSites(p.text) ensures l in ClaimSites([p]) { assert [p][0] == p; }
  }

  lemma {:induction false} UnlessEachSites(outer: nat, inner: seq<PathCond>)
    ensures ClaimSites(UnlessEach(outer, inner)) <= {outer} + ClaimSites(inner)
    decreases inner
  {
    if inner != [] {
      UnlessEachSites(outer, inner[1..]);
      var own := PathCond(Unless(outer, inner[0]), false, Bailout);
      ClaimSitesJoin([own], UnlessEach(outer, inner[1..]));
      ClaimSitesOne(own);
      ClaimSitesJoin([inner[0]], inner[1..]);
      ClaimSitesOne(inner[0]);
      assert inner == [inner[0]] + inner[1..];
      assert [] + UnlessEach(outer, inner[1..]) == UnlessEach(outer, inner[1..]);
    }
  }

  lemma {:induction false} LinkSites(n: Node)
    ensures forall k | 0 <= k < |Links(n)| :: Links(n)[k].cond.site in Sites(n)
    decreases n
  {
    if n.If? && n.els.Some? { LinkSites(n.els.value); }
  }

  lemma {:induction false} NegationSites(n: Node, byLog: bool)
    ensures ClaimSites(GuardClauseNegations(n, byLog)) <= Sites(n)
    decreases n, 2
  {
    if n.If? {
      LinkSites(n);
      if !Leaves(n.thn) { NestedSites(n, byLog); }
    }
  }

  lemma {:induction false} NestedSites(n: Node, byLog: bool)
    ensures ClaimSites(ImpliedByNestedGuards(n, byLog)) <= Sites(n)
    decreases n, 1
  {
    if n.If? {
      InsideSites(n.thn, byLog);
      UnlessEachSites(n.cond.site, ExitsInside(n.thn, byLog));
      if n.els.Some? { NestedSites(n.els.value, byLog); }
      ClaimSitesJoin(
        if n.cond.readable then UnlessEach(n.cond.site, ExitsInside(n.thn, byLog)) else [],
        if n.els.Some? then ImpliedByNestedGuards(n.els.value, byLog) else []);
    }
  }

  lemma {:induction false} InsideSites(n: Node, byLog: bool)
    ensures ClaimSites(ExitsInside(n, byLog)) <= Sites(n)
    decreases n, 3
  {
    if n.Block? { ImpliedSeqSites(n.stmts, byLog); } else { NegationSites(n, byLog); }
  }

  lemma {:induction false} ImpliedSeqSites(ns: seq<Node>, byLog: bool)
    ensures ClaimSites(ImpliedBySeq(ns, byLog)) <= SitesSeq(ns)
    decreases ns, 0
  {
    if ns != [] {
      NegationSites(ns[0], byLog);
      ImpliedSeqSites(ns[1..], byLog);
      ClaimSitesJoin(GuardClauseNegations(ns[0], byLog), ImpliedBySeq(ns[1..], byLog));
    }
  }

  // ----- what holds after a statement -----

  lemma {:induction false} UnlessEachHolds(outer: nat, inner: seq<PathCond>, s: set<nat>)
    requires outer in s ==> AllHold(inner, s)
    ensures AllHold(UnlessEach(outer, inner), s)
    decreases inner
  {
    if inner != [] {
      if outer in s {
        assert Holds(inner[0], s);
        assert forall k | 0 <= k < |inner[1..]| :: inner[1..][k] == inner[k + 1];
      }
      UnlessEachHolds(outer, inner[1..], s);
    }
  }

  lemma {:induction false} SkippedLinksHold(e: Node, byLog: bool, sample: set<nat>, s: set<nat>)
    requires NoClaimingLink(Some(e), byLog, sample)
    requires forall l | l in ChainSites(Some(e)) :: l in s <==> l in sample
    ensures AllHold(ImpliedByNestedGuards(e, byLog), s)
    decreases e
  {
    if e.If? {
      if e.cond.readable && ExitsInside(e.thn, byLog) != [] {
        UnlessEachHolds(e.cond.site, ExitsInside(e.thn, byLog), s);
      }
      if e.els.Some? { SkippedLinksHold(e.els.value, byLog, sample, s); }
    }
  }

  /** What deciding a condition leaves behind: its own value, and those of the links it skips. */
  lemma {:induction false} DecideLatches(
    c: Cond, skipped: set<nat>, s: set<nat>, w: seq<set<nat>>)
    returns (sample: set<nat>)
    requires Decide(c, skipped, s, w).outcome.Normal?
    ensures sample in w
    ensures c.site in Decide(c, skipped, s, w).state <==> c.site in sample
    ensures c.site in sample ==> forall l | l in skipped :: l in Decide(c, skipped, s, w).state <==> l in sample
  {
    ExecFrame(c.arg, s, w);
    sample := Exec(c.arg, s, w).world[0];
  }

  /** Once an `if` falls through, everything `_guard_clause_negations` adds for its later siblings holds. */
  lemma {:induction false} NegationsHoldAfter(n: Node, byLog: bool, s: set<nat>, w: seq<set<nat>>)
    requires Distinct(n) && ExclusiveWorld(n, byLog, w)
    requires Exec(n, s, w).outcome.Normal?
    ensures AllHold(GuardClauseNegations(n, byLog), Exec(n, s, w).state)
    decreases n, 2
  {
    if n.If? {
      if !Leaves(n.thn) {
        NestedHoldAfter(n, byLog, s, w);
      } else {
        FirstFalse(n, s, w);
        if AllLeave(Links(n)) { AllFalse(n, s, w); }
      }
    }
  }

  /** A first branch that leaves was not taken, if the chain falls through. */
  lemma {:induction false} FirstFalse(n: Node, s: set<nat>, w: seq<set<nat>>)
    requires n.If? && Distinct(n) && Leaves(n.thn)
    requires Exec(n, s, w).outcome.Normal?
    ensures n.cond.site !in Exec(n, s, w).state
    ensures var d := Decide(n.cond, ChainSites(n.els), s, w);
            && d.outcome.Normal? && n.cond.site !in d.state
            && (n.els.Some? ==> Exec(n.els.value, d.state, d.world).outcome.Normal?
                                && Exec(n.els.value, d.state, d.world).state == Exec(n, s, w).state)
  {
    var d := Decide(n.cond, ChainSites(n.els), s, w);
    LeavingNeverFallsThrough(n.thn, d.state, d.world);
    if n.els.Some? { ExecFrame(n.els.value, d.state, d.world); }
  }

  lemma {:induction false} AllFalse(n: Node, s: set<nat>, w: seq<set<nat>>)
    requires Distinct(n) && AllLeave(Links(n))
    requires Exec(n, s, w).outcome.Normal?
    ensures forall k | 0 <= k < |Links(n)| :: Links(n)[k].cond.site !in Exec(n, s, w).state
    decreases n
  {
    if n.If? {
      assert Leaves(Links(n)[0].body);
      FirstFalse(n, s, w);
      LinksTail(n);
      if n.els.Some? {
        var d := Decide(n.cond, ChainSites(n.els), s, w);
        AllFalse(n.els.value, d.state, d.world);
      }
    }
  }

  lemma {:induction false} NestedHoldAfter(n: Node, byLog: bool, s: set<nat>, w: seq<set<nat>>)
    requires Distinct(n) && ExclusiveWorld(n, byLog, w)
    requires Exec(n, s, w).outcome.Normal?
    ensures AllHold(ImpliedByNestedGuards(n, byLog), Exec(n, s, w).state)
    decreases n, 1
  {
    if n.If? {
      var d := Decide(n.cond, ChainSites(n.els), s, w);
      DecideFrame(n.cond, ChainSites(n.els), s, w);
      var sample := DecideLatches(n.cond, ChainSites(n.els), s, w);
      ChainSitesBelow(n.els);
      var end := Exec(n, s, w).state;
      if n.cond.site in d.state {
        ExecFrame(n.thn, d.state, d.world);
        InsideHoldAfter(n.thn, byLog, d.state, d.world);
        if n.els.Some? { SkippedLinksHold(n.els.value, byLog, sample, end); }
      } else if n.els.Some? {
        ExecFrame(n.els.value, d.state, d.world);
        NestedHoldAfter(n.els.value, byLog, d.state, d.world);
      }
      UnlessEachHolds(n.cond.site, ExitsInside(n.thn, byLog), end);
    }
  }

  lemma {:induction false} InsideHoldAfter(n: Node, byLog: bool, s: set<nat>, w: seq<set<nat>>)
    requires Distinct(n) && ExclusiveWorld(n, byLog, w)
    requires Exec(n, s, w).outcome.Normal?
    ensures AllHold(ExitsInside(n, byLog), Exec(n, s, w).state)
    decreases n, 3
  {
    if n.Block? { ImpliedHoldAfter(n.stmts, byLog, s, w); } else { NegationsHoldAfter(n, byLog, s, w); }
  }

  lemma {:induction false} ImpliedHoldAfter(ns: seq<Node>, byLog: bool, s: set<nat>, w: seq<set<nat>>)
    requires DistinctSeq(ns) && ExclusiveWorldSeq(ns, byLog, w)
    requires ExecSeq(ns, s, w).outcome.Normal?
    ensures AllHold(ImpliedBySeq(ns, byLog), ExecSeq(ns, s, w).state)
    decreases ns, 0
  {
    if ns != [] {
      var r := Exec(ns[0], s, w);
      NegationsHoldAfter(ns[0], byLog, s, w);
      ExecFrame(ns[0], s, w);
      ImpliedHoldAfter(ns[1..], byLog, r.state, r.world);
      ExecSeqFrame(ns[1..], r.state, r.world);
      NegationSites(ns[0], byLog);
      AllHoldFrame(GuardClauseNegations(ns[0], byLog), r.state, ExecSeq(ns[1..], r.state, r.world).state,
          SitesSeq(ns[1..]));
    }
  }

  // ----- soundness of the whole walk -----

  /** Each record of a site holds at each moment the site is reached. */
  ghost predicate Sound(rs: seq<Record>, es: seq<Event>)
  {
    forall i, j | 0 <= i < |rs| && 0 <= j < |es| ::
      rs[i].site == es[j].site ==> AllHold(rs[i].conds, es[j].state)
  }

  predicate RecordsIn(rs: seq<Record>, sites: set<nat>)
  {
    forall i | 0 <= i < |rs| :: rs[i].site in sites
  }

  predicate EventsIn(es: seq<Event>, sites: set<nat>)
  {
    forall j | 0 <= j < |es| :: es[j].site in sites
  }

  lemma {:induction false} RecordsBelow(n: Node, stack: seq<PathCond>, byLog: bool)
    ensures RecordsIn(Records(n, stack, byLog), Sites(n))
    decreases n, 1
  {
    match n
    case Block(b) => RecordsSeqBelow(b, stack, byLog);
    case If(_, _, _, _) => ChoiceRecordsBelow(n, stack, byLog);
    case Ternary(_, _, _) => ChoiceRecordsBelow(n, stack, byLog);
    case Loop(_, _, _, _, _) => LoopRecordsBelow(n, stack, byLog);
    case DoOnce(b) => RecordsBelow(b, stack, byLog);
    case Exit(_, _, a) => RecordsBelow(a, stack, byLog);
    case Write(l, a) => RecordsBelow(a, stack, byLog);
    case Other(ps) => RecordsAllBelow(ps, stack, byLog);
  }

  lemma {:induction false} ChoiceRecordsBelow(n: Node, stack: seq<PathCond>, byLog: bool)
    requires n.If? || n.Ternary?
    ensures RecordsIn(Records(n, stack, byLog), Sites(n))
    decreases n, 0
  {
    match n
    case If(c, t, _, e) =>
      RecordsBelow(c.arg, stack, byLog);
      RecordsBelow(t, Guarded(stack, c, false, IfKind), byLog);
      if e.Some? { RecordsBelow(e.value, Guarded(stack, c, true, IfKind), byLog); }
    case Ternary(c, t, e) =>
      RecordsBelow(c.arg, stack, byLog);
      RecordsBelow(t, Guarded(stack, c, false, TernaryKind), byLog);
      RecordsBelow(e, Guarded(stack, c, true, TernaryKind), byLog);
  }

  lemma {:induction false} LoopRecordsBelow(n: Node, stack: seq<PathCond>, byLog: bool)
    requires n.Loop?
    ensures RecordsIn(Records(n, stack, byLog), Sites(n))
    decreases n, 0
  {
    var inner := Guarded(stack, n.cond, false, LoopGuard(n.kind));
    RecordsBelow(n.init, inner, byLog);
    RecordsBelow(n.cond.arg, inner, byLog);
    RecordsBelow(n.step, inner, byLog);
    RecordsBelow(n.body, inner, byLog);
  }

  lemma {:induction false} RecordsSeqBelow(ns: seq<Node>, stack: seq<PathCond>, byLog: bool)
    ensures RecordsIn(RecordsSeq(ns, stack, byLog), SitesSeq(ns))
    decreases ns, 0
  {
    if ns != [] {
      RecordsBelow(ns[0], stack, byLog);
      RecordsSeqBelow(ns[1..], stack + GuardClauseNegations(ns[0], byLog), byLog);
    }
  }

  lemma {:induction false} RecordsAllBelow(ns: seq<Node>, stack: seq<PathCond>, byLog: bool)
    ensures RecordsIn(RecordsAll(ns, stack, byLog), SitesSeq(ns))
    decreases ns, 0
  {
    if ns != [] {
      RecordsBelow(ns[0], stack, byLog);
      RecordsAllBelow(ns[1..], stack, byLog);
    }
  }

  /** Parts with separate sites are sound together. */
  lemma {:induction false} SoundJoin(
    rs: seq<Record>, rs': seq<Record>, es: seq<Event>, es': seq<Event>, p: set<nat>, q: set<nat>)
    requires Sound(rs, es) && Sound(rs', es') && p !! q
    requires RecordsIn(rs, p) && EventsIn(es, p) && RecordsIn(rs', q) && EventsIn(es', q)
    ensures Sound(rs + rs', es + es')
  {
  }

  lemma {:induction false} StackWith(stack: seq<PathCond>, p: PathCond, s: set<nat>)
    ensures AllHold(stack + [p], s) <==> AllHold(stack, s) && Holds(p, s)
    ensures ClaimSites(stack + [p]) == ClaimSites(stack) + TextSites(p.text)
  {
    ClaimSitesJoin(stack, [p]);
    assert (stack + [p])[|stack|] == p;
    assert forall k | 0 <= k < |stack| :: (stack + [p])[k] == stack[k];
    ClaimSitesOne(p);
  }

  // ----- what soundness rests on -----

  /** Every sample of the world is one of the good ones. */
  ghost predicate Good(w: seq<set<nat>>, good: iset<set<nat>>)
  {
    forall k | 0 <= k < |w| :: w[k] in good
  }

  /** In every good world, what the statement claims for its later siblings holds whenever it falls through. */
  ghost predicate ClaimsHold(n: Node, byLog: bool, good: iset<set<nat>>)
  {
    forall s: set<nat>, w: seq<set<nat>> ::
      Good(w, good) && Exec(n, s, w).outcome.Normal? ==> AllHold(GuardClauseNegations(n, byLog), Exec(n, s, w).state)
  }

  /** The claims of every statement with a later sibling hold, at every level. */
  ghost predicate Reliable(n: Node, byLog: bool, good: iset<set<nat>>)
    decreases n, 0
  {
    match n
    case Block(b) => ReliableSeq(b, byLog, good)
    case If(c, t, _, e) =>
      && Reliable(c.arg, byLog, good) && Reliable(t, byLog, good)
      && (e.Some? ==> Reliable(e.value, byLog, good))
    case Ternary(c, t, e) => Reliable(c.arg, byLog, good) && Reliable(t, byLog, good) && Reliable(e, byLog, good)
    case Loop(_, i, c, st, b) =>
      && Reliable(i, byLog, good) && Reliable(c.arg, byLog, good)
      && Reliable(st, byLog, good) && Reliable(b, byLog, good)
    case DoOnce(b) => Reliable(b, byLog, good)
    case Exit(_, _, a) => Reliable(a, byLog, good)
    case Write(_, a) => Reliable(a, byLog, good)
    case Other(ps) => ReliableAll(ps, byLog, good)
  }

  ghost predicate ReliableSeq(ns: seq<Node>, byLog: bool, good: iset<set<nat>>)
    decreases ns, 0
  {
    ns == [] || (Reliable(ns[0], byLog, good) && (|ns| > 1 ==> ClaimsHold(ns[0], byLog, good)) &&
        ReliableSeq(ns[1..], byLog, good))
  }

  ghost predicate ReliableAll(ns: seq<Node>, byLog: bool, good: iset<set<nat>>)
    decreases ns, 0
  {
    ns == [] || (Reliable(ns[0], byLog, good) && ReliableAll(ns[1..], byLog, good))
  }

  /** A branch walked under one more guard, and run in a state where that guard holds. */
  lemma {:induction false} BranchSound(m: Node, c: Cond, stack: seq<PathCond>, negated: bool, kind: GuardKind,
                    byLog: bool, good: iset<set<nat>>, s: set<nat>, w: seq<set<nat>>)
    requires Distinct(m) && Reliable(m, byLog, good) && Good(w, good)
    requires ClaimSites(stack) !! Sites(m) && c.site !in Sites(m)
    requires AllHold(stack, s) && Holds(PathCond(Is(c.site, c.readable), negated, kind), s)
    ensures Sound(Records(m, Guarded(stack, c, negated, kind), byLog), Exec(m, s, w).events)
    decreases |w|, m, 6
  {
    StackWith(stack, PathCond(Is(c.site, c.readable), negated, kind), s);
    WalkIsSound(m, Guarded(stack, c, negated, kind), byLog, good, s, w);
  }

  /** The records of a decided condition and its argument, against the events of deciding it. */
  lemma {:induction false} DecideSound(c: Cond, skipped: set<nat>, stack: seq<PathCond>, inner: seq<PathCond>,
                    byLog: bool, good: iset<set<nat>>, s: set<nat>, w: seq<set<nat>>)
    requires DistinctCond(c) && Reliable(c.arg, byLog, good) && Good(w, good)
    requires ClaimSites(stack) !! CondSites(c) && ClaimSites(inner) !! Sites(c.arg)
    requires AllHold(stack, s) && AllHold(inner, s)
    ensures Sound([Record(true, c.site, stack)] + Records(c.arg, inner, byLog), Decide(c, skipped, s, w).events)
    decreases |w|, c, 0
  {
    WalkIsSound(c.arg, inner, byLog, good, s, w);
    RecordsBelow(c.arg, inner, byLog);
    ExecFrame(c.arg, s, w);
    var a := Exec(c.arg, s, w);
    AllHoldFrame(stack, s, a.state, Sites(c.arg));
    SoundJoin([Record(true, c.site, stack)], Records(c.arg, inner, byLog),
              [Event(c.site, a.state)], a.events, {c.site}, Sites(c.arg));
    forall i, j | 0 <= i < |[Record(true, c.site, stack)] + Records(c.arg, inner, byLog)|
                  && 0 <= j < |Decide(c, skipped, s, w).events|
      ensures ([Record(true, c.site, stack)] + Records(c.arg, inner, byLog))[i].site
              == Decide(c, skipped, s, w).events[j].site ==>
              AllHold(([Record(true, c.site, stack)] + Records(c.arg, inner, byLog))[i].conds,
                      Decide(c, skipped, s, w).events[j].state)
    {
      var e := Decide(c, skipped, s, w).events[j];
      var all := [Event(c.site, a.state)] + a.events;
      assert e == all[if j < |a.events| then j + 1 else 0];
    }
  }

  /** The guards on the stack when a write or condition is recorded hold every time a run reaches it. */
  lemma {:induction false} WalkIsSound(
    n: Node, stack: seq<PathCond>, byLog: bool, good: iset<set<nat>>, s: set<nat>, w: seq<set<nat>>)
    requires Distinct(n) && Reliable(n, byLog, good) && Good(w, good)
    requires ClaimSites(stack) !! Sites(n) && AllHold(stack, s)
    ensures Sound(Records(n, stack, byLog), Exec(n, s, w).events)
    decreases |w|, n, 5
  {
    match n
    case Block(b) => SeqIsSound(b, stack, byLog, good, s, w);
    case If(_, _, _, _) => ChoiceIsSound(n, stack, byLog, good, s, w);
    case Ternary(_, _, _) => ChoiceIsSound(n, stack, byLog, good, s, w);
    case Loop(k, i, c, st, b) => LoopIsSound(n, stack, byLog, good, s, w);
    case DoOnce(b) => WalkIsSound(b, stack, byLog, good, s, w);
    case Exit(_, _, a) => WalkIsSound(a, stack, byLog, good, s, w);
    case Write(l, a) =>
      WalkIsSound(a, stack, byLog, good, s, w);
      RecordsBelow(a, stack, byLog);
      ExecFrame(a, s, w);
      AllHoldFrame(stack, s, Exec(a, s, w).state, Sites(a));
    case Other(ps) => AllAreSound(ps, stack, byLog, good, s, w);
  }

  /** Deciding a condition reaches its own site and those of its argument only. */
  lemma {:induction false} DecideEvents(c: Cond, skipped: set<nat>, s: set<nat>, w: seq<set<nat>>)
    ensures EventsIn(Decide(c, skipped, s, w).events, CondSites(c))
  {
    ExecFrame(c.arg, s, w);
  }

  lemma {:induction false} BranchRecords(n: Node, stack: seq<PathCond>, byLog: bool)
    requires n.If? || n.Ternary?
    ensures RecordsIn(ThenRecords(n, stack, byLog), Sites(n.thn))
    ensures RecordsIn(ElseRecords(n, stack, byLog), ElseSites(n))
  {
    RecordsBelow(n.thn, Guarded(stack, n.cond, false, KindOf(n)), byLog);
    if ElseOf(n).Some? { RecordsBelow(ElseOf(n).value, Guarded(stack, n.cond, true, KindOf(n)), byLog); }
  }

  /** The branch taken behind the condition of an `if` or a ternary. */
  lemma {:induction false} BranchesAreSound(
    n: Node, stack: seq<PathCond>, byLog: bool, good: iset<set<nat>>, s: set<nat>, w: seq<set<nat>>)
    requires (n.If? || n.Ternary?) && Distinct(n) && Reliable(n, byLog, good) && Good(w, good)
    requires ClaimSites(stack) !! Sites(n) && AllHold(stack, s) && Taken(n, s).Some?
    ensures Sound(ThenRecords(n, stack, byLog) + ElseRecords(n, stack, byLog), Exec(Taken(n, s).value, s, w).events)
    ensures EventsIn(Exec(Taken(n, s).value, s, w).events, Sites(n.thn) + ElseSites(n))
    decreases |w|, n, 0
  {
    var m := Taken(n, s).value;
    var es := Exec(m, s, w).events;
    BranchRecords(n, stack, byLog);
    ExecFrame(m, s, w);
    if n.cond.site in s {
      BranchSound(m, n.cond, stack, false, KindOf(n), byLog, good, s, w);
      SoundJoin(ThenRecords(n, stack, byLog), ElseRecords(n, stack, byLog), es, [], Sites(n.thn), ElseSites(n));
      assert es + [] == es;
    } else {
      BranchSound(m, n.cond, stack, true, KindOf(n), byLog, good, s, w);
      SoundJoin(ThenRecords(n, stack, byLog), ElseRecords(n, stack, byLog), [], es, Sites(n.thn), ElseSites(n));
      assert [] + es == es;
    }
  }

  lemma {:induction false} ChoiceIsSound(
    n: Node, stack: seq<PathCond>, byLog: bool, good: iset<set<nat>>, s: set<nat>, w: seq<set<nat>>)
    requires (n.If? || n.Ternary?) && Distinct(n) && Reliable(n, byLog, good) && Good(w, good)
    requires ClaimSites(stack) !! Sites(n) && AllHold(stack, s)
    ensures Sound(Records(n, stack, byLog), Exec(n, s, w).events)
    decreases |w|, n, 2
  {
    var c, d := n.cond, Decide(n.cond, Skipped(n), s, w);
    var own := [Record(true, c.site, stack)] + Records(c.arg, stack, byLog);
    var rest := ThenRecords(n, stack, byLog) + ElseRecords(n, stack, byLog);
    ChoiceRun(n, s, w);
    ChoiceRecords(n, stack, byLog);
    BranchRecords(n, stack, byLog);
    RecordsBelow(c.arg, stack, byLog);
    DecideSound(c, Skipped(n), stack, stack, byLog, good, s, w);
    DecideEvents(c, Skipped(n), s, w);
    var es := [];
    if d.outcome.Normal? && Taken(n, d.state).Some? {
      StackAfterDecide(n, stack, s, w);
      BranchesAreSound(n, stack, byLog, good, d.state, d.world);
      es := Exec(Taken(n, d.state).value, d.state, d.world).events;
    }
    SoundJoin(own, rest, d.events, es, CondSites(c), Sites(n.thn) + ElseSites(n));
    assert d.events + [] == d.events;
  }

  /** Guards about other sites survive the decision, and so does the hypothesis on the world. */
  lemma {:induction false} StackAfterDecide(n: Node, stack: seq<PathCond>, s: set<nat>, w: seq<set<nat>>)
    requires (n.If? || n.Ternary?) && ClaimSites(stack) !! Sites(n) && AllHold(stack, s)
    ensures var d := Decide(n.cond, Skipped(n), s, w);
            AllHold(stack, d.state) && |d.world| <= |w| && d.world == w[|w| - |d.world|..]
  {
    if n.If? { ChainSitesBelow(n.els); }
    DecideFrame(n.cond, Skipped(n), s, w);
    AllHoldFrame(stack, s, Decide(n.cond, Skipped(n), s, w).state, Sites(n));
  }

  lemma {:induction false} SeqIsSound(
    ns: seq<Node>, stack: seq<PathCond>, byLog: bool, good: iset<set<nat>>, s: set<nat>, w: seq<set<nat>>)
    requires DistinctSeq(ns) && ReliableSeq(ns, byLog, good) && Good(w, good)
    requires ClaimSites(stack) !! SitesSeq(ns) && AllHold(stack, s)
    ensures Sound(RecordsSeq(ns, stack, byLog), ExecSeq(ns, s, w).events)
    decreases |w|, ns, 0
  {
    if ns != [] {
      var r := Exec(ns[0], s, w);
      var negations := GuardClauseNegations(ns[0], byLog);
      WalkIsSound(ns[0], stack, byLog, good, s, w);
      ExecFrame(ns[0], s, w);
      RecordsBelow(ns[0], stack, byLog);
      RecordsSeqBelow(ns[1..], stack + negations, byLog);
      var rest := [];
      if r.outcome.Normal? && |ns| > 1 {
        AllHoldFrame(stack, s, r.state, Sites(ns[0]));
        NegationSites(ns[0], byLog);
        ClaimSitesJoin(stack, negations);
        SeqIsSound(ns[1..], stack + negations, byLog, good, r.state, r.world);
        ExecSeqFrame(ns[1..], r.state, r.world);
        rest := ExecSeq(ns[1..], r.state, r.world).events;
      }
      SoundJoin(Records(ns[0], stack, byLog), RecordsSeq(ns[1..], stack + negations, byLog),
                r.events, rest, Sites(ns[0]), SitesSeq(ns[1..]));
      assert |ns| == 1 ==> ns[1..] == [];
      assert ExecSeq(ns, s, w).events == r.events + rest;
    }
  }

  lemma {:induction false} AllAreSound(
    ns: seq<Node>, stack: seq<PathCond>, byLog: bool, good: iset<set<nat>>, s: set<nat>, w: seq<set<nat>>)
    requires DistinctSeq(ns) && ReliableAll(ns, byLog, good) && Good(w, good)
    requires ClaimSites(stack) !! SitesSeq(ns) && AllHold(stack, s)
    ensures Sound(RecordsAll(ns, stack, byLog), ExecSeq(ns, s, w).events)
    decreases |w|, ns, 0
  {
    if ns != [] {
      var r := Exec(ns[0], s, w);
      WalkIsSound(ns[0], stack, byLog, good, s, w);
      ExecFrame(ns[0], s, w);
      RecordsBelow(ns[0], stack, byLog);
      RecordsAllBelow(ns[1..], stack, byLog);
      var rest := [];
      if r.outcome.Normal? {
        AllHoldFrame(stack, s, r.state, Sites(ns[0]));
        AllAreSound(ns[1..], stack, byLog, good, r.state, r.world);
        ExecSeqFrame(ns[1..], r.state, r.world);
        rest := ExecSeq(ns[1..], r.state, r.world).events;
      }
      SoundJoin(Records(ns[0], stack, byLog), RecordsAll(ns[1..], stack, byLog),
                r.events, rest, Sites(ns[0]), SitesSeq(ns[1..]));
      assert ExecSeq(ns, s, w).events == r.events + rest;
    }
  }

  // ----- loops -----

  /** The records of a loop, part by part, against the events of some of its iterations. */
  ghost predicate LoopSound(n: Node, stack: seq<PathCond>, byLog: bool, es: seq<Event>)
    requires n.Loop?
  {
    var inner := Guarded(stack, n.cond, false, LoopGuard(n.kind));
    && Sound([Record(true, n.cond.site, stack)] + Records(n.cond.arg, inner, byLog), es)
    && Sound(Records(n.init, inner, byLog), es)
    && Sound(Records(n.step, inner, byLog), es)
    && Sound(Records(n.body, inner, byLog), es)
  }

  lemma {:induction false} LoopSoundRecords(n: Node, stack: seq<PathCond>, byLog: bool, es: seq<Event>)
    requires n.Loop? && LoopSound(n, stack, byLog, es)
    ensures Sound(Records(n, stack, byLog), es)
  {
    var inner := Guarded(stack, n.cond, false, LoopGuard(n.kind));
    var cs := [Record(true, n.cond.site, stack)] + Records(n.cond.arg, inner, byLog);
    forall i, j | 0 <= i < |Records(n, stack, byLog)| && 0 <= j < |es|
      ensures Records(n, stack, byLog)[i].site == es[j].site ==> AllHold(Records(n, stack, byLog)[i].conds, es[j].state)
    {
      var r := Records(n, stack, byLog)[i];
      if r == cs[0] {
      } else if r in Records(n.cond.arg, inner, byLog) {
        var k :| 0 <= k < |Records(n.cond.arg, inner, byLog)| && Records(n.cond.arg, inner, byLog)[k] == r;
        assert cs[k + 1] == r;
      } else {
        assert r in Records(n.init, inner, byLog) || r in Records(n.step, inner, byLog) ||
            r in Records(n.body, inner, byLog);
      }
    }
  }

  lemma {:induction false} LoopSoundThen(n: Node, stack: seq<PathCond>, byLog: bool, es: seq<Event>, es': seq<Event>)
    requires n.Loop? && LoopSound(n, stack, byLog, es) && LoopSound(n, stack, byLog, es')
    ensures LoopSound(n, stack, byLog, es + es')
  {
  }

  lemma {:induction false} SoundApart(rs: seq<Record>, es: seq<Event>, p: set<nat>, q: set<nat>)
    requires RecordsIn(rs, p) && EventsIn(es, q) && p !! q
    ensures Sound(rs, es)
  {
  }

  /** Events of one part of the loop: only that part's records speak of them. */
  lemma {:induction false} LoopPartSound(
    n: Node, m: Node, stack: seq<PathCond>, byLog: bool, s: set<nat>, w: seq<set<nat>>)
    requires n.Loop? && Distinct(n) && m in {n.init, n.step, n.body}
    requires Sound(Records(m, Guarded(stack, n.cond, false, LoopGuard(n.kind)), byLog), Exec(m, s, w).events)
    ensures LoopSound(n, stack, byLog, Exec(m, s, w).events)
  {
    var inner := Guarded(stack, n.cond, false, LoopGuard(n.kind));
    var es := Exec(m, s, w).events;
    ExecFrame(m, s, w);
    RecordsBelow(n.cond.arg, inner, byLog);
    RecordsBelow(n.init, inner, byLog);
    RecordsBelow(n.step, inner, byLog);
    RecordsBelow(n.body, inner, byLog);
    SoundApart([Record(true, n.cond.site, stack)] + Records(n.cond.arg, inner, byLog), es, CondSites(n.cond), Sites(m));
    if m != n.init { SoundApart(Records(n.init, inner, byLog), es, Sites(n.init), Sites(m)); }
    if m != n.step { SoundApart(Records(n.step, inner, byLog), es, Sites(n.step), Sites(m)); }
    if m != n.body { SoundApart(Records(n.body, inner, byLog), es, Sites(n.body), Sites(m)); }
  }

  lemma {:induction false} LoopIsSound(
    n: Node, stack: seq<PathCond>, byLog: bool, good: iset<set<nat>>, s: set<nat>, w: seq<set<nat>>)
    requires n.Loop? && Distinct(n) && Reliable(n, byLog, good) && Good(w, good)
    requires ClaimSites(stack) !! Sites(n) && AllHold(stack, s)
    ensures Sound(Records(n, stack, byLog), Exec(n, s, w).events)
    decreases |w|, n, 4
  {
    var r := Exec(n.init, s, w);
    BranchSound(n.init, n.cond, stack, false, LoopGuard(n.kind), byLog, good, s, w);
    LoopPartSound(n, n.init, stack, byLog, s, w);
    ExecFrame(n.init, s, w);
    AllHoldFrame(stack, s, r.state, Sites(n.init));
    if r.outcome.Normal? {
      if n.kind.DoLoop? {
        IterateIsSound(n, stack, byLog, good, r.state, r.world);
        LoopSoundThen(n, stack, byLog, r.events, Iterate(n, r.state, r.world).events);
      } else {
        TestIsSound(n, stack, byLog, good, r.state, r.world);
        LoopSoundThen(n, stack, byLog, r.events, Test(n, r.state, r.world).events);
      }
    }
    LoopSoundRecords(n, stack, byLog, Exec(n, s, w).events);
  }

  lemma {:induction false} TestIsSound(
    n: Node, stack: seq<PathCond>, byLog: bool, good: iset<set<nat>>, s: set<nat>, w: seq<set<nat>>)
    requires n.Loop? && Distinct(n) && Reliable(n, byLog, good) && Good(w, good)
    requires ClaimSites(stack) !! Sites(n) && AllHold(stack, s)
    ensures LoopSound(n, stack, byLog, Test(n, s, w).events)
    decreases |w|, n, 0
  {
    var inner := Guarded(stack, n.cond, false, LoopGuard(n.kind));
    var d := Decide(n.cond, {}, s, w);
    StackWith(stack, PathCond(Is(n.cond.site, n.cond.readable), false, LoopGuard(n.kind)), s);
    DecideSound(n.cond, {}, stack, inner, byLog, good, s, w);
    DecideEvents(n.cond, {}, s, w);
    RecordsBelow(n.init, inner, byLog);
    RecordsBelow(n.step, inner, byLog);
    RecordsBelow(n.body, inner, byLog);
    SoundApart(Records(n.init, inner, byLog), d.events, Sites(n.init), CondSites(n.cond));
    SoundApart(Records(n.step, inner, byLog), d.events, Sites(n.step), CondSites(n.cond));
    SoundApart(Records(n.body, inner, byLog), d.events, Sites(n.body), CondSites(n.cond));
    if d.outcome.Normal? && n.cond.site in d.state {
      DecideFrame(n.cond, {}, s, w);
      AllHoldFrame(stack, s, d.state, CondSites(n.cond) + {});
      IterateIsSound(n, stack, byLog, good, d.state, d.world);
      LoopSoundThen(n, stack, byLog, d.events, Iterate(n, d.state, d.world).events);
    }
  }

  lemma {:induction false} IterateIsSound(
    n: Node, stack: seq<PathCond>, byLog: bool, good: iset<set<nat>>, s: set<nat>, w: seq<set<nat>>)
    requires n.Loop? && Distinct(n) && Reliable(n, byLog, good) && Good(w, good)
    requires ClaimSites(stack) !! Sites(n) && AllHold(stack, s)
    ensures LoopSound(n, stack, byLog, Iterate(n, s, w).events)
    decreases |w|, n, 3
  {
    var b := Exec(n.body, s, w);
    BranchSound(n.body, n.cond, stack, false, LoopGuard(n.kind), byLog, good, s, w);
    LoopPartSound(n, n.body, stack, byLog, s, w);
    if b.outcome.Normal? || b.outcome == Left(Continue) {
      ExecFrame(n.body, s, w);
      AllHoldFrame(stack, s, b.state, Sites(n.body));
      StepIsSound(n, stack, byLog, good, b.state, b.world);
      LoopSoundThen(n, stack, byLog, b.events, StepThenTest(n, b.state, b.world).events);
    }
  }

  lemma {:induction false} StepIsSound(
    n: Node, stack: seq<PathCond>, byLog: bool, good: iset<set<nat>>, s: set<nat>, w: seq<set<nat>>)
    requires n.Loop? && Distinct(n) && Reliable(n, byLog, good) && Good(w, good)
    requires ClaimSites(stack) !! Sites(n) && AllHold(stack, s)
    ensures LoopSound(n, stack, byLog, StepThenTest(n, s, w).events)
    decreases |w|, n, 2
  {
    var st := Exec(n.step, s, w);
    BranchSound(n.step, n.cond, stack, false, LoopGuard(n.kind), byLog, good, s, w);
    LoopPartSound(n, n.step, stack, byLog, s, w);
    if st.outcome.Normal? {
      ExecFrame(n.step, s, w);
      AllHoldFrame(stack, s, st.state, Sites(n.step));
      TestIsSound(n, stack, byLog, good, st.state, st.world);
      LoopSoundThen(n, stack, byLog, st.events, Test(n, st.state, st.world).events);
    }
  }

  // ----- the result for a function body -----

  /** Every guard on a recorded write or control statement of a function holds whenever a run reaches it,
      provided what each statement claims for its later siblings holds after it. */
  lemma {:induction false} ReliableBodiesAreSound(
    body: Node, byLog: bool, good: iset<set<nat>>, s: set<nat>, w: seq<set<nat>>, r: Record, e: Event)
    requires Distinct(body) && Reliable(body, byLog, good) && Good(w, good)
    requires r in Records(body, [], byLog) && e in Exec(body, s, w).events && r.site == e.site
    ensures forall p | p in r.conds :: Holds(p, e.state)
  {
    assert ClaimSites([]) == {};
    WalkIsSound(body, [], byLog, good, s, w);
  }

  /** This is so when no later link of a chain that has guards inside is true together with an earlier link. */
  lemma {:induction false} CollectedGuardsAreSound(
    body: Node, byLog: bool, s: set<nat>, w: seq<set<nat>>, r: Record, e: Event)
    requires Distinct(body) && ExclusiveWorld(body, byLog, w)
    requires r in Records(body, [], byLog) && e in Exec(body, s, w).events && r.site == e.site
    ensures forall p | p in r.conds :: Holds(p, e.state)
  {
    var good := iset sample | Exclusive(body, byLog, sample);
    ExclusiveIsReliable(body, byLog, good);
    ReliableBodiesAreSound(body, byLog, good, s, w, r, e);
  }

  lemma {:induction false} ExclusiveIsReliable(n: Node, byLog: bool, good: iset<set<nat>>)
    requires Distinct(n) && forall sample | sample in good :: Exclusive(n, byLog, sample)
    ensures Reliable(n, byLog, good)
    decreases n, 0
  {
    match n
    case Block(b) => ExclusiveIsReliableSeq(b, byLog, good);
    case If(c, t, _, e) =>
      ExclusiveIsReliable(c.arg, byLog, good);
      ExclusiveIsReliable(t, byLog, good);
      if e.Some? { ExclusiveIsReliable(e.value, byLog, good); }
    case Ternary(c, t, e) =>
      ExclusiveIsReliable(c.arg, byLog, good);
      ExclusiveIsReliable(t, byLog, good);
      ExclusiveIsReliable(e, byLog, good);
    case Loop(_, i, c, st, b) =>
      ExclusiveIsReliable(i, byLog, good);
      ExclusiveIsReliable(c.arg, byLog, good);
      ExclusiveIsReliable(st, byLog, good);
      ExclusiveIsReliable(b, byLog, good);
    case DoOnce(b) => ExclusiveIsReliable(b, byLog, good);
    case Exit(_, _, a) => ExclusiveIsReliable(a, byLog, good);
    case Write(_, a) => ExclusiveIsReliable(a, byLog, good);
    case Other(ps) => ExclusiveIsReliableSeq(ps, byLog, good);
  }

  lemma {:induction false} ExclusiveIsReliableSeq(ns: seq<Node>, byLog: bool, good: iset<set<nat>>)
    requires DistinctSeq(ns) && forall sample | sample in good :: ExclusiveSeq(ns, byLog, sample)
    ensures ReliableSeq(ns, byLog, good) && ReliableAll(ns, byLog, good)
    decreases ns, 0
  {
    if ns != [] {
      ExclusiveIsReliable(ns[0], byLog, good);
      ExclusiveIsReliableSeq(ns[1..], byLog, good);
      forall s, w | Good(w, good) && Exec(ns[0], s, w).outcome.Normal?
        ensures AllHold(GuardClauseNegations(ns[0], byLog), Exec(ns[0], s, w).state)
      {
        NegationsHoldAfter(ns[0], byLog, s, w);
      }
    }
  }

  /** Only first links of chains have guards inside. */
  ghost predicate GuardsInFirstLinks(n: Node, byLog: bool)
    decreases n, 0
  {
    match n
    case Block(b) => GuardsInFirstLinksSeq(b, byLog)
    case If(c, t, _, e) =>
      && (e.Some? ==> ImpliedByNestedGuards(e.value, byLog) == [] && GuardsInFirstLinks(e.value, byLog))
      && GuardsInFirstLinks(c.arg, byLog) && GuardsInFirstLinks(t, byLog)
    case Ternary(c, t, e) =>
      GuardsInFirstLinks(c.arg, byLog) && GuardsInFirstLinks(t, byLog) && GuardsInFirstLinks(e, byLog)
    case Loop(_, i, c, st, b) =>
      && GuardsInFirstLinks(i, byLog) && GuardsInFirstLinks(c.arg, byLog)
      && GuardsInFirstLinks(st, byLog) && GuardsInFirstLinks(b, byLog)
    case DoOnce(b) => GuardsInFirstLinks(b, byLog)
    case Exit(_, _, a) => GuardsInFirstLinks(a, byLog)
    case Write(_, a) => GuardsInFirstLinks(a, byLog)
    case Other(ps) => GuardsInFirstLinksSeq(ps, byLog)
  }

  ghost predicate GuardsInFirstLinksSeq(ns: seq<Node>, byLog: bool)
    decreases ns, 0
  {
    ns == [] || (GuardsInFirstLinks(ns[0], byLog) && GuardsInFirstLinksSeq(ns[1..], byLog))
  }

  /** The negations for later siblings always have readable text. */
  lemma {:induction false} NegationsReadable(n: Node, byLog: bool)
    ensures forall p | p in GuardClauseNegations(n, byLog) :: !p.IsOpaque()
    decreases n, 2
  {
    if n.If? && !Leaves(n.thn) { NestedReadable(n, byLog); }
  }

  lemma {:induction false} NestedReadable(n: Node, byLog: bool)
    ensures forall p | p in ImpliedByNestedGuards(n, byLog) :: p.text.Unless?
    decreases n, 1
  {
    if n.If? {
      UnlessEachShape(n.cond.site, ExitsInside(n.thn, byLog));
      if n.els.Some? { NestedReadable(n.els.value, byLog); }
    }
  }

  lemma {:induction false} UnlessEachShape(outer: nat, inner: seq<PathCond>)
    ensures forall p | p in UnlessEach(outer, inner) :: p.text.Unless?
    decreases inner
  {
    if inner != [] { UnlessEachShape(outer, inner[1..]); }
  }

  lemma {:induction false} InsideReadable(n: Node, byLog: bool)
    ensures forall p | p in ExitsInside(n, byLog) :: !p.IsOpaque()
  {
    if n.Block? { ImpliedReadable(n.stmts, byLog); } else { NegationsReadable(n, byLog); }
  }

  lemma {:induction false} ImpliedReadable(ns: seq<Node>, byLog: bool)
    ensures forall p | p in ImpliedBySeq(ns, byLog) :: !p.IsOpaque()
    decreases ns
  {
    if ns != [] {
      NegationsReadable(ns[0], byLog);
      ImpliedReadable(ns[1..], byLog);
    }
  }

  lemma {:induction false} NoClaimsNoClaimingLink(e: Option<Node>, byLog: bool, sample: set<nat>)
    requires e.Some? ==> ImpliedByNestedGuards(e.value, byLog) == []
    ensures NoClaimingLink(e, byLog, sample)
    decreases e
  {
    if e.Some? && e.value.If? {
      InsideReadable(e.value.thn, byLog);
      NoClaimsNoClaimingLink(e.value.els, byLog, sample);
    }
  }

  /** Such bodies need no hypothesis on what is true together. */
  lemma {:induction false} FirstLinksNeedNoHypothesis(n: Node, byLog: bool, sample: set<nat>)
    requires GuardsInFirstLinks(n, byLog)
    ensures Exclusive(n, byLog, sample)
    decreases n, 0
  {
    match n
    case Block(b) => FirstLinksNeedNoHypothesisSeq(b, byLog, sample);
    case If(c, t, _, e) =>
      NoClaimsNoClaimingLink(e, byLog, sample);
      FirstLinksNeedNoHypothesis(c.arg, byLog, sample);
      FirstLinksNeedNoHypothesis(t, byLog, sample);
      if e.Some? { FirstLinksNeedNoHypothesis(e.value, byLog, sample); }
    case Ternary(c, t, e) =>
      FirstLinksNeedNoHypothesis(c.arg, byLog, sample);
      FirstLinksNeedNoHypothesis(t, byLog, sample);
      FirstLinksNeedNoHypothesis(e, byLog, sample);
    case Loop(_, i, c, st, b) =>
      FirstLinksNeedNoHypothesis(i, byLog, sample);
      FirstLinksNeedNoHypothesis(c.arg, byLog, sample);
      FirstLinksNeedNoHypothesis(st, byLog, sample);
      FirstLinksNeedNoHypothesis(b, byLog, sample);
    case DoOnce(b) => FirstLinksNeedNoHypothesis(b, byLog, sample);
    case Exit(_, _, a) => FirstLinksNeedNoHypothesis(a, byLog, sample);
    case Write(_, a) => FirstLinksNeedNoHypothesis(a, byLog, sample);
    case Other(ps) => FirstLinksNeedNoHypothesisSeq(ps, byLog, sample);
  }

  lemma {:induction false} FirstLinksNeedNoHypothesisSeq(ns: seq<Node>, byLog: bool, sample: set<nat>)
    requires GuardsInFirstLinksSeq(ns, byLog)
    ensures ExclusiveSeq(ns, byLog, sample)
    decreases ns, 0
  {
    if ns != [] {
      FirstLinksNeedNoHypothesis(ns[0], byLog, sample);
      FirstLinksNeedNoHypothesisSeq(ns[1..], byLog, sample);
    }
  }
}
