/** Exactly when what a statement claims for its later siblings holds after all its runs. */
module GuardClaims {
  import opened Wrappers
  import opened GuardSyntax
  import opened GuardSemantics
  import opened GuardSoundness
  import opened GuardExactness
  import opened GuardEndings
  import opened Sequences

  /** What the statement implies for its later siblings holds after each of its runs. */
  ghost predicate Justified(n: Node, byLog: bool)
  {
    forall s: set<nat>, w: seq<set<nat>> ::
      Exec(n, s, w).outcome.Normal? ==> AllHold(GuardClauseNegations(n, byLog), Exec(n, s, w).state)
  }

  /** No branch that can fall through stands before a link with guards inside, at any depth that is claimed. */
  predicate Clean(n: Node, byLog: bool)
    decreases n, 3
  {
    n.If? && !Leaves(n.thn) ==> CleanLinks(n, byLog)
  }

  predicate CleanLinks(n: Node, byLog: bool)
    decreases n, 2
  {
    n.If? && CanFall(n.cond.arg) ==>
      && (n.cond.readable && CanFall(n.thn) ==> CleanInside(n.thn, byLog))
      && (n.els.Some? ==>
            && CleanLinks(n.els.value, byLog)
            && (CanFall(n.thn) ==> ImpliedByNestedGuards(n.els.value, byLog) == []))
  }

  predicate CleanInside(n: Node, byLog: bool)
    decreases n, 4
  {
    if n.Block? then CleanSeq(n.stmts, byLog) else Clean(n, byLog)
  }

  predicate CleanSeq(ns: seq<Node>, byLog: bool)
    decreases ns, 0
  {
    ns == [] || (Clean(ns[0], byLog) && CleanSeq(ns[1..], byLog))
  }

  // ----- what is clean holds -----

  lemma {:induction false} CleanHolds(n: Node, byLog: bool, s: set<nat>, w: seq<set<nat>>)
    requires Distinct(n) && Clean(n, byLog) && Exec(n, s, w).outcome.Normal?
    ensures AllHold(GuardClauseNegations(n, byLog), Exec(n, s, w).state)
    decreases n, 2
  {
    if n.If? {
      if !Leaves(n.thn) {
        CleanLinksHold(n, byLog, s, w);
      } else {
        FirstFalse(n, s, w);
        if AllLeave(Links(n)) { AllFalse(n, s, w); }
      }
    }
  }

  lemma {:induction false} CleanLinksHold(n: Node, byLog: bool, s: set<nat>, w: seq<set<nat>>)
    requires Distinct(n) && CleanLinks(n, byLog) && Exec(n, s, w).outcome.Normal?
    ensures AllHold(ImpliedByNestedGuards(n, byLog), Exec(n, s, w).state)
    decreases n, 1
  {
    if n.If? {
      var d := Decide(n.cond, ChainSites(n.els), s, w);
      DecisionEndings(n.cond, ChainSites(n.els), s, w);
      var end := Exec(n, s, w).state;
      if n.cond.site in d.state {
        EndingsAreAll(n.thn, d.state, d.world);
        ExecFrame(n.thn, d.state, d.world);
        if n.cond.readable { CleanInsideHolds(n.thn, byLog, d.state, d.world); }
      } else if n.els.Some? {
        ExecFrame(n.els.value, d.state, d.world);
        CleanLinksHold(n.els.value, byLog, d.state, d.world);
      }
      if n.cond.readable { UnlessEachHolds(n.cond.site, ExitsInside(n.thn, byLog), end); }
    }
  }

  lemma {:induction false} CleanInsideHolds(n: Node, byLog: bool, s: set<nat>, w: seq<set<nat>>)
    requires Distinct(n) && CleanInside(n, byLog) && Exec(n, s, w).outcome.Normal?
    ensures AllHold(ExitsInside(n, byLog), Exec(n, s, w).state)
    decreases n, 3
  {
    if n.Block? { CleanSeqHolds(n.stmts, byLog, s, w); } else { CleanHolds(n, byLog, s, w); }
  }

  lemma {:induction false} CleanSeqHolds(ns: seq<Node>, byLog: bool, s: set<nat>, w: seq<set<nat>>)
    requires DistinctSeq(ns) && CleanSeq(ns, byLog) && ExecSeq(ns, s, w).outcome.Normal?
    ensures AllHold(ImpliedBySeq(ns, byLog), ExecSeq(ns, s, w).state)
    decreases ns, 0
  {
    if ns != [] {
      var r := Exec(ns[0], s, w);
      CleanHolds(ns[0], byLog, s, w);
      CleanSeqHolds(ns[1..], byLog, r.state, r.world);
      ExecSeqFrame(ns[1..], r.state, r.world);
      NegationSites(ns[0], byLog);
      AllHoldFrame(GuardClauseNegations(ns[0], byLog), r.state, ExecSeq(ns[1..], r.state, r.world).state,
          SitesSeq(ns[1..]));
    }
  }

  // ----- what is not clean fails -----

  /** With every condition true, no negation for later siblings holds. */
  lemma {:induction false} AllTrueRefutes(n: Node, byLog: bool, s: set<nat>)
    requires Sites(n) <= s
    ensures forall p | p in GuardClauseNegations(n, byLog) :: !Holds(p, s)
    decreases n, 2
  {
    if n.If? {
      LinkSites(n);
      if !Leaves(n.thn) { AllTrueRefutesNested(n, byLog, s); }
    }
  }

  lemma {:induction false} AllTrueRefutesNested(n: Node, byLog: bool, s: set<nat>)
    requires Sites(n) <= s
    ensures forall p | p in ImpliedByNestedGuards(n, byLog) :: !Holds(p, s)
    decreases n, 1
  {
    if n.If? {
      if n.thn.Block? { AllTrueRefutesSeq(n.thn.stmts, byLog, s); } else { AllTrueRefutes(n.thn, byLog, s); }
      UnlessEachRefuted(n.cond.site, ExitsInside(n.thn, byLog), s);
      if n.els.Some? { AllTrueRefutesNested(n.els.value, byLog, s); }
    }
  }

  lemma {:induction false} AllTrueRefutesSeq(ns: seq<Node>, byLog: bool, s: set<nat>)
    requires SitesSeq(ns) <= s
    ensures forall p | p in ImpliedBySeq(ns, byLog) :: !Holds(p, s)
    decreases ns, 0
  {
    if ns != [] {
      AllTrueRefutes(ns[0], byLog, s);
      AllTrueRefutesSeq(ns[1..], byLog, s);
    }
  }

  lemma {:induction false} UnlessEachRefuted(outer: nat, inner: seq<PathCond>, s: set<nat>)
    requires outer in s && forall p | p in inner :: !Holds(p, s)
    ensures forall p | p in UnlessEach(outer, inner) :: !Holds(p, s)
    decreases inner
  {
    if inner != [] {
      assert inner[0] in inner;
      assert Truth(Unless(outer, inner[0]), s) == (outer !in s || Holds(inner[0], s));
      UnlessEachRefuted(outer, inner[1..], s);
    }
  }

  /** Samples for a run after which some claim is false. */
  ghost function Against(n: Node, byLog: bool): seq<set<nat>>
    requires !Clean(n, byLog)
    decreases n, 3
  {
    AgainstLinks(n, byLog)
  }

  ghost function AgainstLinks(n: Node, byLog: bool): seq<set<nat>>
    requires !CleanLinks(n, byLog)
    decreases n, 2
  {
    WorldFor(n.cond.arg, Normal)
    + (if n.cond.readable && CanFall(n.thn) && !CleanInside(n.thn, byLog) then
         [{n.cond.site}] + AgainstInside(n.thn, byLog)
       else if !CleanLinks(n.els.value, byLog) then [{}] + AgainstLinks(n.els.value, byLog)
       else [Sites(n)] + WorldFor(n.thn, Normal))
  }

  ghost function AgainstInside(n: Node, byLog: bool): seq<set<nat>>
    requires CanFall(n) && !CleanInside(n, byLog)
    decreases n, 4
  {
    if n.Block? then AgainstSeq(n.stmts, byLog) else Against(n, byLog)
  }

  ghost function AgainstSeq(ns: seq<Node>, byLog: bool): seq<set<nat>>
    requires CanEndSeq(ns, Normal) && !CleanSeq(ns, byLog)
    decreases ns, 0
  {
    assert !CanLeave(ns[0], Normal);
    if !Clean(ns[0], byLog) then Against(ns[0], byLog) + WorldForSeq(ns[1..], Normal)
    else WorldFor(ns[0], Normal) + AgainstSeq(ns[1..], byLog)
  }

  /** The run falls through, leaves `v`, and refutes one of the claims. */
  ghost predicate Refutes(r: Run, v: seq<set<nat>>, claims: seq<PathCond>)
  {
    Takes(r, v, Normal) && !AllHold(claims, r.state)
  }

  lemma {:induction false} AgainstRefutes(n: Node, byLog: bool, s: set<nat>, v: seq<set<nat>>)
    requires Distinct(n) && !Clean(n, byLog) && Sites(n) <= s
    ensures Refutes(Exec(n, s, Against(n, byLog) + v), v, GuardClauseNegations(n, byLog))
    decreases n, 3
  {
    AgainstLinksRefutes(n, byLog, s, v);
  }

  lemma {:induction false} AgainstLinksRefutes(n: Node, byLog: bool, s: set<nat>, v: seq<set<nat>>)
    requires Distinct(n) && !CleanLinks(n, byLog) && Sites(n) <= s
    ensures Refutes(Exec(n, s, AgainstLinks(n, byLog) + v), v, ImpliedByNestedGuards(n, byLog))
    decreases n, 2
  {
    if n.cond.readable && CanFall(n.thn) && !CleanInside(n.thn, byLog) {
      FirstLinkRefuted(n, byLog, s, v);
    } else if !CleanLinks(n.els.value, byLog) {
      ElseRefuted(n, byLog, s, v);
    } else {
      SkippedLinkRefuted(n, byLog, s, v);
    }
  }

  /** What the claims of a chain are made of. */
  lemma {:induction false} ChainClaims(n: Node, byLog: bool, s: set<nat>)
    requires n.If?
    ensures n.cond.readable && n.cond.site in s && !AllHold(ExitsInside(n.thn, byLog), s) ==>
              !AllHold(ImpliedByNestedGuards(n, byLog), s)
    ensures n.els.Some? && !AllHold(ImpliedByNestedGuards(n.els.value, byLog), s) ==>
              !AllHold(ImpliedByNestedGuards(n, byLog), s)
  {
    var own := if n.cond.readable then UnlessEach(n.cond.site, ExitsInside(n.thn, byLog)) else [];
    var later := if n.els.Some? then ImpliedByNestedGuards(n.els.value, byLog) else [];
    AllHoldJoin(own, later, s);
    InsideReadable(n.thn, byLog);
    UnlessEachExact(n.cond.site, ExitsInside(n.thn, byLog), s);
  }

  /** The decision of a chain on a given sample. */
  lemma {:induction false} ChainDecision(n: Node, sample: set<nat>, s: set<nat>, tail: seq<set<nat>>, v: seq<set<nat>>)
    returns (d: Run)
    requires n.If? && Distinct(n) && CanFall(n.cond.arg) && Sites(n) <= s
    ensures d == Decide(n.cond, ChainSites(n.els), s, WorldFor(n.cond.arg, Normal) + ([sample] + tail) + v)
    ensures Takes(d, tail + v, Normal) && (n.cond.site in d.state <==> n.cond.site in sample)
    ensures Sites(n.thn) <= d.state
    ensures n.els.Some? && (n.cond.site in sample ==> Sites(n) <= sample) ==> Sites(n.els.value) <= d.state
  {
    var arg := WorldFor(n.cond.arg, Normal);
    Regroup(arg, [sample], tail);
    Regroup4(arg, [sample], tail, v);
    var w := arg + ([sample] + (tail + v));
    DecisionIsReal(n.cond, ChainSites(n.els), sample, s, tail + v);
    d := Decide(n.cond, ChainSites(n.els), s, w);
    ExecFrame(n.cond.arg, s, w);
    ChainSitesBelow(n.els);
    EndingsAreReal(n.cond.arg, Normal, s, [sample] + (tail + v));
    var sites := if n.cond.site in sample then {n.cond.site} + ChainSites(n.els) else {n.cond.site};
    assert d.state == Latch(Exec(n.cond.arg, s, w).state, sites, sample);
  }

  lemma {:induction false} FirstLinkRefuted(n: Node, byLog: bool, s: set<nat>, v: seq<set<nat>>)
    requires n.If? && Distinct(n) && CanFall(n.cond.arg) && Sites(n) <= s
    requires n.cond.readable && CanFall(n.thn) && !CleanInside(n.thn, byLog)
    ensures Refutes(Exec(n, s, AgainstLinks(n, byLog) + v), v, ImpliedByNestedGuards(n, byLog))
    decreases n, 1
  {
    var tail := AgainstInside(n.thn, byLog);
    var d := ChainDecision(n, {n.cond.site}, s, tail, v);
    AgainstInsideRefutes(n.thn, byLog, d.state, v);
    ExecFrame(n.thn, d.state, tail + v);
    ChainClaims(n, byLog, Exec(n.thn, d.state, tail + v).state);
  }

  lemma {:induction false} ElseRefuted(n: Node, byLog: bool, s: set<nat>, v: seq<set<nat>>)
    requires n.If? && Distinct(n) && CanFall(n.cond.arg) && Sites(n) <= s && n.els.Some?
    requires !(n.cond.readable && CanFall(n.thn) && !CleanInside(n.thn, byLog)) && !CleanLinks(n.els.value, byLog)
    ensures Refutes(Exec(n, s, AgainstLinks(n, byLog) + v), v, ImpliedByNestedGuards(n, byLog))
    decreases n, 1
  {
    var tail := AgainstLinks(n.els.value, byLog);
    var d := ChainDecision(n, {}, s, tail, v);
    AgainstLinksRefutes(n.els.value, byLog, d.state, v);
    ChainClaims(n, byLog, Exec(n.els.value, d.state, tail + v).state);
  }

  /** A run that takes the first link while every later condition is true refutes every later claim. */
  lemma {:induction false} SkippedLinkRefuted(n: Node, byLog: bool, s: set<nat>, v: seq<set<nat>>)
    requires n.If? && Distinct(n) && CanFall(n.cond.arg) && Sites(n) <= s && n.els.Some?
    requires CanFall(n.thn) && ImpliedByNestedGuards(n.els.value, byLog) != []
    ensures var r := Exec(n, s, WorldFor(n.cond.arg, Normal) + ([Sites(n)] + WorldFor(n.thn, Normal)) + v);
            && Refutes(r, v, ImpliedByNestedGuards(n, byLog))
            && !AllHold(ImpliedByNestedGuards(n.els.value, byLog), r.state)
  {
    var tail := WorldFor(n.thn, Normal);
    assert n.cond.site in CondSites(n.cond);
    var d := ChainDecision(n, Sites(n), s, tail, v);
    EndingsAreReal(n.thn, Normal, d.state, v);
    ExecFrame(n.thn, d.state, tail + v);
    var end := Exec(n.thn, d.state, tail + v).state;
    AllTrueRefutesNested(n.els.value, byLog, end);
    var claim := ImpliedByNestedGuards(n.els.value, byLog)[0];
    assert claim in ImpliedByNestedGuards(n.els.value, byLog) && !Holds(claim, end);
    ChainClaims(n, byLog, end);
  }

  lemma {:induction false} AgainstInsideRefutes(n: Node, byLog: bool, s: set<nat>, v: seq<set<nat>>)
    requires Distinct(n) && CanFall(n) && !CleanInside(n, byLog) && Sites(n) <= s
    ensures Refutes(Exec(n, s, AgainstInside(n, byLog) + v), v, ExitsInside(n, byLog))
    decreases n, 4
  {
    if n.Block? { AgainstSeqRefutes(n.stmts, byLog, s, v); } else { AgainstRefutes(n, byLog, s, v); }
  }

  lemma {:induction false} AgainstSeqRefutes(ns: seq<Node>, byLog: bool, s: set<nat>, v: seq<set<nat>>)
    requires DistinctSeq(ns) && CanEndSeq(ns, Normal) && !CleanSeq(ns, byLog) && SitesSeq(ns) <= s
    ensures Refutes(ExecSeq(ns, s, AgainstSeq(ns, byLog) + v), v, ImpliedBySeq(ns, byLog))
    decreases ns, 0
  {
    var claims, later := GuardClauseNegations(ns[0], byLog), ImpliedBySeq(ns[1..], byLog);
    if !Clean(ns[0], byLog) {
      var first, tail := Against(ns[0], byLog), WorldForSeq(ns[1..], Normal);
      Regroup(first, tail, v);
      AgainstRefutes(ns[0], byLog, s, tail + v);
      var r := Exec(ns[0], s, first + (tail + v));
      EndingsAreRealSeq(ns[1..], Normal, r.state, v);
      ExecSeqFrame(ns[1..], r.state, tail + v);
      NegationSites(ns[0], byLog);
      var end := ExecSeq(ns[1..], r.state, tail + v).state;
      AllHoldFrame(claims, r.state, end, SitesSeq(ns[1..]));
      AllHoldJoin(claims, later, end);
    } else {
      var first, tail := WorldFor(ns[0], Normal), AgainstSeq(ns[1..], byLog);
      Regroup(first, tail, v);
      EndingsAreReal(ns[0], Normal, s, tail + v);
      ExecFrame(ns[0], s, first + (tail + v));
      var r := Exec(ns[0], s, first + (tail + v));
      AgainstSeqRefutes(ns[1..], byLog, r.state, v);
      AllHoldJoin(claims, later, ExecSeq(ns[1..], r.state, tail + v).state);
    }
  }

  /** What a statement claims for its later siblings holds after every run if and only if the statement is clean. */
  lemma {:induction false} JustifiedIffClean(n: Node, byLog: bool)
    requires Distinct(n)
    ensures Justified(n, byLog) <==> Clean(n, byLog)
  {
    if Clean(n, byLog) {
      forall s, w | Exec(n, s, w).outcome.Normal?
        ensures AllHold(GuardClauseNegations(n, byLog), Exec(n, s, w).state)
      {
        CleanHolds(n, byLog, s, w);
      }
    } else {
      AgainstRefutes(n, byLog, Sites(n), []);
      var r := Exec(n, Sites(n), Against(n, byLog) + []);
      assert r.outcome.Normal? && !AllHold(GuardClauseNegations(n, byLog), r.state);
    }
  }

  // ----- whole bodies -----

  /** Every statement with a later sibling is clean, at every level. */
  ghost predicate CleanBelow(n: Node, byLog: bool)
    decreases n, 0
  {
    match n
    case Block(b) => CleanBelowSeq(b, byLog)
    case If(c, t, _, e) =>
      CleanBelow(c.arg, byLog) && CleanBelow(t, byLog) && (e.Some? ==> CleanBelow(e.value, byLog))
    case Ternary(c, t, e) => CleanBelow(c.arg, byLog) && CleanBelow(t, byLog) && CleanBelow(e, byLog)
    case Loop(_, i, c, st, b) =>
      CleanBelow(i, byLog) && CleanBelow(c.arg, byLog) && CleanBelow(st, byLog) && CleanBelow(b, byLog)
    case DoOnce(b) => CleanBelow(b, byLog)
    case Exit(_, _, a) => CleanBelow(a, byLog)
    case Write(_, a) => CleanBelow(a, byLog)
    case Other(ps) => CleanBelowAll(ps, byLog)
  }

  ghost predicate CleanBelowSeq(ns: seq<Node>, byLog: bool)
    decreases ns, 0
  {
    ns == [] || (CleanBelow(ns[0], byLog) && (|ns| > 1 ==> Clean(ns[0], byLog)) && CleanBelowSeq(ns[1..], byLog))
  }

  ghost predicate CleanBelowAll(ns: seq<Node>, byLog: bool)
    decreases ns, 0
  {
    ns == [] || (CleanBelow(ns[0], byLog) && CleanBelowAll(ns[1..], byLog))
  }

  predicate Possible(sample: set<nat>) { true }

  /** Nothing is supposed about what is true together. */
  ghost function AnySample(): iset<set<nat>> { iset sample: set<nat> | Possible(sample) }

  /** Over all worlds, the claims soundness rests on hold if and only if the body is clean below. */
  lemma {:induction false} ReliableIffClean(n: Node, byLog: bool, good: iset<set<nat>>)
    requires Distinct(n) && good == AnySample()
    ensures Reliable(n, byLog, good) <==> CleanBelow(n, byLog)
    decreases n, 0
  {
    match n
    case Block(b) => ReliableIffCleanSeq(b, byLog, good);
    case If(c, t, _, e) =>
      ReliableIffClean(c.arg, byLog, good);
      ReliableIffClean(t, byLog, good);
      if e.Some? { ReliableIffClean(e.value, byLog, good); }
    case Ternary(c, t, e) =>
      ReliableIffClean(c.arg, byLog, good);
      ReliableIffClean(t, byLog, good);
      ReliableIffClean(e, byLog, good);
    case Loop(_, i, c, st, b) =>
      ReliableIffClean(i, byLog, good);
      ReliableIffClean(c.arg, byLog, good);
      ReliableIffClean(st, byLog, good);
      ReliableIffClean(b, byLog, good);
    case DoOnce(b) => ReliableIffClean(b, byLog, good);
    case Exit(_, _, a) => ReliableIffClean(a, byLog, good);
    case Write(_, a) => ReliableIffClean(a, byLog, good);
    case Other(ps) => ReliableIffCleanAll(ps, byLog, good);
  }

  lemma {:induction false} EverythingIsGood(n: Node, byLog: bool, good: iset<set<nat>>)
    requires good == AnySample()
    ensures ClaimsHold(n, byLog, good) <==> Justified(n, byLog)
  {
    if ClaimsHold(n, byLog, good) {
      forall s: set<nat>, w: seq<set<nat>> | Exec(n, s, w).outcome.Normal?
        ensures AllHold(GuardClauseNegations(n, byLog), Exec(n, s, w).state)
      {
        assert forall k | 0 <= k < |w| :: Possible(w[k]);
        assert Good(w, good);
      }
    }
  }

  lemma {:induction false} ReliableIffCleanSeq(ns: seq<Node>, byLog: bool, good: iset<set<nat>>)
    requires DistinctSeq(ns) && good == AnySample()
    ensures ReliableSeq(ns, byLog, good) <==> CleanBelowSeq(ns, byLog)
    decreases ns, 0
  {
    if ns != [] {
      ReliableIffClean(ns[0], byLog, good);
      ReliableIffCleanSeq(ns[1..], byLog, good);
      JustifiedIffClean(ns[0], byLog);
      EverythingIsGood(ns[0], byLog, good);
    }
  }

  lemma {:induction false} ReliableIffCleanAll(ns: seq<Node>, byLog: bool, good: iset<set<nat>>)
    requires DistinctSeq(ns) && good == AnySample()
    ensures ReliableAll(ns, byLog, good) <==> CleanBelowAll(ns, byLog)
    decreases ns, 0
  {
    if ns != [] {
      ReliableIffClean(ns[0], byLog, good);
      ReliableIffCleanAll(ns[1..], byLog, good);
    }
  }

  /** In a clean body every recorded guard holds whenever its write or condition is reached, in every world. */
  lemma {:induction false} CleanBodiesAreSound(
    body: Node, byLog: bool, s: set<nat>, w: seq<set<nat>>, r: Record, e: Event)
    requires Distinct(body) && CleanBelow(body, byLog)
    requires r in Records(body, [], byLog) && e in Exec(body, s, w).events && r.site == e.site
    ensures forall p | p in r.conds :: Holds(p, e.state)
  {
    var good := AnySample();
    ReliableIffClean(body, byLog, good);
    ReliableBodiesAreSound(body, byLog, good, s, w, r, e);
  }

  // ----- the claims of later links -----

  ghost predicate TakesFirst(n: Node, s: set<nat>, w: seq<set<nat>>)
    requires n.If?
  {
    var d := Decide(n.cond, ChainSites(n.els), s, w);
    d.outcome.Normal? && n.cond.site in d.state
  }

  /** A run through the first branch refutes a claim of a later link if and only if there is such a claim and the
      first branch can fall through. */
  lemma {:induction false} LaterClaimsRefutedIff(n: Node, byLog: bool)
    requires n.If? && n.els.Some? && Distinct(n)
    ensures (exists s, w ::
               && TakesFirst(n, s, w) && Exec(n, s, w).outcome.Normal?
               && !AllHold(ImpliedByNestedGuards(n.els.value, byLog), Exec(n, s, w).state))
            <==> CanFall(n.cond.arg) && CanFall(n.thn) && ImpliedByNestedGuards(n.els.value, byLog) != []
  {
    if CanFall(n.cond.arg) && CanFall(n.thn) && ImpliedByNestedGuards(n.els.value, byLog) != [] {
      var tail := WorldFor(n.thn, Normal);
      var w := WorldFor(n.cond.arg, Normal) + ([Sites(n)] + tail) + [];
      SkippedLinkRefuted(n, byLog, Sites(n), []);
      assert n.cond.site in CondSites(n.cond);
      var d := ChainDecision(n, Sites(n), Sites(n), tail, []);
      assert TakesFirst(n, Sites(n), w);
    }
    if s, w :| TakesFirst(n, s, w) && Exec(n, s, w).outcome.Normal?
               && !AllHold(ImpliedByNestedGuards(n.els.value, byLog), Exec(n, s, w).state) {
      var d := Decide(n.cond, ChainSites(n.els), s, w);
      DecisionEndings(n.cond, ChainSites(n.els), s, w);
      EndingsAreAll(n.thn, d.state, d.world);
    }
  }
}
