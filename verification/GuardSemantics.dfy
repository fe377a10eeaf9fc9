/** Runs of a statement tree, and what a recorded guard claims at a moment of a run.

    The world is the sequence of samples a run will see: the k-th condition the run
    decides sees sample k, the set of sites whose condition is true at that moment.
    A run whose world is used up is cut short there, so the runs over all worlds are
    the finite beginnings of all runs of the body, the unending ones included. */
module GuardSemantics {
  import opened Wrappers
  import opened GuardSyntax

  datatype Outcome = Normal | Left(exit: ExitKind) | Cut

  /** The write or condition at `site` is reached while `state` holds. */
  datatype Event = Event(site: nat, state: set<nat>)

  datatype Run = Run(outcome: Outcome, state: set<nat>, world: seq<set<nat>>, events: seq<Event>)

  /** The conditions an `else` branch still has to decide in the same chain. */
  function ChainSites(e: Option<Node>): set<nat>
  {
    if e.Some? && e.value.If? then {e.value.cond.site} + ChainSites(e.value.els) else {}
  }

  function Latch(s: set<nat>, sites: set<nat>, sample: set<nat>): set<nat>
  {
    (s - sites) + (sites * sample)
  }

  function Then(a: Run, b: Run): Run
  {
    Run(b.outcome, b.state, b.world, a.events + b.events)
  }

  /** Decides a condition: its site takes the value it has now, and if it is true so
      do the sites of the links of the same chain that are thereby skipped. */
  function Decide(c: Cond, skipped: set<nat>, s: set<nat>, w: seq<set<nat>>): (r: Run)
    ensures |r.world| <= |w|
    ensures r.outcome.Normal? ==> |r.world| < |w|
    decreases |w|, c, 0
  {
    var a := Exec(c.arg, s, w);
    if !a.outcome.Normal? then a
    else
      var at := a.events + [Event(c.site, a.state)];
      if a.world == [] then Run(Cut, a.state, [], at)
      else
        var sample := a.world[0];
        var sites := if c.site in sample then {c.site} + skipped else {c.site};
        Run(Normal, Latch(a.state, sites, sample), a.world[1..], at)
  }

  function Exec(n: Node, s: set<nat>, w: seq<set<nat>>): (r: Run)
    ensures |r.world| <= |w|
    decreases |w|, n, 3
  {
    match n
    case Block(b) => ExecSeq(b, s, w)
    case If(c, t, _, e) =>
      var d := Decide(c, ChainSites(e), s, w);
      if !d.outcome.Normal? then d
      else if c.site in d.state then Then(d, Exec(t, d.state, d.world))
      else if e.Some? then Then(d, Exec(e.value, d.state, d.world))
      else d
    case Ternary(c, t, e) =>
      var d := Decide(c, {}, s, w);
      if !d.outcome.Normal? then d
      else Then(d, Exec(if c.site in d.state then t else e, d.state, d.world))
    case Loop(k, i, c, st, b) =>
      var r := Exec(i, s, w);
      if !r.outcome.Normal? then r
      else if k.DoLoop? then Then(r, Iterate(n, r.state, r.world))
      else Then(r, Test(n, r.state, r.world))
    case DoOnce(b) =>
      var r := Exec(b, s, w);
      if r.outcome.Left? && r.outcome.exit in {Break, Continue} then r.(outcome := Normal) else r
    case Exit(k, _, a) =>
      var r := Exec(a, s, w);
      if !r.outcome.Normal? then r else r.(outcome := Left(k))
    case Write(l, a) =>
      var r := Exec(a, s, w);
      if !r.outcome.Normal? then r else r.(events := r.events + [Event(l, r.state)])
    case Other(ps) => ExecSeq(ps, s, w)
  }

  function ExecSeq(ns: seq<Node>, s: set<nat>, w: seq<set<nat>>): (r: Run)
    ensures |r.world| <= |w|
    decreases |w|, ns, 0
  {
    if ns == [] then Run(Normal, s, w, [])
    else
      var r := Exec(ns[0], s, w);
      if !r.outcome.Normal? then r else Then(r, ExecSeq(ns[1..], r.state, r.world))
  }

  /** One decision of a loop's condition, and the iterations it lets happen. */
  function Test(n: Node, s: set<nat>, w: seq<set<nat>>): (r: Run)
    requires n.Loop?
    ensures |r.world| <= |w|
    decreases |w|, n, 1
  {
    var d := Decide(n.cond, {}, s, w);
    if !d.outcome.Normal? || n.cond.site !in d.state then d
    else Then(d, Iterate(n, d.state, d.world))
  }

  function Iterate(n: Node, s: set<nat>, w: seq<set<nat>>): (r: Run)
    requires n.Loop?
    ensures |r.world| <= |w|
    decreases |w|, n, 2
  {
    var b := Exec(n.body, s, w);
    if b.outcome == Left(Break) then b.(outcome := Normal)
    else if !b.outcome.Normal? && b.outcome != Left(Continue) then b
    else
      var st := Exec(n.step, b.state, b.world);
      if !st.outcome.Normal? then Then(b, st)
      else Then(b, Then(st, Test(n, st.state, st.world)))
  }

  /** The links of its chain that a true `if` skips. */
  function Skipped(n: Node): set<nat>
  {
    if n.If? then ChainSites(n.els) else {}
  }

  /** The branch an `if` or a ternary takes, if there is one. */
  function Taken(n: Node, s: set<nat>): Option<Node>
    requires n.If? || n.Ternary?
  {
    if n.cond.site in s then Some(n.thn) else ElseOf(n)
  }

  lemma {:induction false} ChoiceRun(n: Node, s: set<nat>, w: seq<set<nat>>)
    requires n.If? || n.Ternary?
    ensures var d := Decide(n.cond, Skipped(n), s, w);
            Exec(n, s, w) == if !d.outcome.Normal? || Taken(n, d.state).None? then d
                             else Then(d, Exec(Taken(n, d.state).value, d.state, d.world))
  {
  }

  // ----- what a guard claims -----

  /** Loop guards claim nothing; any other guard claims its text, or its negation. */
  predicate Holds(p: PathCond, s: set<nat>)
  {
    p.kind.LoopGuard? || (Truth(p.text, s) != p.negated)
  }

  predicate Truth(t: Text, s: set<nat>)
  {
    match t
    case Is(l, _) => l in s
    case Unless(o, inner) => o !in s || Holds(inner, s)
  }

  predicate AllHold(ps: seq<PathCond>, s: set<nat>)
  {
    forall k | 0 <= k < |ps| :: Holds(ps[k], s)
  }

  function TextSites(t: Text): set<nat>
  {
    match t
    case Is(l, _) => {l}
    case Unless(o, inner) => {o} + TextSites(inner.text)
  }

  function ClaimSites(ps: seq<PathCond>): set<nat>
  {
    set k, l | 0 <= k < |ps| && l in TextSites(ps[k].text) :: l
  }

  /** Two states agree on every site outside `sites`. */
  ghost predicate SameOutside(s: set<nat>, s': set<nat>, sites: set<nat>)
  {
    forall l: nat :: l !in sites ==> (l in s <==> l in s')
  }

  // ----- what a run cannot touch -----

  ghost predicate Framed(r: Run, s: set<nat>, w: seq<set<nat>>, sites: set<nat>)
  {
    && SameOutside(s, r.state, sites)
    && (forall k | 0 <= k < |r.events| ::
          r.events[k].site in sites && SameOutside(s, r.events[k].state, sites))
    && |r.world| <= |w| && r.world == w[|w| - |r.world|..]
  }

  lemma {:induction false} FramedThen(
    a: Run, b: Run, s: set<nat>, w: seq<set<nat>>, p: set<nat>, q: set<nat>, sites: set<nat>)
    requires Framed(a, s, w, p) && Framed(b, a.state, a.world, q)
    requires p <= sites && q <= sites
    ensures Framed(Then(a, b), s, w, sites)
  {
  }

  lemma {:induction false} FramedWiden(r: Run, s: set<nat>, w: seq<set<nat>>, p: set<nat>, sites: set<nat>)
    requires Framed(r, s, w, p) && p <= sites
    ensures Framed(r, s, w, sites)
  {
  }

  lemma {:induction false} ChainSitesBelow(e: Option<Node>)
    ensures e.Some? ==> ChainSites(e) <= Sites(e.value)
    ensures e.None? ==> ChainSites(e) == {}
    decreases e
  {
    if e.Some? && e.value.If? { ChainSitesBelow(e.value.els); }
  }

  lemma {:induction false} DecideFrame(c: Cond, skipped: set<nat>, s: set<nat>, w: seq<set<nat>>)
    ensures Framed(Decide(c, skipped, s, w), s, w, CondSites(c) + skipped)
    decreases |w|, c, 0
  {
    ExecFrame(c.arg, s, w);
  }

  /** A run changes, and reaches, only sites that lie below the statement it runs. */
  lemma {:induction false} ExecFrame(n: Node, s: set<nat>, w: seq<set<nat>>)
    ensures Framed(Exec(n, s, w), s, w, Sites(n))
    decreases |w|, n, 4
  {
    match n
    case Block(b) => ExecSeqFrame(b, s, w);
    case If(c, t, _, e) =>
      ChainSitesBelow(e);
      DecideFrame(c, ChainSites(e), s, w);
      var d := Decide(c, ChainSites(e), s, w);
      if !d.outcome.Normal? {
        FramedWiden(d, s, w, CondSites(c) + ChainSites(e), Sites(n));
      } else if c.site in d.state {
        ExecFrame(t, d.state, d.world);
        FramedThen(d, Exec(t, d.state, d.world), s, w, CondSites(c) + ChainSites(e), Sites(t), Sites(n));
      } else if e.Some? {
        ExecFrame(e.value, d.state, d.world);
        FramedThen(d, Exec(e.value, d.state, d.world), s, w, CondSites(c) + ChainSites(e), Sites(e.value), Sites(n));
      } else {
        FramedWiden(d, s, w, CondSites(c) + ChainSites(e), Sites(n));
      }
    case Ternary(c, t, e) =>
      DecideFrame(c, {}, s, w);
      var d := Decide(c, {}, s, w);
      if !d.outcome.Normal? {
        FramedWiden(d, s, w, CondSites(c) + {}, Sites(n));
      } else {
        var m := if c.site in d.state then t else e;
        ExecFrame(m, d.state, d.world);
        FramedThen(d, Exec(m, d.state, d.world), s, w, CondSites(c) + {}, Sites(m), Sites(n));
      }
    case Loop(k, i, c, st, b) =>
      ExecFrame(i, s, w);
      var r := Exec(i, s, w);
      if !r.outcome.Normal? {
        FramedWiden(r, s, w, Sites(i), Sites(n));
      } else if k.DoLoop? {
        IterateFrame(n, r.state, r.world);
        FramedThen(r, Iterate(n, r.state, r.world), s, w, Sites(i), Sites(n), Sites(n));
      } else {
        TestFrame(n, r.state, r.world);
        FramedThen(r, Test(n, r.state, r.world), s, w, Sites(i), Sites(n), Sites(n));
      }
    case DoOnce(b) => ExecFrame(b, s, w);
    case Exit(_, _, a) => ExecFrame(a, s, w);
    case Write(l, a) =>
      ExecFrame(a, s, w);
      FramedWiden(Exec(a, s, w), s, w, Sites(a), Sites(n));
    case Other(ps) => ExecSeqFrame(ps, s, w);
  }

  lemma {:induction false} ExecSeqFrame(ns: seq<Node>, s: set<nat>, w: seq<set<nat>>)
    ensures Framed(ExecSeq(ns, s, w), s, w, SitesSeq(ns))
    decreases |w|, ns, 0
  {
    if ns != [] {
      ExecFrame(ns[0], s, w);
      var r := Exec(ns[0], s, w);
      if r.outcome.Normal? {
        ExecSeqFrame(ns[1..], r.state, r.world);
        FramedThen(r, ExecSeq(ns[1..], r.state, r.world), s, w, Sites(ns[0]), SitesSeq(ns[1..]), SitesSeq(ns));
      } else {
        FramedWiden(r, s, w, Sites(ns[0]), SitesSeq(ns));
      }
    }
  }

  lemma {:induction false} TestFrame(n: Node, s: set<nat>, w: seq<set<nat>>)
    requires n.Loop?
    ensures Framed(Test(n, s, w), s, w, Sites(n))
    decreases |w|, n, 1
  {
    DecideFrame(n.cond, {}, s, w);
    var d := Decide(n.cond, {}, s, w);
    if !d.outcome.Normal? || n.cond.site !in d.state {
      FramedWiden(d, s, w, CondSites(n.cond) + {}, Sites(n));
    } else {
      IterateFrame(n, d.state, d.world);
      FramedThen(d, Iterate(n, d.state, d.world), s, w, CondSites(n.cond) + {}, Sites(n), Sites(n));
    }
  }

  lemma {:induction false} IterateFrame(n: Node, s: set<nat>, w: seq<set<nat>>)
    requires n.Loop?
    ensures Framed(Iterate(n, s, w), s, w, Sites(n))
    decreases |w|, n, 3
  {
    ExecFrame(n.body, s, w);
    var b := Exec(n.body, s, w);
    FramedWiden(b, s, w, Sites(n.body), Sites(n));
    if b.outcome.Normal? || b.outcome == Left(Continue) {
      StepFrame(n, b.state, b.world);
      FramedThen(b, StepThenTest(n, b.state, b.world), s, w, Sites(n), Sites(n), Sites(n));
    }
  }

  /** What follows the body of a loop. */
  function StepThenTest(n: Node, s: set<nat>, w: seq<set<nat>>): Run
    requires n.Loop?
  {
    var st := Exec(n.step, s, w);
    if st.outcome.Normal? then Then(st, Test(n, st.state, st.world)) else st
  }

  lemma {:induction false} StepFrame(n: Node, s: set<nat>, w: seq<set<nat>>)
    requires n.Loop?
    ensures Framed(StepThenTest(n, s, w), s, w, Sites(n))
    decreases |w|, n, 2
  {
    ExecFrame(n.step, s, w);
    var st := Exec(n.step, s, w);
    FramedWiden(st, s, w, Sites(n.step), Sites(n));
    if st.outcome.Normal? {
      TestFrame(n, st.state, st.world);
      FramedThen(st, Test(n, st.state, st.world), s, w, Sites(n), Sites(n), Sites(n));
    }
  }

  // ----- claims and frames -----

  lemma {:induction false} HoldsFrame(p: PathCond, s: set<nat>, s': set<nat>, sites: set<nat>)
    requires SameOutside(s, s', sites) && TextSites(p.text) !! sites
    ensures Holds(p, s) == Holds(p, s')
    decreases p
  {
    match p.text
    case Is(_, _) =>
    case Unless(_, inner) => HoldsFrame(inner, s, s', sites);
  }

  /** A claim about other sites outlives any run below `sites`. */
  lemma {:induction false} AllHoldFrame(ps: seq<PathCond>, s: set<nat>, s': set<nat>, sites: set<nat>)
    requires SameOutside(s, s', sites) && ClaimSites(ps) !! sites
    ensures AllHold(ps, s) == AllHold(ps, s')
  {
    forall k | 0 <= k < |ps| ensures Holds(ps[k], s) == Holds(ps[k], s') {
      forall l | l in TextSites(ps[k].text) ensures l !in sites { assert l in ClaimSites(ps); }
      HoldsFrame(ps[k], s, s', sites);
    }
  }
}
