/** How the runs of a statement can end, read off the statement. */
module GuardEndings {
  import opened Wrappers
  import opened GuardSyntax
  import opened GuardSemantics
  import opened Sequences

  /** Some run of `n` ends this way; what `EndingsAreReal` and `EndingsAreAll` prove. */
  predicate CanEnd(n: Node, o: Outcome)
    decreases n, 9
  {
    match n
    case Block(b) => CanEndSeq(b, o)
    case If(c, t, _, e) =>
      || CanLeave(c.arg, o)
      || (CanEnd(c.arg, Normal) && (CanEnd(t, o) || (if e.Some? then CanEnd(e.value, o) else o == Normal)))
    case Ternary(c, t, e) => CanLeave(c.arg, o) || (CanEnd(c.arg, Normal) && (CanEnd(t, o) || CanEnd(e, o)))
    case Loop(k, i, c, st, b) =>
      CanLeave(i, o) || (CanEnd(i, Normal) && (if k.DoLoop? then CanIterate(n, o) else CanTest(n, o)))
    case DoOnce(b) =>
      if o.Normal? then CanEnd(b, Normal) || CanEnd(b, Left(Break)) || CanEnd(b, Left(Continue))
      else o != Left(Break) && o != Left(Continue) && CanEnd(b, o)
    case Exit(k, _, a) => CanLeave(a, o) || (o == Left(k) && CanEnd(a, Normal))
    case Write(_, a) => CanEnd(a, o)
    case Other(ps) => CanEndSeq(ps, o)
  }

  /** Ends the enclosing statement the same way, without anything after `n` running. */
  predicate CanLeave(n: Node, o: Outcome)
    decreases n, 10
  {
    o.Left? && CanEnd(n, o)
  }

  predicate CanEndSeq(ns: seq<Node>, o: Outcome)
    decreases ns, 0
  {
    if ns == [] then o == Normal
    else CanLeave(ns[0], o) || (CanEnd(ns[0], Normal) && CanEndSeq(ns[1..], o))
  }

  /** One pass through the body that ends the loop. */
  predicate CanQuit(n: Node, o: Outcome)
    requires n.Loop?
    decreases n, 1
  {
    || (o == Normal && CanEnd(n.body, Left(Break)))
    || (o.Left? && o != Left(Break) && o != Left(Continue) && CanEnd(n.body, o))
    || (CanGoOn(n) && CanLeave(n.step, o))
  }

  /** One pass through the body that gets to the step. */
  predicate CanGoOn(n: Node)
    requires n.Loop?
    decreases n, 0
  {
    CanEnd(n.body, Normal) || CanEnd(n.body, Left(Continue))
  }

  predicate CanTest(n: Node, o: Outcome)
    requires n.Loop?
    decreases n, 2
  {
    CanLeave(n.cond.arg, o) || (CanEnd(n.cond.arg, Normal) && (o == Normal || CanQuit(n, o)))
  }

  predicate CanIterate(n: Node, o: Outcome)
    requires n.Loop?
    decreases n, 3
  {
    CanQuit(n, o) || (CanGoOn(n) && CanEnd(n.step, Normal) && CanTest(n, o))
  }

  predicate CanFall(n: Node) { CanEnd(n, Normal) }

  // ----- every ending of a run is one of these -----

  /** However a run that is not cut short ends, the statement can end that way. */
  lemma {:induction false} EndingsAreAll(n: Node, s: set<nat>, w: seq<set<nat>>)
    requires !Exec(n, s, w).outcome.Cut?
    ensures CanEnd(n, Exec(n, s, w).outcome)
    decreases |w|, n, 4
  {
    match n
    case Block(b) => EndingsAreAllSeq(b, s, w);
    case If(_, _, _, _) => ChoiceEndings(n, s, w);
    case Ternary(_, _, _) => ChoiceEndings(n, s, w);
    case Loop(_, _, _, _, _) => LoopEndings(n, s, w);
    case DoOnce(b) => EndingsAreAll(b, s, w);
    case Exit(_, _, a) => EndingsAreAll(a, s, w);
    case Write(_, a) => EndingsAreAll(a, s, w);
    case Other(ps) => EndingsAreAllSeq(ps, s, w);
  }

  lemma {:induction false} EndingsAreAllSeq(ns: seq<Node>, s: set<nat>, w: seq<set<nat>>)
    requires !ExecSeq(ns, s, w).outcome.Cut?
    ensures CanEndSeq(ns, ExecSeq(ns, s, w).outcome)
    decreases |w|, ns, 0
  {
    if ns != [] {
      var r := Exec(ns[0], s, w);
      EndingsAreAll(ns[0], s, w);
      if r.outcome.Normal? { EndingsAreAllSeq(ns[1..], r.state, r.world); }
    }
  }

  lemma {:induction false} DecisionEndings(c: Cond, skipped: set<nat>, s: set<nat>, w: seq<set<nat>>)
    requires !Decide(c, skipped, s, w).outcome.Cut?
    ensures CanEnd(c.arg, Decide(c, skipped, s, w).outcome)
    decreases |w|, c, 0
  {
    EndingsAreAll(c.arg, s, w);
  }

  lemma {:induction false} ChoiceEndings(n: Node, s: set<nat>, w: seq<set<nat>>)
    requires (n.If? || n.Ternary?) && !Exec(n, s, w).outcome.Cut?
    ensures CanEnd(n, Exec(n, s, w).outcome)
    decreases |w|, n, 1
  {
    ChoiceRun(n, s, w);
    var d := Decide(n.cond, Skipped(n), s, w);
    DecisionEndings(n.cond, Skipped(n), s, w);
    if d.outcome.Normal? && Taken(n, d.state).Some? {
      EndingsAreAll(Taken(n, d.state).value, d.state, d.world);
    }
  }

  lemma {:induction false} LoopEndings(n: Node, s: set<nat>, w: seq<set<nat>>)
    requires n.Loop? && !Exec(n, s, w).outcome.Cut?
    ensures CanEnd(n, Exec(n, s, w).outcome)
    decreases |w|, n, 3
  {
    var r := Exec(n.init, s, w);
    EndingsAreAll(n.init, s, w);
    if r.outcome.Normal? {
      if n.kind.DoLoop? { IterateEndings(n, r.state, r.world); } else { TestEndings(n, r.state, r.world); }
    }
  }

  lemma {:induction false} TestEndings(n: Node, s: set<nat>, w: seq<set<nat>>)
    requires n.Loop? && !Test(n, s, w).outcome.Cut?
    ensures CanTest(n, Test(n, s, w).outcome)
    decreases |w|, n, 1
  {
    var d := Decide(n.cond, {}, s, w);
    DecisionEndings(n.cond, {}, s, w);
    if d.outcome.Normal? && n.cond.site in d.state { IterateEndings(n, d.state, d.world); }
  }

  lemma {:induction false} IterateEndings(n: Node, s: set<nat>, w: seq<set<nat>>)
    requires n.Loop? && !Iterate(n, s, w).outcome.Cut?
    ensures CanIterate(n, Iterate(n, s, w).outcome)
    decreases |w|, n, 2
  {
    var b := Exec(n.body, s, w);
    EndingsAreAll(n.body, s, w);
    if b.outcome.Normal? || b.outcome == Left(Continue) {
      var st := Exec(n.step, b.state, b.world);
      EndingsAreAll(n.step, b.state, b.world);
      if st.outcome.Normal? { TestEndings(n, st.state, st.world); }
    }
  }

  // ----- every one of these is the ending of a run -----

  /** How the body of a statement that runs once must end for the statement to end this way. */
  ghost function OnceEnding(body: Node, o: Outcome): Outcome
  {
    if !o.Normal? || CanEnd(body, Normal) then o
    else if CanEnd(body, Left(Break)) then Left(Break) else Left(Continue)
  }

  /** Samples that make a run end this way. */
  ghost function WorldFor(n: Node, o: Outcome): seq<set<nat>>
    requires CanEnd(n, o)
    decreases n, 9
  {
    match n
    case Block(b) => WorldForSeq(b, o)
    case If(c, t, _, e) =>
      if CanLeave(c.arg, o) then WorldFor(c.arg, o)
      else WorldFor(c.arg, Normal)
           + (if CanEnd(t, o) then [{c.site}] + WorldFor(t, o)
              else [{}] + (if e.Some? then WorldFor(e.value, o) else []))
    case Ternary(c, t, e) =>
      if CanLeave(c.arg, o) then WorldFor(c.arg, o)
      else WorldFor(c.arg, Normal)
           + (if CanEnd(t, o) then [{c.site}] + WorldFor(t, o) else [{}] + WorldFor(e, o))
    case Loop(k, i, c, st, b) =>
      if CanLeave(i, o) then WorldFor(i, o)
      else WorldFor(i, Normal) + (if k.DoLoop? then WorldForIterate(n, o) else WorldForTest(n, o))
    case DoOnce(b) =>
      WorldFor(b, OnceEnding(b, o))
    case Exit(k, _, a) => if CanLeave(a, o) then WorldFor(a, o) else WorldFor(a, Normal)
    case Write(_, a) => WorldFor(a, o)
    case Other(ps) => WorldForSeq(ps, o)
  }

  ghost function WorldForSeq(ns: seq<Node>, o: Outcome): seq<set<nat>>
    requires CanEndSeq(ns, o)
    decreases ns, 0
  {
    if ns == [] then []
    else if CanLeave(ns[0], o) then WorldFor(ns[0], o)
    else WorldFor(ns[0], Normal) + WorldForSeq(ns[1..], o)
  }

  ghost function GoingOn(n: Node): Outcome
    requires n.Loop? && CanGoOn(n)
  {
    if CanEnd(n.body, Normal) then Normal else Left(Continue)
  }

  ghost function WorldForQuit(n: Node, o: Outcome): seq<set<nat>>
    requires n.Loop? && CanQuit(n, o)
    decreases n, 1
  {
    if o == Normal && CanEnd(n.body, Left(Break)) then WorldFor(n.body, Left(Break))
    else if o.Left? && o != Left(Break) && o != Left(Continue) && CanEnd(n.body, o) then WorldFor(n.body, o)
    else
      assert CanLeave(n.step, o);
      WorldFor(n.body, GoingOn(n)) + WorldFor(n.step, o)
  }

  ghost function WorldForTest(n: Node, o: Outcome): seq<set<nat>>
    requires n.Loop? && CanTest(n, o)
    decreases n, 2
  {
    if CanLeave(n.cond.arg, o) then WorldFor(n.cond.arg, o)
    else WorldFor(n.cond.arg, Normal) + (if o == Normal then [{}] else [{n.cond.site}] + WorldForQuit(n, o))
  }

  ghost function WorldForIterate(n: Node, o: Outcome): seq<set<nat>>
    requires n.Loop? && CanIterate(n, o)
    decreases n, 3
  {
    if CanQuit(n, o) then WorldForQuit(n, o)
    else WorldFor(n.body, GoingOn(n)) + (WorldFor(n.step, Normal) + WorldForTest(n, o))
  }

  /** The run uses up `u`, leaves `v`, and ends with `o`. */
  ghost predicate Takes(r: Run, v: seq<set<nat>>, o: Outcome) { r.outcome == o && r.world == v }

  /** From any state, the samples chosen make the statement end as said and nothing of the rest is used. */
  lemma {:induction false} EndingsAreReal(n: Node, o: Outcome, s: set<nat>, v: seq<set<nat>>)
    requires CanEnd(n, o)
    ensures Takes(Exec(n, s, WorldFor(n, o) + v), v, o)
    decreases n, 9
  {
    match n
    case Block(b) => EndingsAreRealSeq(b, o, s, v);
    case If(_, _, _, _) => ChoiceIsReal(n, o, s, v);
    case Ternary(_, _, _) => ChoiceIsReal(n, o, s, v);
    case Loop(_, _, _, _, _) => LoopIsReal(n, o, s, v);
    case DoOnce(b) =>
      EndingsAreReal(b, OnceEnding(b, o), s, v);
    case Exit(k, _, a) => EndingsAreReal(a, if CanLeave(a, o) then o else Normal, s, v);
    case Write(_, a) => EndingsAreReal(a, o, s, v);
    case Other(ps) => EndingsAreRealSeq(ps, o, s, v);
  }

  lemma {:induction false} EndingsAreRealSeq(ns: seq<Node>, o: Outcome, s: set<nat>, v: seq<set<nat>>)
    requires CanEndSeq(ns, o)
    ensures Takes(ExecSeq(ns, s, WorldForSeq(ns, o) + v), v, o)
    decreases ns, 0
  {
    if ns == [] {
      assert [] + v == v;
    } else if CanLeave(ns[0], o) {
      EndingsAreReal(ns[0], o, s, v);
    } else {
      var first, rest := WorldFor(ns[0], Normal), WorldForSeq(ns[1..], o);
      Regroup(first, rest, v);
      EndingsAreReal(ns[0], Normal, s, rest + v);
      var r := Exec(ns[0], s, first + (rest + v));
      EndingsAreRealSeq(ns[1..], o, r.state, v);
    }
  }

  /** A condition whose own subtree falls through is decided by the next sample. */
  lemma {:induction false} DecisionIsReal(c: Cond, skipped: set<nat>, sample: set<nat>, s: set<nat>, v: seq<set<nat>>)
    requires CanEnd(c.arg, Normal)
    ensures var d := Decide(c, skipped, s, WorldFor(c.arg, Normal) + ([sample] + v));
            Takes(d, v, Normal) && (c.site in d.state <==> c.site in sample)
    decreases c, 0
  {
    EndingsAreReal(c.arg, Normal, s, [sample] + v);
    assert ([sample] + v)[1..] == v;
  }

  lemma {:induction false} ChoiceIsReal(n: Node, o: Outcome, s: set<nat>, v: seq<set<nat>>)
    requires (n.If? || n.Ternary?) && CanEnd(n, o)
    ensures Takes(Exec(n, s, WorldFor(n, o) + v), v, o)
    decreases n, 1
  {
    ChoiceRun(n, s, WorldFor(n, o) + v);
    if CanLeave(n.cond.arg, o) {
      EndingsAreReal(n.cond.arg, o, s, v);
    } else {
      var arg := WorldFor(n.cond.arg, Normal);
      var sample: set<nat> := if CanEnd(n.thn, o) then {n.cond.site} else {};
      var tail := BranchWorld(n, o);
      assert WorldFor(n, o) == arg + ([sample] + tail);
      Regroup(arg, [sample], tail);
      Regroup4(arg, [sample], tail, v);
      DecisionIsReal(n.cond, Skipped(n), sample, s, tail + v);
      var d := Decide(n.cond, Skipped(n), s, arg + ([sample] + (tail + v)));
      ChosenIsReal(n, o, sample, d.state, v);
    }
  }

  ghost function BranchWorld(n: Node, o: Outcome): seq<set<nat>>
    requires (n.If? || n.Ternary?) && CanEnd(n, o) && !CanLeave(n.cond.arg, o)
  {
    if CanEnd(n.thn, o) then WorldFor(n.thn, o) else if ElseOf(n).Some? then WorldFor(ElseOf(n).value, o) else []
  }

  lemma {:induction false} ChosenIsReal(n: Node, o: Outcome, sample: set<nat>, s: set<nat>, v: seq<set<nat>>)
    requires (n.If? || n.Ternary?) && CanEnd(n, o) && !CanLeave(n.cond.arg, o)
    requires sample == (if CanEnd(n.thn, o) then {n.cond.site} else {}) && (n.cond.site in s <==> n.cond.site in sample)
    ensures var m := Taken(n, s);
            if m.Some? then Takes(Exec(m.value, s, BranchWorld(n, o) + v), v, o)
            else o == Normal && BranchWorld(n, o) + v == v
    decreases n, 0
  {
    if CanEnd(n.thn, o) {
      EndingsAreReal(n.thn, o, s, v);
    } else if ElseOf(n).Some? {
      EndingsAreReal(ElseOf(n).value, o, s, v);
    } else {
      assert [] + v == v;
    }
  }

  lemma {:induction false} LoopIsReal(n: Node, o: Outcome, s: set<nat>, v: seq<set<nat>>)
    requires n.Loop? && CanEnd(n, o)
    ensures Takes(Exec(n, s, WorldFor(n, o) + v), v, o)
    decreases n, 4
  {
    if CanLeave(n.init, o) {
      EndingsAreReal(n.init, o, s, v);
    } else {
      var init := WorldFor(n.init, Normal);
      var tail := if n.kind.DoLoop? then WorldForIterate(n, o) else WorldForTest(n, o);
      Regroup(init, tail, v);
      EndingsAreReal(n.init, Normal, s, tail + v);
      var r := Exec(n.init, s, init + (tail + v));
      if n.kind.DoLoop? { IterateIsReal(n, o, r.state, v); } else { TestIsReal(n, o, r.state, v); }
    }
  }

  lemma {:induction false} QuitIsReal(n: Node, o: Outcome, s: set<nat>, v: seq<set<nat>>)
    requires n.Loop? && CanQuit(n, o)
    ensures Takes(Iterate(n, s, WorldForQuit(n, o) + v), v, o)
    decreases n, 1
  {
    if o == Normal && CanEnd(n.body, Left(Break)) {
      EndingsAreReal(n.body, Left(Break), s, v);
    } else if o.Left? && o != Left(Break) && o != Left(Continue) && CanEnd(n.body, o) {
      EndingsAreReal(n.body, o, s, v);
    } else {
      var body, step := WorldFor(n.body, GoingOn(n)), WorldFor(n.step, o);
      Regroup(body, step, v);
      EndingsAreReal(n.body, GoingOn(n), s, step + v);
      var b := Exec(n.body, s, body + (step + v));
      EndingsAreReal(n.step, o, b.state, v);
    }
  }

  lemma {:induction false} TestIsReal(n: Node, o: Outcome, s: set<nat>, v: seq<set<nat>>)
    requires n.Loop? && CanTest(n, o)
    ensures Takes(Test(n, s, WorldForTest(n, o) + v), v, o)
    decreases n, 2
  {
    if CanLeave(n.cond.arg, o) {
      EndingsAreReal(n.cond.arg, o, s, v);
    } else {
      var arg := WorldFor(n.cond.arg, Normal);
      var sample: set<nat> := if o == Normal then {} else {n.cond.site};
      var tail := if o == Normal then [] else WorldForQuit(n, o);
      assert [sample] + [] == [sample];
      Regroup4(arg, [sample], tail, v);
      Regroup(arg, [sample], tail);
      DecisionIsReal(n.cond, {}, sample, s, tail + v);
      var d := Decide(n.cond, {}, s, arg + ([sample] + (tail + v)));
      if o == Normal { assert [] + v == v; } else { QuitIsReal(n, o, d.state, v); }
    }
  }

  lemma {:induction false} IterateIsReal(n: Node, o: Outcome, s: set<nat>, v: seq<set<nat>>)
    requires n.Loop? && CanIterate(n, o)
    ensures Takes(Iterate(n, s, WorldForIterate(n, o) + v), v, o)
    decreases n, 3
  {
    if CanQuit(n, o) {
      QuitIsReal(n, o, s, v);
    } else {
      var body, step, test := WorldFor(n.body, GoingOn(n)), WorldFor(n.step, Normal), WorldForTest(n, o);
      Regroup(body, step + test, v);
      Regroup(step, test, v);
      EndingsAreReal(n.body, GoingOn(n), s, step + (test + v));
      var b := Exec(n.body, s, body + (step + (test + v)));
      EndingsAreReal(n.step, Normal, b.state, test + v);
      var st := Exec(n.step, b.state, step + (test + v));
      TestIsReal(n, o, st.state, v);
    }
  }

  /** A statement can end in a way if and only if one of its runs does. */
  lemma {:induction false} CanEndIff(n: Node, o: Outcome)
    requires !o.Cut?
    ensures CanEnd(n, o) <==> exists s, w :: Exec(n, s, w).outcome == o
  {
    if CanEnd(n, o) {
      EndingsAreReal(n, o, {}, []);
      assert Exec(n, {}, WorldFor(n, o) + []).outcome == o;
    }
    if s, w :| Exec(n, s, w).outcome == o { EndingsAreAll(n, s, w); }
  }
}
