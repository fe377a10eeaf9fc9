/** What the walk records, told from the tree: every condition and write, under the guards of all that encloses it. */
module GuardCoverage {
  import opened Wrappers
  import opened GuardSyntax
  import opened GuardSemantics
  import opened GuardSoundness
  import GuardWalker
  import opened Sequences

  // ----- places in a tree -----

  /** One step down: a statement, a part of a condition, a branch, a part of a loop, an operand or a child. */
  datatype Step = Stmt(k: nat) | InCond | Then | Else | Init | Advance | Body | Arg | Part(k: nat)

  function Below(n: Node, st: Step): (m: Option<Node>)
    ensures m.Some? ==> m.value < n
  {
    match st
    case Stmt(k) => if n.Block? && k < |n.stmts| then Some(n.stmts[k]) else None
    case InCond => if n.If? || n.Ternary? || n.Loop? then Some(n.cond.arg) else None
    case Then => if n.If? || n.Ternary? then Some(n.thn) else None
    case Else => if n.If? then n.els else if n.Ternary? then Some(n.alt) else None
    case Init => if n.Loop? then Some(n.init) else None
    case Advance => if n.Loop? then Some(n.step) else None
    case Body => if n.Loop? || n.DoOnce? then Some(n.body) else None
    case Arg => if n.Exit? || n.Write? then Some(n.arg) else None
    case Part(k) => if n.Other? && k < |n.parts| then Some(n.parts[k]) else None
  }

  /** The node a path of steps leads to. */
  function At(n: Node, path: seq<Step>): Option<Node>
    decreases |path|
  {
    if path == [] then Some(n)
    else match Below(n, path[0])
      case None => None
      case Some(m) => At(m, path[1..])
  }

  /** Conditions and writes are what the walk records; `control` tells them apart. */
  predicate Marked(n: Node, control: bool, site: nat)
  {
    if n.Write? then !control && site == n.site
    else (n.If? || n.Ternary? || n.Loop?) && control && site == n.cond.site
  }

  /** Going down by this step, the walk has put on its stack the guard that names the enclosing node. */
  ghost predicate Named(n: Node, st: Step, conds: seq<PathCond>)
  {
    match n
    case If(c, _, _, _) =>
      && (st.Then? ==> PathCond(Is(c.site, c.readable), false, IfKind) in conds)
      && (st.Else? ==> PathCond(Is(c.site, c.readable), true, IfKind) in conds)
    case Ternary(c, _, _) =>
      && (st.Then? ==> PathCond(Is(c.site, c.readable), false, TernaryKind) in conds)
      && (st.Else? ==> PathCond(Is(c.site, c.readable), true, TernaryKind) in conds)
    case Loop(k, _, c, _, _) => PathCond(Is(c.site, c.readable), false, LoopGuard(k)) in conds
    case _ => true
  }

  /** What a step adds to the stack: the guard of an enclosing choice or loop, or what earlier siblings imply. */
  function StepGuards(n: Node, st: Step, byLog: bool): seq<PathCond>
  {
    match n
    case Block(b) => if st.Stmt? && st.k <= |b| then ImpliedBySeq(b[..st.k], byLog) else []
    case If(c, _, _, _) =>
      if st.Then? || st.Else? then [PathCond(Is(c.site, c.readable), st.Else?, IfKind)] else []
    case Ternary(c, _, _) =>
      if st.Then? || st.Else? then [PathCond(Is(c.site, c.readable), st.Else?, TernaryKind)] else []
    case Loop(k, _, c, _, _) => [PathCond(Is(c.site, c.readable), false, LoopGuard(k))]
    case _ => []
  }

  function GuardsAlong(n: Node, path: seq<Step>, byLog: bool): seq<PathCond>
    requires At(n, path).Some?
    decreases |path|
  {
    if path == [] then []
    else StepGuards(n, path[0], byLog) + GuardsAlong(Below(n, path[0]).value, path[1..], byLog)
  }

  // ----- one step of the walk -----

  lemma {:induction false} RecordsSeqIff(ns: seq<Node>, stack: seq<PathCond>, byLog: bool, r: Record)
    ensures r in RecordsSeq(ns, stack, byLog) <==>
            exists k :: 0 <= k < |ns| && r in Records(ns[k], stack + ImpliedBySeq(ns[..k], byLog), byLog)
    decreases ns
  {
    if ns != [] {
      var claims := GuardClauseNegations(ns[0], byLog);
      RecordsSeqIff(ns[1..], stack + claims, byLog, r);
      if k :| 0 <= k < |ns| && r in Records(ns[k], stack + ImpliedBySeq(ns[..k], byLog), byLog) {
        if k > 0 { ImpliedFrom(ns, stack, byLog, k - 1); }
      }
      ImpliedFrom(ns, stack, byLog, -1);
      if r in RecordsSeq(ns[1..], stack + claims, byLog) {
        var j :| 0 <= j < |ns[1..]| &&
            r in Records(ns[1..][j], stack + claims + ImpliedBySeq(ns[1..][..j], byLog), byLog);
        ImpliedFrom(ns, stack, byLog, j);
      }
    }
  }

  lemma {:induction false} ImpliedFrom(ns: seq<Node>, stack: seq<PathCond>, byLog: bool, j: int)
    requires -1 <= j < |ns| - 1
    ensures j == -1 ==> stack + ImpliedBySeq(ns[..j + 1], byLog) == stack
    ensures j >= 0 ==>
              && ns[1..][j] == ns[j + 1]
              && stack + ImpliedBySeq(ns[..j + 1], byLog) ==
                 stack + GuardClauseNegations(ns[0], byLog) + ImpliedBySeq(ns[1..][..j], byLog)
  {
    if j >= 0 { assert ns[..j + 1][1..] == ns[1..][..j]; }
  }

  lemma {:induction false} RecordsAllIff(ns: seq<Node>, stack: seq<PathCond>, byLog: bool, r: Record)
    ensures r in RecordsAll(ns, stack, byLog) <==> exists k :: 0 <= k < |ns| && r in Records(ns[k], stack, byLog)
    decreases ns
  {
    if ns != [] {
      RecordsAllIff(ns[1..], stack, byLog, r);
      if k :| 0 <= k < |ns| && r in Records(ns[k], stack, byLog) {
        if k > 0 { assert ns[1..][k - 1] == ns[k]; }
      }
      if j :| 0 <= j < |ns[1..]| && r in Records(ns[1..][j], stack, byLog) { assert ns[j + 1] == ns[1..][j]; }
    }
  }

  /** What is recorded below a step is recorded. */
  lemma {:induction false} RecordedBelow(n: Node, st: Step, stack: seq<PathCond>, byLog: bool, r: Record)
    requires Below(n, st).Some? && r in Records(Below(n, st).value, stack + StepGuards(n, st, byLog), byLog)
    ensures r in Records(n, stack, byLog)
  {
    if n.Block? {
      RecordsSeqIff(n.stmts, stack, byLog, r);
    } else if n.Other? {
      assert stack + [] == stack;
      RecordsAllIff(n.parts, stack, byLog, r);
    } else {
      assert stack + [] == stack;
    }
  }

  /** What is recorded is the node's own mark or recorded below a step. */
  lemma {:induction false} RecordedFrom(
    n: Node, stack: seq<PathCond>, byLog: bool, r: Record)
    returns (st: Option<Step>)
    requires r in Records(n, stack, byLog)
    ensures st.None? ==> Marked(n, r.control, r.site) && r.conds == stack
    ensures st.Some? ==>
              && Below(n, st.value).Some?
              && r in Records(Below(n, st.value).value, stack + StepGuards(n, st.value, byLog), byLog)
  {
    assert stack + [] == stack;
    match n
    case Block(b) =>
      RecordsSeqIff(b, stack, byLog, r);
      var k :| 0 <= k < |b| && r in Records(b[k], stack + ImpliedBySeq(b[..k], byLog), byLog);
      st := Some(Stmt(k));
    case Other(ps) =>
      RecordsAllIff(ps, stack, byLog, r);
      var k :| 0 <= k < |ps| && r in Records(ps[k], stack, byLog);
      st := Some(Part(k));
    case If(_, _, _, _) => st := FromChoice(n, stack, byLog, r);
    case Ternary(_, _, _) => st := FromChoice(n, stack, byLog, r);
    case Loop(_, _, _, _, _) => st := FromLoop(n, stack, byLog, r);
    case DoOnce(_) => st := Some(Body);
    case Exit(_, _, _) => st := Some(Arg);
    case Write(l, a) => st := if r in Records(a, stack, byLog) then Some(Arg) else None;
  }

  lemma {:induction false} FromChoice(n: Node, stack: seq<PathCond>, byLog: bool, r: Record) returns (st: Option<Step>)
    requires (n.If? || n.Ternary?) && r in Records(n, stack, byLog)
    ensures st.None? ==> Marked(n, r.control, r.site) && r.conds == stack
    ensures st.Some? ==>
              && Below(n, st.value).Some?
              && r in Records(Below(n, st.value).value, stack + StepGuards(n, st.value, byLog), byLog)
  {
    ChoiceRecords(n, stack, byLog);
    assert stack + [] == stack;
    st := if r in Records(n.cond.arg, stack, byLog) then Some(InCond)
          else if r in ThenRecords(n, stack, byLog) then Some(Then)
          else if r in ElseRecords(n, stack, byLog) then Some(Else) else None;
  }

  lemma {:induction false} FromLoop(n: Node, stack: seq<PathCond>, byLog: bool, r: Record) returns (st: Option<Step>)
    requires n.Loop? && r in Records(n, stack, byLog)
    ensures st.None? ==> Marked(n, r.control, r.site) && r.conds == stack
    ensures st.Some? ==>
              && Below(n, st.value).Some?
              && r in Records(Below(n, st.value).value, stack + StepGuards(n, st.value, byLog), byLog)
  {
    var inner := Guarded(stack, n.cond, false, LoopGuard(n.kind));
    st := if r in Records(n.init, inner, byLog) then Some(Init)
          else if r in Records(n.cond.arg, inner, byLog) then Some(InCond)
          else if r in Records(n.step, inner, byLog) then Some(Advance)
          else if r in Records(n.body, inner, byLog) then Some(Body) else None;
  }

  // ----- the whole walk -----

  /** The records of a walk are exactly the marks of the tree, each with the guards along the way to it. */
  lemma {:induction false} PlaceIsRecorded(
    n: Node, path: seq<Step>, stack: seq<PathCond>, byLog: bool, control: bool, site: nat)
    requires At(n, path).Some? && Marked(At(n, path).value, control, site)
    ensures Record(control, site, stack + GuardsAlong(n, path, byLog)) in Records(n, stack, byLog)
    decreases |path|
  {
    if path == [] {
      assert stack + [] == stack;
    } else {
      var m, own := Below(n, path[0]).value, StepGuards(n, path[0], byLog);
      PlaceIsRecorded(m, path[1..], stack + own, byLog, control, site);
      var r := Record(control, site, stack + own + GuardsAlong(m, path[1..], byLog));
      assert stack + own + GuardsAlong(m, path[1..], byLog) == stack + (own + GuardsAlong(m, path[1..], byLog));
      RecordedBelow(n, path[0], stack, byLog, r);
    }
  }

  lemma {:induction false} RecordHasPlace(
    n: Node, stack: seq<PathCond>, byLog: bool, r: Record)
    returns (path: seq<Step>)
    requires r in Records(n, stack, byLog)
    ensures At(n, path).Some? && Marked(At(n, path).value, r.control, r.site)
    ensures r.conds == stack + GuardsAlong(n, path, byLog)
    decreases n
  {
    var st := RecordedFrom(n, stack, byLog, r);
    if st.None? {
      path := [];
      assert stack + [] == stack;
    } else {
      var m, own := Below(n, st.value).value, StepGuards(n, st.value, byLog);
      var rest := RecordHasPlace(m, stack + own, byLog, r);
      path := [st.value] + rest;
      OneStepMore(n, st.value, rest, byLog);
      Regroup(stack, own, GuardsAlong(m, rest, byLog));
    }
  }

  lemma {:induction false} OneStepMore(n: Node, st: Step, rest: seq<Step>, byLog: bool)
    requires Below(n, st).Some? && At(Below(n, st).value, rest).Some?
    ensures var m := Below(n, st).value; var path := [st] + rest;
            && At(n, path) == At(m, rest)
            && GuardsAlong(n, path, byLog) == StepGuards(n, st, byLog) + GuardsAlong(m, rest, byLog)
  {
    assert ([st] + rest)[1..] == rest;
  }

  // ----- the guards of what encloses a place -----

  lemma {:induction false} NamedInMore(n: Node, st: Step, front: seq<PathCond>, conds: seq<PathCond>)
    requires Named(n, st, conds)
    ensures Named(n, st, front + conds)
  {
  }

  lemma {:induction false} NamedByStep(n: Node, st: Step, byLog: bool, more: seq<PathCond>)
    ensures Named(n, st, StepGuards(n, st, byLog) + more)
  {
    if n.If? || n.Ternary? || n.Loop? {
      var own := StepGuards(n, st, byLog);
      if own != [] { assert (own + more)[0] == own[0]; }
    }
  }

  lemma {:induction false} EnclosingIsNamed(n: Node, path: seq<Step>, byLog: bool, k: nat)
    requires At(n, path).Some? && k < |path|
    ensures At(n, path[..k]).Some? && Named(At(n, path[..k]).value, path[k], GuardsAlong(n, path, byLog))
    decreases k
  {
    var m, own := Below(n, path[0]).value, StepGuards(n, path[0], byLog);
    if k == 0 {
      NamedByStep(n, path[0], byLog, GuardsAlong(m, path[1..], byLog));
    } else {
      EnclosingIsNamed(m, path[1..], byLog, k - 1);
      assert path[..k][1..] == path[1..][..k - 1];
      NamedInMore(At(n, path[..k]).value, path[k], own, GuardsAlong(m, path[1..], byLog));
    }
  }

  /** Every condition and every write of the tree is recorded, conditions as controls and writes as writes, under the
      stack and under the guard of every `if`, ternary and loop it stands in, with the polarity of its branch. */
  lemma {:induction false} EveryPlaceIsRecorded(
    n: Node, path: seq<Step>, stack: seq<PathCond>, byLog: bool, control: bool, site: nat)
    returns (r: Record)
    requires At(n, path).Some? && Marked(At(n, path).value, control, site)
    ensures r in Records(n, stack, byLog) && r.control == control && r.site == site && stack <= r.conds
    ensures forall k | 0 <= k < |path| :: At(n, path[..k]).Some? && Named(At(n, path[..k]).value, path[k], r.conds)
  {
    PlaceIsRecorded(n, path, stack, byLog, control, site);
    r := Record(control, site, stack + GuardsAlong(n, path, byLog));
    forall k | 0 <= k < |path| ensures At(n, path[..k]).Some? && Named(At(n, path[..k]).value, path[k], r.conds) {
      EnclosingIsNamed(n, path, byLog, k);
      NamedInMore(At(n, path[..k]).value, path[k], stack, GuardsAlong(n, path, byLog));
    }
  }

  /** And nothing else is recorded: each record stands for such a place. */
  lemma {:induction false} EveryRecordHasPlace(n: Node, stack: seq<PathCond>, byLog: bool, r: Record)
    returns (path: seq<Step>)
    requires r in Records(n, stack, byLog)
    ensures At(n, path).Some? && Marked(At(n, path).value, r.control, r.site) && stack <= r.conds
    ensures forall k | 0 <= k < |path| :: At(n, path[..k]).Some? && Named(At(n, path[..k]).value, path[k], r.conds)
  {
    path := RecordHasPlace(n, stack, byLog, r);
    forall k | 0 <= k < |path| ensures At(n, path[..k]).Some? && Named(At(n, path[..k]).value, path[k], r.conds) {
      EnclosingIsNamed(n, path, byLog, k);
      NamedInMore(At(n, path[..k]).value, path[k], stack, GuardsAlong(n, path, byLog));
    }
  }

  // ----- every site, once for each time it is marked, in source order -----

  /** The parts of a node in source order: a `do` writes its body before its condition. */
  function Children(n: Node): (children: seq<Node>)
    ensures forall k | 0 <= k < |children| :: children[k] < n
  {
    match n
    case Block(b) => b
    case If(c, t, _, e) => if e.Some? then [c.arg, t, e.value] else [c.arg, t]
    case Ternary(c, t, e) => [c.arg, t, e]
    case Loop(k, i, c, st, b) => if k == DoLoop then [i, b, c.arg, st] else [i, c.arg, st, b]
    case DoOnce(b) => [b]
    case Exit(_, _, a) => [a]
    case Write(_, a) => [a]
    case Other(ps) => ps
  }

  /** A condition is marked before all its statement holds, a write before its operand. */
  function OwnMark(n: Node): seq<(bool, nat)>
  {
    if n.Write? then [(false, n.site)]
    else if n.If? || n.Ternary? || n.Loop? then [(true, n.cond.site)] else []
  }

  function Marks(n: Node): seq<(bool, nat)>
    decreases n, 1
  {
    OwnMark(n) + MarksBelow(n, |Children(n)|)
  }

  function MarksBelow(n: Node, k: nat): seq<(bool, nat)>
    requires k <= |Children(n)|
    decreases n, 0, k
  {
    if k == 0 then [] else MarksBelow(n, k - 1) + Marks(Children(n)[k - 1])
  }

  function MarksOf(rs: seq<Record>): seq<(bool, nat)>
  {
    seq(|rs|, k requires 0 <= k < |rs| => (rs[k].control, rs[k].site))
  }

  lemma {:induction false} MarksJoin(rs: seq<Record>, rs': seq<Record>)
    ensures MarksOf(rs + rs') == MarksOf(rs) + MarksOf(rs')
  {
  }

  /** The walk records every condition and every write exactly as often as it stands in the tree, in source order. */
  lemma {:induction false} RecordsInOrder(n: Node, stack: seq<PathCond>, byLog: bool)
    ensures MarksOf(Records(n, stack, byLog)) == Marks(n)
    decreases n, 1
  {
    match n
    case Block(b) => BlockInOrder(n, |b|, stack, byLog); assert b[..|b|] == b;
    case Other(ps) => PartsInOrder(n, |ps|, stack, byLog); assert ps[..|ps|] == ps;
    case If(_, _, _, _) => ChoiceInOrder(n, stack, byLog);
    case Ternary(_, _, _) => ChoiceInOrder(n, stack, byLog);
    case Loop(_, _, _, _, _) => LoopInOrder(n, stack, byLog);
    case DoOnce(_) => ChildInOrder(n, stack, byLog);
    case Exit(_, _, _) => ChildInOrder(n, stack, byLog);
    case Write(_, _) => ChildInOrder(n, stack, byLog);
  }

  lemma {:induction false} ChildInOrder(n: Node, stack: seq<PathCond>, byLog: bool)
    requires n.DoOnce? || n.Exit? || n.Write?
    ensures MarksOf(Records(n, stack, byLog)) == Marks(n)
    decreases n, 0
  {
    var m := Children(n)[0];
    OneChild(n);
    RecordsInOrder(m, stack, byLog);
    NothingInFront(Marks(m));
    if n.Write? { MarksJoin([Record(false, n.site, stack)], Records(m, stack, byLog)); }
  }

  lemma {:induction false} OneChild(n: Node)
    requires |Children(n)| == 1
    ensures Marks(n) == OwnMark(n) + Marks(Children(n)[0])
  {
    assert MarksBelow(n, 1) == MarksBelow(n, 0) + Marks(Children(n)[0]);
  }

  lemma {:induction false} BlockInOrder(n: Node, k: nat, stack: seq<PathCond>, byLog: bool)
    requires n.Block? && k <= |n.stmts|
    ensures MarksOf(RecordsSeq(n.stmts[..k], stack, byLog)) == MarksBelow(n, k)
    decreases n, 0, k
  {
    if k > 0 {
      var front, m := n.stmts[..k - 1], n.stmts[k - 1];
      assert n.stmts[..k] == front + [m];
      BlockInOrder(n, k - 1, stack, byLog);
      GuardWalker.RecordsSeqSnoc(front, m, stack, byLog);
      RecordsInOrder(m, stack + ImpliedBySeq(front, byLog), byLog);
      MarksJoin(RecordsSeq(front, stack, byLog), Records(m, stack + ImpliedBySeq(front, byLog), byLog));
    }
  }

  lemma {:induction false} PartsInOrder(n: Node, k: nat, stack: seq<PathCond>, byLog: bool)
    requires n.Other? && k <= |n.parts|
    ensures MarksOf(RecordsAll(n.parts[..k], stack, byLog)) == MarksBelow(n, k)
    decreases n, 0, k
  {
    if k > 0 {
      var front, m := n.parts[..k - 1], n.parts[k - 1];
      assert n.parts[..k] == front + [m];
      PartsInOrder(n, k - 1, stack, byLog);
      GuardWalker.RecordsAllSnoc(front, m, stack, byLog);
      RecordsInOrder(m, stack, byLog);
      MarksJoin(RecordsAll(front, stack, byLog), Records(m, stack, byLog));
    }
  }

  lemma {:induction false} ChoiceInOrder(n: Node, stack: seq<PathCond>, byLog: bool)
    requires n.If? || n.Ternary?
    ensures MarksOf(Records(n, stack, byLog)) == Marks(n)
    decreases n, 0, 1
  {
    var own, c := [Record(true, n.cond.site, stack)], Records(n.cond.arg, stack, byLog);
    var t, e := ThenRecords(n, stack, byLog), ElseRecords(n, stack, byLog);
    ChoiceRecords(n, stack, byLog);
    RecordsInOrder(n.cond.arg, stack, byLog);
    RecordsInOrder(n.thn, Guarded(stack, n.cond, false, KindOf(n)), byLog);
    ElseInOrder(n, stack, byLog);
    MarksOne(own[0]);
    MarksJoinFour(own, c, t, e);
    ChoiceMarks(n);
  }

  lemma {:induction false} ElseInOrder(n: Node, stack: seq<PathCond>, byLog: bool)
    requires n.If? || n.Ternary?
    ensures MarksOf(ElseRecords(n, stack, byLog)) == if ElseOf(n).Some? then Marks(ElseOf(n).value) else []
    decreases n, 0, 0
  {
    if ElseOf(n).Some? { RecordsInOrder(ElseOf(n).value, Guarded(stack, n.cond, true, KindOf(n)), byLog); }
  }

  lemma {:induction false} MarksOne(r: Record)
    ensures MarksOf([r]) == [(r.control, r.site)]
  {
  }

  lemma {:induction false} MarksJoinFour(o: seq<Record>, c: seq<Record>, t: seq<Record>, e: seq<Record>)
    ensures MarksOf(o + c + (t + e)) == MarksOf(o) + MarksOf(c) + (MarksOf(t) + MarksOf(e))
  {
    MarksJoin(o + c, t + e);
    MarksJoin(o, c);
    MarksJoin(t, e);
  }

  lemma {:induction false} ChoiceMarks(n: Node)
    requires n.If? || n.Ternary?
    ensures var e := ElseOf(n);
            Marks(n) == OwnMark(n) + Marks(n.cond.arg) + (Marks(n.thn) + (if e.Some? then Marks(e.value) else []))
  {
    var o, c, t := OwnMark(n), Marks(n.cond.arg), Marks(n.thn);
    NothingInFront(c);
    MarksStep(n, 0);
    MarksStep(n, 1);
    if ElseOf(n).Some? {
      MarksStep(n, 2);
      FourPieces(o, c, t, Marks(ElseOf(n).value));
    } else {
      FourPieces(o, c, t, []);
    }
  }

  lemma {:induction false} MarksStep(n: Node, k: nat)
    requires k < |Children(n)|
    ensures MarksBelow(n, k + 1) == MarksBelow(n, k) + Marks(Children(n)[k])
  {
  }

  lemma {:induction false} FourPieces<T>(o: seq<T>, c: seq<T>, t: seq<T>, e: seq<T>)
    ensures o + (c + t + e) == o + c + (t + e) && o + (c + t) == o + c + (t + [])
  {
  }

  lemma {:induction false} LoopInOrder(n: Node, stack: seq<PathCond>, byLog: bool)
    requires n.Loop?
    ensures MarksOf(Records(n, stack, byLog)) == Marks(n)
    decreases n, 0
  {
    var inner, ns := Guarded(stack, n.cond, false, LoopGuard(n.kind)), GuardWalker.LoopChildren(n);
    GuardWalker.LoopRecords(n, stack, byLog);
    MarksJoin([Record(true, n.cond.site, stack)], RecordsAll(ns, inner, byLog));
    ChildrenInOrder(n, |ns|, inner, byLog);
    assert ns[..|ns|] == ns;
  }

  lemma {:induction false} ChildrenInOrder(n: Node, k: nat, inner: seq<PathCond>, byLog: bool)
    requires n.Loop? && k <= |GuardWalker.LoopChildren(n)| && GuardWalker.LoopChildren(n) == Children(n)
    ensures MarksOf(RecordsAll(GuardWalker.LoopChildren(n)[..k], inner, byLog)) == MarksBelow(n, k)
    decreases n, 0, k
  {
    if k > 0 {
      var front, m := Children(n)[..k - 1], Children(n)[k - 1];
      assert Children(n)[..k] == front + [m];
      ChildrenInOrder(n, k - 1, inner, byLog);
      GuardWalker.RecordsAllSnoc(front, m, inner, byLog);
      RecordsInOrder(m, inner, byLog);
      MarksJoin(RecordsAll(front, inner, byLog), Records(m, inner, byLog));
    }
  }

  /** A site is recorded if and only if it stands in the tree. */
  lemma {:induction false} SitesAreRecorded(n: Node, stack: seq<PathCond>, byLog: bool, l: nat)
    ensures l in Sites(n) <==> exists r :: r in Records(n, stack, byLog) && r.site == l
  {
    RecordsBelow(n, stack, byLog);
    if l in Sites(n) {
      var path, control := SiteHasPlace(n, l);
      PlaceIsRecorded(n, path, stack, byLog, control, l);
    }
  }

  lemma {:induction false} SiteHasPlace(n: Node, l: nat) returns (path: seq<Step>, control: bool)
    requires l in Sites(n)
    ensures At(n, path).Some? && Marked(At(n, path).value, control, l)
    decreases n
  {
    if Marked(n, n.If? || n.Ternary? || n.Loop?, l) {
      path, control := [], n.If? || n.Ternary? || n.Loop?;
    } else {
      var st := StepToSite(n, l);
      var rest;
      rest, control := SiteHasPlace(Below(n, st).value, l);
      path := [st] + rest;
      assert path[1..] == rest;
    }
  }

  lemma {:induction false} StepToSite(n: Node, l: nat) returns (st: Step)
    requires l in Sites(n) && !Marked(n, n.If? || n.Ternary? || n.Loop?, l)
    ensures Below(n, st).Some? && l in Sites(Below(n, st).value)
  {
    match n
    case Block(b) => var k := SiteInSeq(b, l); st := Stmt(k);
    case Other(ps) => var k := SiteInSeq(ps, l); st := Part(k);
    case If(c, t, _, _) => st := if l in Sites(c.arg) then InCond else if l in Sites(t) then Then else Else;
    case Ternary(c, t, _) => st := if l in Sites(c.arg) then InCond else if l in Sites(t) then Then else Else;
    case Loop(_, i, c, s, _) =>
      st := if l in Sites(i) then Init else if l in Sites(c.arg) then InCond else if l in Sites(s) then Advance
          else Body;
    case DoOnce(_) => st := Body;
    case Exit(_, _, _) => st := Arg;
    case Write(_, _) => st := Arg;
  }

  lemma {:induction false} SiteInSeq(ns: seq<Node>, l: nat) returns (k: nat)
    requires l in SitesSeq(ns)
    ensures k < |ns| && l in Sites(ns[k])
    decreases ns
  {
    if l in Sites(ns[0]) {
      k := 0;
    } else {
      k := SiteInSeq(ns[1..], l);
      k := k + 1;
    }
  }
}
