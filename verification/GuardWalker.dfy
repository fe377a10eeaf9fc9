/** The walker itself: it appends to its lists while it descends, and builds the
    negations for later siblings in loops. Its methods compute `Records` and
    `GuardClauseNegations`, about which the other modules speak. */
module GuardWalker {
  import opened Wrappers
  import opened GuardSyntax
  import opened Sequences

  // ----- sizes, for the mutually recursive methods -----

  ghost function Size(n: Node): nat
    decreases n, 0
  {
    match n
    case Block(b) => 1 + SizeSeq(b)
    case If(c, t, _, e) => 1 + Size(t) + (if e.Some? then Size(e.value) else 0)
    case _ => 1
  }

  ghost function SizeSeq(ns: seq<Node>): nat
    decreases ns, 0
  {
    if ns == [] then 0 else Size(ns[0]) + SizeSeq(ns[1..])
  }

  lemma {:induction false} PartSize(ns: seq<Node>, k: nat)
    requires k < |ns|
    ensures Size(ns[k]) <= SizeSeq(ns)
    decreases ns
  {
    if k > 0 { PartSize(ns[1..], k - 1); }
  }

  // ----- what an early exit implies -----

  method ElseIfChain(stmt: Node) returns (links: seq<Link>, tail: Option<Node>)
    ensures links == Links(stmt) && tail == Tail(stmt)
  {
    links := [];
    var node := Some(stmt);
    while node.Some? && node.value.If?
      invariant Links(stmt) == links + (if node.Some? then Links(node.value) else [])
      invariant Tail(stmt) == if node.Some? then Tail(node.value) else None
      decreases node
    {
      ChainStep(links, node.value);
      links := links + [Link(node.value.cond, node.value.thn, node.value.thnLogs)];
      node := node.value.els;
    }
    tail := node;
  }

  lemma {:induction false} ChainStep(links: seq<Link>, n: Node)
    requires n.If?
    ensures links + Links(n) ==
            links + [Link(n.cond, n.thn, n.thnLogs)] + (if n.els.Some? then Links(n.els.value) else [])
    ensures Tail(n) == if n.els.Some? then Tail(n.els.value) else None
  {
  }

  lemma {:induction false} ImpliedHead(n: Node, ns: seq<Node>, byLog: bool)
    ensures ImpliedBySeq([n] + ns, byLog) == GuardClauseNegations(n, byLog) + ImpliedBySeq(ns, byLog)
  {
    assert ([n] + ns)[1..] == ns;
  }

  lemma {:induction false} ImpliedSnoc(ns: seq<Node>, n: Node, byLog: bool)
    ensures ImpliedBySeq(ns + [n], byLog) == ImpliedBySeq(ns, byLog) + GuardClauseNegations(n, byLog)
    decreases ns
  {
    if ns == [] {
      assert ns + [n] == [n] + [];
      ImpliedHead(n, [], byLog);
    } else {
      ImpliedSnoc(ns[1..], n, byLog);
      assert ns + [n] == [ns[0]] + (ns[1..] + [n]) && ns == [ns[0]] + ns[1..];
      ImpliedHead(ns[0], ns[1..] + [n], byLog);
      ImpliedHead(ns[0], ns[1..], byLog);
      Regroup(GuardClauseNegations(ns[0], byLog), ImpliedBySeq(ns[1..], byLog), GuardClauseNegations(n, byLog));
    }
  }

  lemma {:induction false} OnlyIfsImply(n: Node, byLog: bool)
    ensures !n.If? ==> GuardClauseNegations(n, byLog) == []
  {
  }

  lemma {:induction false} InsideBlock(body: Node, byLog: bool)
    ensures ExitsInside(body, byLog) ==
            if body.Block? then ImpliedBySeq(body.stmts, byLog) else GuardClauseNegations(body, byLog)
  {
  }

  method ExitsInsideOf(body: Node, byLog: bool) returns (out: seq<PathCond>)
    ensures out == ExitsInside(body, byLog)
    decreases Size(body), 2
  {
    InsideBlock(body, byLog);
    if body.Block? { out := ImpliedByStatements(body.stmts, byLog); } else { out := NegationsOf(body, byLog); }
  }

  method ImpliedByStatements(stmts: seq<Node>, byLog: bool) returns (out: seq<PathCond>)
    ensures out == ImpliedBySeq(stmts, byLog)
    decreases SizeSeq(stmts), 2
  {
    out := [];
    for i := 0 to |stmts|
      invariant out == ImpliedBySeq(stmts[..i], byLog)
    {
      ImpliedSnoc(stmts[..i], stmts[i], byLog);
      assert stmts[..i] + [stmts[i]] == stmts[..i + 1];
      OnlyIfsImply(stmts[i], byLog);
      PartSize(stmts, i);
      if stmts[i].If? {
        var more := NegationsOf(stmts[i], byLog);
        out := out + more;
      }
    }
    assert stmts[..|stmts|] == stmts;
  }

  lemma {:induction false} UnlessEachStep(outer: nat, inner: seq<PathCond>, j: nat, out: seq<PathCond>)
    requires j < |inner|
    ensures out + UnlessEach(outer, inner[j..]) ==
            (if inner[j].IsOpaque() then out else out + [PathCond(Unless(outer, inner[j]), false, Bailout)])
            + UnlessEach(outer, inner[j + 1..])
  {
    assert inner[j..][0] == inner[j] && inner[j..][1..] == inner[j + 1..];
  }

  method UnlessEachOf(outer: nat, inner: seq<PathCond>) returns (out: seq<PathCond>)
    ensures out == UnlessEach(outer, inner)
  {
    out := [];
    for j := 0 to |inner|
      invariant UnlessEach(outer, inner) == out + UnlessEach(outer, inner[j..])
    {
      UnlessEachStep(outer, inner, j, out);
      if !inner[j].IsOpaque() { out := out + [PathCond(Unless(outer, inner[j]), false, Bailout)]; }
    }
  }

  /** What one link of a chain implies for later siblings, and what all of them do. */
  ghost function LinkImplies(l: Link, byLog: bool): seq<PathCond>
  {
    if l.cond.readable then UnlessEach(l.cond.site, ExitsInside(l.body, byLog)) else []
  }

  ghost function LinksImply(ls: seq<Link>, byLog: bool): seq<PathCond>
  {
    if ls == [] then [] else LinkImplies(ls[0], byLog) + LinksImply(ls[1..], byLog)
  }

  lemma {:induction false} LinksImplyFrom(ls: seq<Link>, k: nat, byLog: bool, out: seq<PathCond>)
    requires k < |ls|
    ensures out + LinksImply(ls[k..], byLog) == (out + LinkImplies(ls[k], byLog)) + LinksImply(ls[k + 1..], byLog)
  {
    assert ls[k..][1..] == ls[k + 1..];
    Regroup(out, LinkImplies(ls[k], byLog), LinksImply(ls[k + 1..], byLog));
  }

  lemma {:induction false} NestedAreLinks(n: Node, byLog: bool)
    ensures ImpliedByNestedGuards(n, byLog) == LinksImply(Links(n), byLog)
    decreases n
  {
    if n.If? {
      if n.els.Some? {
        NestedAreLinks(n.els.value, byLog);
        assert Links(n)[1..] == Links(n.els.value);
      } else {
        assert Links(n)[1..] == [];
      }
    }
  }

  lemma {:induction false} LinkSize(n: Node)
    ensures forall k | 0 <= k < |Links(n)| :: Size(Links(n)[k].body) < Size(n)
    decreases n
  {
    if n.If? && n.els.Some? { LinkSize(n.els.value); }
  }

  method ImpliedByNestedGuardsOf(stmt: Node, links: seq<Link>, byLog: bool) returns (out: seq<PathCond>)
    requires links == Links(stmt)
    ensures out == ImpliedByNestedGuards(stmt, byLog)
    decreases Size(stmt), 0
  {
    out := [];
    LinkSize(stmt);
    NestedAreLinks(stmt, byLog);
    for i := 0 to |links|
      invariant out + LinksImply(links[i..], byLog) == LinksImply(links, byLog)
    {
      LinksImplyFrom(links, i, byLog, out);
      var more := LinkImpliesOf(links[i], byLog);
      out := out + more;
    }
  }

  method LinkImpliesOf(link: Link, byLog: bool) returns (out: seq<PathCond>)
    ensures out == LinkImplies(link, byLog)
    decreases Size(link.body), 3
  {
    out := [];
    if link.cond.readable {
      var inner := ExitsInsideOf(link.body, byLog);
      out := UnlessEachOf(link.cond.site, inner);
    }
  }

  method NegationsOf(stmt: Node, byLog: bool) returns (out: seq<PathCond>)
    ensures out == GuardClauseNegations(stmt, byLog)
    decreases Size(stmt), 1
  {
    if !stmt.If? { return []; }
    var links, tail := ElseIfChain(stmt);
    if ExitStatement(links[0].body).None? {
      out := ImpliedByNestedGuardsOf(stmt, links, byLog);
      return;
    }
    if AllLeave(links) && tail.Some? && ExitStatement(tail.value).Some? { return []; }
    if WholeChain(links, byLog) {
      out := [];
      for k := 0 to |links|
        invariant out == Negations(links)[..k]
      {
        out := out + [PathCond(Is(links[k].cond.site, links[k].cond.readable), true, IfKind)];
      }
      return;
    }
    var first := links[0].cond;
    if !first.readable || StatusOpaque(first) { return []; }
    if Refuses(links[0], byLog) {
      return [PathCond(Is(first.site, first.readable), true, Bailout)];
    }
    var trailing := |links| > 1 || tail.Some?;
    return [PathCond(Is(first.site, first.readable), true, if trailing then GuardClause else IfKind)];
  }

  // ----- the walk -----

  /** The records of one kind, in order. */
  function Only(control: bool, rs: seq<Record>): seq<Record>
  {
    if rs == [] then []
    else (if rs[0].control == control then [rs[0]] else []) + Only(control, rs[1..])
  }

  lemma {:induction false} OnlyJoin(control: bool, rs: seq<Record>, rs': seq<Record>)
    ensures Only(control, rs + rs') == Only(control, rs) + Only(control, rs')
    decreases rs
  {
    if rs == [] {
      assert rs + rs' == rs';
    } else {
      OnlyJoin(control, rs[1..], rs');
      assert (rs + rs')[0] == rs[0] && (rs + rs')[1..] == rs[1..] + rs';
      var first := if rs[0].control == control then [rs[0]] else [];
      assert first + (Only(control, rs[1..]) + Only(control, rs')) ==
          first + Only(control, rs[1..]) + Only(control, rs');
    }
  }

  class Walker {
    var writes: seq<Record>
    var controls: seq<Record>
    const logsRejections: bool

    constructor (logsRejections: bool)
      ensures writes == [] && controls == [] && this.logsRejections == logsRejections
    {
      writes, controls := [], [];
      this.logsRejections := logsRejections;
    }

    /** Both lists, once `rs` is appended to each according to kind. */
    ghost predicate After(ws: seq<Record>, cs: seq<Record>, rs: seq<Record>)
      reads this
    {
      writes == ws + Only(false, rs) && controls == cs + Only(true, rs)
    }

    lemma {:induction false} AfterJoin(ws: seq<Record>, cs: seq<Record>, rs: seq<Record>, rs': seq<Record>)
      requires After(ws + Only(false, rs), cs + Only(true, rs), rs')
      ensures After(ws, cs, rs + rs')
    {
      OnlyJoin(false, rs, rs');
      OnlyJoin(true, rs, rs');
    }

    method RecordControl(site: nat, stack: seq<PathCond>)
      modifies this
      ensures After(old(writes), old(controls), [Record(true, site, stack)])
    {
      controls := controls + [Record(true, site, stack)];
    }

    method RecordWrite(site: nat, stack: seq<PathCond>)
      modifies this
      ensures After(old(writes), old(controls), [Record(false, site, stack)])
    {
      writes := writes + [Record(false, site, stack)];
    }

    /** Appends a record for every write and control statement below the cursor, each with its guards. */
    method Walk(cursor: Node, stack: seq<PathCond>)
      modifies this
      ensures After(old(writes), old(controls), Records(cursor, stack, logsRejections))
      decreases cursor, 1
    {
      match cursor
      case Block(b) => WalkBlock(cursor, stack);
      case If(_, _, _, _) => WalkChoice(cursor, stack);
      case Ternary(_, _, _) => WalkChoice(cursor, stack);
      case Loop(_, _, _, _, _) => WalkLoop(cursor, stack);
      case DoOnce(body) =>
        Walk(body, stack);
      case Exit(_, _, a) =>
        Walk(a, stack);
      case Write(l, a) =>
        RecordWrite(l, stack);
        Walk(a, stack);
        AfterJoin(old(writes), old(controls), [Record(false, l, stack)], Records(a, stack, logsRejections));
      case Other(ps) =>
        ghost var ws, cs := writes, controls;
        for i := 0 to |ps|
          invariant After(ws, cs, RecordsAll(ps[..i], stack, logsRejections))
        {
          Walk(ps[i], stack);
          AfterJoin(ws, cs, RecordsAll(ps[..i], stack, logsRejections), Records(ps[i], stack, logsRejections));
          RecordsAllSnoc(ps[..i], ps[i], stack, logsRejections);
          assert ps[..i] + [ps[i]] == ps[..i + 1];
        }
        assert ps[..|ps|] == ps;
    }

    /** A block: what each statement implies guards the statements after it. */
    method WalkBlock(cursor: Node, stack: seq<PathCond>)
      requires cursor.Block?
      modifies this
      ensures After(old(writes), old(controls), RecordsSeq(cursor.stmts, stack, logsRejections))
      decreases cursor, 0
    {
      var b := cursor.stmts;
      var implied: seq<PathCond> := [];
      ghost var ws, cs := writes, controls;
      for i := 0 to |b|
        invariant implied == ImpliedBySeq(b[..i], logsRejections)
        invariant After(ws, cs, RecordsSeq(b[..i], stack, logsRejections))
      {
        Walk(b[i], stack + implied);
        AfterJoin(ws, cs, RecordsSeq(b[..i], stack, logsRejections), Records(b[i], stack + implied, logsRejections));
        RecordsSeqSnoc(b[..i], b[i], stack, logsRejections);
        assert b[..i] + [b[i]] == b[..i + 1];
        var more := NegationsOf(b[i], logsRejections);
        ImpliedSnoc(b[..i], b[i], logsRejections);
        implied := implied + more;
      }
      assert b[..|b|] == b;
    }

    /** An `if` or a ternary: both polarities of the condition guard the branches. */
    method WalkChoice(cursor: Node, stack: seq<PathCond>)
      requires cursor.If? || cursor.Ternary?
      modifies this
      ensures After(old(writes), old(controls), Records(cursor, stack, logsRejections))
      decreases cursor, 0
    {
      var c, e := cursor.cond, ElseOf(cursor);
      var kind := if cursor.If? then IfKind else TernaryKind;
      ghost var ws, cs := writes, controls;
      ghost var own := [Record(true, c.site, stack)];
      RecordControl(c.site, stack);
      Walk(c.arg, stack);
      AfterJoin(ws, cs, own, Records(c.arg, stack, logsRejections));
      own := own + Records(c.arg, stack, logsRejections);
      ghost var ws', cs' := writes, controls;
      Walk(cursor.thn, stack + [PathCond(Is(c.site, c.readable), false, kind)]);
      if e.Some? {
        Walk(e.value, stack + [PathCond(Is(c.site, c.readable), true, kind)]);
      }
      AfterJoin(ws', cs', ThenRecords(cursor, stack, logsRejections), ElseRecords(cursor, stack, logsRejections));
      AfterJoin(ws, cs, own, ThenRecords(cursor, stack, logsRejections) + ElseRecords(cursor, stack, logsRejections));
      ChoiceRecords(cursor, stack, logsRejections);
    }

    lemma {:induction false} AfterChild(
      ws: seq<Record>, cs: seq<Record>, children: seq<Node>, i: nat, inner: seq<PathCond>)
      requires i < |children|
      requires var rs := RecordsAll(children[..i], inner, logsRejections);
               After(ws + Only(false, rs), cs + Only(true, rs), Records(children[i], inner, logsRejections))
      ensures After(ws, cs, RecordsAll(children[..i + 1], inner, logsRejections))
    {
      AfterJoin(ws, cs, RecordsAll(children[..i], inner, logsRejections), Records(children[i], inner, logsRejections));
      RecordsAllSnoc(children[..i], children[i], inner, logsRejections);
      assert children[..i] + [children[i]] == children[..i + 1];
    }

    /** A loop: every child is walked under a guard that names the loop. */
    method WalkLoop(cursor: Node, stack: seq<PathCond>)
      requires cursor.Loop?
      modifies this
      ensures After(old(writes), old(controls), Records(cursor, stack, logsRejections))
      decreases cursor, 0
    {
      var c := cursor.cond;
      ghost var ws, cs := writes, controls;
      RecordControl(c.site, stack);
      ghost var ws', cs' := writes, controls;
      var inner := stack + [PathCond(Is(c.site, c.readable), false, LoopGuard(cursor.kind))];
      var children := LoopChildren(cursor);
      assert After(ws', cs', RecordsAll(children[..0], inner, logsRejections));
      for i := 0 to |children|
        invariant After(ws', cs', RecordsAll(children[..i], inner, logsRejections))
      {
        Walk(children[i], inner);
        AfterChild(ws', cs', children, i, inner);
      }
      assert children[..|children|] == children;
      AfterJoin(ws, cs, [Record(true, c.site, stack)], RecordsAll(children, inner, logsRejections));
      LoopRecords(cursor, stack, logsRejections);
    }
  }

  /** The children of a loop cursor in source order: only a `do` writes its body first. */
  function LoopChildren(n: Node): (children: seq<Node>)
    requires n.Loop?
    ensures forall k | 0 <= k < |children| :: children[k] in {n.init, n.cond.arg, n.step, n.body}
  {
    if n.kind.DoLoop? then [n.init, n.body, n.cond.arg, n.step] else [n.init, n.cond.arg, n.step, n.body]
  }

  lemma {:induction false} LoopRecords(n: Node, stack: seq<PathCond>, byLog: bool)
    requires n.Loop?
    ensures Records(n, stack, byLog) ==
            [Record(true, n.cond.site, stack)]
            + RecordsAll(LoopChildren(n), Guarded(stack, n.cond, false, LoopGuard(n.kind)), byLog)
  {
    var ns, inner := LoopChildren(n), Guarded(stack, n.cond, false, LoopGuard(n.kind));
    assert ns == [ns[0], ns[1], ns[2], ns[3]];
    FourChildren(ns[0], ns[1], ns[2], ns[3], inner, byLog);
  }

  lemma {:induction false} RecordsSeqHead(n: Node, ns: seq<Node>, stack: seq<PathCond>, byLog: bool)
    ensures RecordsSeq([n] + ns, stack, byLog) ==
            Records(n, stack, byLog) + RecordsSeq(ns, stack + GuardClauseNegations(n, byLog), byLog)
  {
    assert ([n] + ns)[1..] == ns;
  }

  lemma {:induction false} RecordsSeqSnoc(ns: seq<Node>, n: Node, stack: seq<PathCond>, byLog: bool)
    ensures RecordsSeq(ns + [n], stack, byLog) ==
            RecordsSeq(ns, stack, byLog) + Records(n, stack + ImpliedBySeq(ns, byLog), byLog)
    decreases ns
  {
    if ns == [] {
      assert ns + [n] == [n] + [] && stack + [] == stack;
      RecordsSeqHead(n, [], stack, byLog);
    } else {
      var m, rest := ns[0], ns[1..];
      var longer := stack + GuardClauseNegations(m, byLog);
      RecordsSeqSnoc(rest, n, longer, byLog);
      HeadTail(ns);
      Regroup([m], rest, [n]);
      RecordsSeqHead(m, rest + [n], stack, byLog);
      RecordsSeqHead(m, rest, stack, byLog);
      ImpliedHead(m, rest, byLog);
      Regroup(stack, GuardClauseNegations(m, byLog), ImpliedBySeq(rest, byLog));
      Regroup(Records(m, stack, byLog), RecordsSeq(rest, longer, byLog),
          Records(n, longer + ImpliedBySeq(rest, byLog), byLog));
    }
  }

  lemma {:induction false} RecordsAllSnoc(ns: seq<Node>, n: Node, stack: seq<PathCond>, byLog: bool)
    ensures RecordsAll(ns + [n], stack, byLog) == RecordsAll(ns, stack, byLog) + Records(n, stack, byLog)
    decreases ns
  {
    if ns == [] {
      assert ns + [n] == [n] && [n][1..] == [];
    } else {
      RecordsAllSnoc(ns[1..], n, stack, byLog);
      assert (ns + [n])[1..] == ns[1..] + [n];
    }
  }

  lemma {:induction false} FourChildren(a: Node, b: Node, c: Node, d: Node, stack: seq<PathCond>, byLog: bool)
    ensures RecordsAll([a, b, c, d], stack, byLog) ==
            Records(a, stack, byLog) + Records(b, stack, byLog) + Records(c, stack, byLog) + Records(d, stack, byLog)
  {
    RecordsAllSnoc([a, b, c], d, stack, byLog);
    RecordsAllSnoc([a, b], c, stack, byLog);
    RecordsAllSnoc([a], b, stack, byLog);
    RecordsAllSnoc([], a, stack, byLog);
    assert [a, b, c] + [d] == [a, b, c, d] && [a, b] + [c] == [a, b, c] && [a] + [b] == [a, b] && [] + [a] == [a];
  }
}
