/** Statement trees as the walker sees them, and what it claims about them.

    A libclang cursor is a `Node`; the text of a condition is identified by the
    site of the place it is written at, and the three regular expressions the
    source applies to text are booleans stored where the text is. */
module GuardSyntax {
  import opened Wrappers

  datatype ExitKind = Return | Break | Continue | Throw

  datatype LoopKind = ForLoop | RangeLoop | WhileLoop | DoLoop

  /** A condition: `readable` is false when macro expansion left no text, and
      `statusTest` is true when the text tests a status against success. `arg` is
      the condition's own subtree, which may hold writes and ternaries. */
  datatype Cond = Cond(site: nat, readable: bool, statusTest: bool, arg: Node)

  datatype Node =
    | Block(stmts: seq<Node>)
      /** `thnLogs`: the text of the then-branch calls an error logger. */
    | If(cond: Cond, thn: Node, thnLogs: bool, els: Option<Node>)
    | Ternary(cond: Cond, thn: Node, alt: Node)
    | Loop(kind: LoopKind, init: Node, cond: Cond, step: Node, body: Node)
      /** `do { ... } while (0)`, the statement-macro idiom. */
    | DoOnce(body: Node)
      /** `namesFailure`: the text of the statement names a failure code. */
    | Exit(exit: ExitKind, namesFailure: bool, arg: Node)
    | Write(site: nat, arg: Node)
      /** Every other cursor: the walker only visits its children. */
    | Other(parts: seq<Node>)

  datatype GuardKind = IfKind | TernaryKind | GuardClause | Bailout | LoopGuard(loop: LoopKind)

  /** Guard text: a condition, or `!(outer) || inner`. */
  datatype Text = Is(site: nat, readable: bool) | Unless(outer: nat, inner: PathCond)

  datatype PathCond = PathCond(text: Text, negated: bool, kind: GuardKind)
  {
    predicate IsOpaque() { text.Is? && !text.readable }
  }

  /** What the walker stores for a write or a control statement. */
  datatype Record = Record(control: bool, site: nat, conds: seq<PathCond>)

  datatype Link = Link(cond: Cond, body: Node, logs: bool)

  // ----- sites -----

  /** Every site below a node. */
  function Sites(n: Node): set<nat>
    decreases n, 0
  {
    match n
    case Block(b) => SitesSeq(b)
    case If(c, t, _, e) => CondSites(c) + Sites(t) + (if e.Some? then Sites(e.value) else {})
    case Ternary(c, t, e) => CondSites(c) + Sites(t) + Sites(e)
    case Loop(_, i, c, st, b) => Sites(i) + CondSites(c) + Sites(st) + Sites(b)
    case DoOnce(b) => Sites(b)
    case Exit(_, _, a) => Sites(a)
    case Write(l, a) => {l} + Sites(a)
    case Other(ps) => SitesSeq(ps)
  }

  function CondSites(c: Cond): set<nat>
    decreases c, 0
  {
    {c.site} + Sites(c.arg)
  }

  function SitesSeq(ns: seq<Node>): set<nat>
    decreases ns, 0
  {
    if ns == [] then {} else Sites(ns[0]) + SitesSeq(ns[1..])
  }

  /** No two conditions or writes below a node carry the same site. */
  ghost predicate Distinct(n: Node)
    decreases n, 0
  {
    match n
    case Block(b) => DistinctSeq(b)
    case If(c, t, _, e) =>
      && DistinctCond(c) && Distinct(t) && CondSites(c) !! Sites(t)
      && (e.Some? ==> Distinct(e.value) && Sites(e.value) !! CondSites(c) + Sites(t))
    case Ternary(c, t, e) =>
      && DistinctCond(c) && Distinct(t) && Distinct(e)
      && CondSites(c) !! Sites(t) && Sites(e) !! CondSites(c) + Sites(t)
    case Loop(_, i, c, st, b) =>
      && Distinct(i) && DistinctCond(c) && Distinct(st) && Distinct(b)
      && CondSites(c) !! Sites(i)
      && Sites(st) !! Sites(i) + CondSites(c)
      && Sites(b) !! Sites(i) + CondSites(c) + Sites(st)
    case DoOnce(b) => Distinct(b)
    case Exit(_, _, a) => Distinct(a)
    case Write(l, a) => l !in Sites(a) && Distinct(a)
    case Other(ps) => DistinctSeq(ps)
  }

  ghost predicate DistinctCond(c: Cond)
    decreases c, 0
  {
    c.site !in Sites(c.arg) && Distinct(c.arg)
  }

  ghost predicate DistinctSeq(ns: seq<Node>)
    decreases ns, 0
  {
    ns == [] || (Distinct(ns[0]) && Sites(ns[0]) !! SitesSeq(ns[1..]) && DistinctSeq(ns[1..]))
  }

  // ----- what an early exit implies -----

  /** The statement that unconditionally leaves this block, if there is one. */
  function ExitStatement(n: Node): (r: Option<Node>)
    ensures r.Some? ==> r.value.Exit?
  {
    match n
    case Exit(_, _, _) => Some(n)
    case Block(b) => if b == [] then None else ExitStatement(b[|b| - 1])
    case _ => None
  }

  /** The links of an `if / else if / ...` chain. */
  function Links(n: Node): (ls: seq<Link>)
    ensures n.If? ==> |ls| > 0 && ls[0] == Link(n.cond, n.thn, n.thnLogs)
  {
    if n.If? then
      [Link(n.cond, n.thn, n.thnLogs)] + (if n.els.Some? then Links(n.els.value) else [])
    else []
  }

  /** The plain `else` a chain ends with, if it has one. */
  function Tail(n: Node): Option<Node>
  {
    if n.If? then (if n.els.Some? then Tail(n.els.value) else None) else Some(n)
  }

  predicate Leaves(n: Node) { ExitStatement(n).Some? }

  predicate AllLeave(ls: seq<Link>) { forall k | 0 <= k < |ls| :: Leaves(ls[k].body) }

  /** The branch rejects the input rather than handling a case. */
  predicate Refuses(l: Link, byLog: bool)
  {
    var e := ExitStatement(l.body);
    e.Some? && (e.value.namesFailure || (byLog && l.logs))
  }

  predicate StatusOpaque(c: Cond) { c.readable && c.statusTest }

  /** Every link leaves, is readable, and neither rejects nor tests a status. */
  predicate WholeChain(ls: seq<Link>, byLog: bool)
  {
    && |ls| > 1
    && AllLeave(ls)
    && (forall k | 0 <= k < |ls| :: ls[k].cond.readable)
    && !(exists k | 0 <= k < |ls| :: Refuses(ls[k], byLog))
    && !(exists k | 0 <= k < |ls| :: StatusOpaque(ls[k].cond))
  }

  function Negation(c: Cond, kind: GuardKind): PathCond
  {
    PathCond(Is(c.site, c.readable), true, kind)
  }

  function Negations(ls: seq<Link>): seq<PathCond>
  {
    seq(|ls|, k requires 0 <= k < |ls| => Negation(ls[k].cond, IfKind))
  }

  function UnlessEach(outer: nat, inner: seq<PathCond>): seq<PathCond>
  {
    if inner == [] then []
    else
      (if inner[0].IsOpaque() then [] else [PathCond(Unless(outer, inner[0]), false, Bailout)])
      + UnlessEach(outer, inner[1..])
  }

  /** The conditions that hold for whatever follows this `if`. */
  function GuardClauseNegations(n: Node, byLog: bool): seq<PathCond>
    decreases n, 2
  {
    if !n.If? then []
    else
      var ls, tail := Links(n), Tail(n);
      if !Leaves(ls[0].body) then ImpliedByNestedGuards(n, byLog)
      else if AllLeave(ls) && tail.Some? && Leaves(tail.value) then []
      else if WholeChain(ls, byLog) then Negations(ls)
      else if !ls[0].cond.readable || StatusOpaque(ls[0].cond) then []
      else if Refuses(ls[0], byLog) then [Negation(ls[0].cond, Bailout)]
      else [Negation(ls[0].cond, if |ls| > 1 || tail.Some? then GuardClause else IfKind)]
  }

  /** `!(outer) || inner` for every link and every guard one level inside it. */
  function ImpliedByNestedGuards(n: Node, byLog: bool): seq<PathCond>
    decreases n, 1
  {
    if !n.If? then []
    else
      (if n.cond.readable then UnlessEach(n.cond.site, ExitsInside(n.thn, byLog)) else [])
      + (if n.els.Some? then ImpliedByNestedGuards(n.els.value, byLog) else [])
  }

  /** Guards one level in that leave the function, as negations. */
  function ExitsInside(body: Node, byLog: bool): seq<PathCond>
    decreases body, 3
  {
    if body.Block? then ImpliedBySeq(body.stmts, byLog) else GuardClauseNegations(body, byLog)
  }

  /** What a run of sibling statements implies for the statement after them. */
  function ImpliedBySeq(ns: seq<Node>, byLog: bool): seq<PathCond>
    decreases ns, 0
  {
    if ns == [] then []
    else GuardClauseNegations(ns[0], byLog) + ImpliedBySeq(ns[1..], byLog)
  }

  // ----- the walk -----

  function Guarded(stack: seq<PathCond>, c: Cond, negated: bool, kind: GuardKind): seq<PathCond>
  {
    stack + [PathCond(Is(c.site, c.readable), negated, kind)]
  }

  /** Everything the walk records below a node, in order. */
  function Records(n: Node, stack: seq<PathCond>, byLog: bool): seq<Record>
    decreases n, 0
  {
    match n
    case Block(b) => RecordsSeq(b, stack, byLog)
    case If(c, t, _, e) =>
      [Record(true, c.site, stack)]
      + Records(c.arg, stack, byLog)
      + Records(t, Guarded(stack, c, false, IfKind), byLog)
      + (if e.Some? then Records(e.value, Guarded(stack, c, true, IfKind), byLog) else [])
    case Ternary(c, t, e) =>
      [Record(true, c.site, stack)]
      + Records(c.arg, stack, byLog)
      + Records(t, Guarded(stack, c, false, TernaryKind), byLog)
      + Records(e, Guarded(stack, c, true, TernaryKind), byLog)
    case Loop(k, i, c, st, b) =>
      var inner := Guarded(stack, c, false, LoopGuard(k));
      [Record(true, c.site, stack)]
      + (if k.DoLoop? then
           Records(i, inner, byLog) + Records(b, inner, byLog)
           + Records(c.arg, inner, byLog) + Records(st, inner, byLog)
         else
           Records(i, inner, byLog) + Records(c.arg, inner, byLog)
           + Records(st, inner, byLog) + Records(b, inner, byLog))
    case DoOnce(b) => Records(b, stack, byLog)
    case Exit(_, _, a) => Records(a, stack, byLog)
    case Write(l, a) => [Record(false, l, stack)] + Records(a, stack, byLog)
    case Other(ps) => RecordsAll(ps, stack, byLog)
  }

  /** A block: each statement adds what it implies for the ones after it. */
  function RecordsSeq(ns: seq<Node>, stack: seq<PathCond>, byLog: bool): seq<Record>
    decreases ns, 0
  {
    if ns == [] then []
    else
      Records(ns[0], stack, byLog)
      + RecordsSeq(ns[1..], stack + GuardClauseNegations(ns[0], byLog), byLog)
  }

  /** Any other parent: every child is walked under the same stack. */
  function RecordsAll(ns: seq<Node>, stack: seq<PathCond>, byLog: bool): seq<Record>
    decreases ns, 0
  {
    if ns == [] then [] else Records(ns[0], stack, byLog) + RecordsAll(ns[1..], stack, byLog)
  }

  // ----- an `if` and a ternary alike -----

  function ElseOf(n: Node): Option<Node>
    requires n.If? || n.Ternary?
  {
    if n.If? then n.els else Some(n.alt)
  }

  function KindOf(n: Node): GuardKind { if n.If? then IfKind else TernaryKind }

  function ThenRecords(n: Node, stack: seq<PathCond>, byLog: bool): seq<Record>
    requires n.If? || n.Ternary?
  {
    Records(n.thn, Guarded(stack, n.cond, false, KindOf(n)), byLog)
  }

  function ElseRecords(n: Node, stack: seq<PathCond>, byLog: bool): seq<Record>
    requires n.If? || n.Ternary?
  {
    if ElseOf(n).Some? then Records(ElseOf(n).value, Guarded(stack, n.cond, true, KindOf(n)), byLog) else []
  }

  function ElseSites(n: Node): set<nat>
    requires n.If? || n.Ternary?
  {
    if ElseOf(n).Some? then Sites(ElseOf(n).value) else {}
  }

  lemma {:induction false} ChoiceRecords(n: Node, stack: seq<PathCond>, byLog: bool)
    requires n.If? || n.Ternary?
    ensures Records(n, stack, byLog) ==
            [Record(true, n.cond.site, stack)] + Records(n.cond.arg, stack, byLog)
            + (ThenRecords(n, stack, byLog) + ElseRecords(n, stack, byLog))
  {
    var own := [Record(true, n.cond.site, stack)] + Records(n.cond.arg, stack, byLog);
    var thn, alt := ThenRecords(n, stack, byLog), ElseRecords(n, stack, byLog);
    assert own + thn + alt == own + (thn + alt);
  }
}
