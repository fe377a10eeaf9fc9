/** When a statement claims something for its later siblings, and under which kind, told along the `else` branches. */
module GuardKinds {
  import opened Wrappers
  import opened GuardSyntax
  import opened Sequences

  // ----- the chain, branch by branch -----

  /** Every branch of the chain leaves, a trailing `else` included: nothing after it is reached. */
  predicate EveryWayLeaves(n: Node)
  {
    if n.If? then Leaves(n.thn) && n.els.Some? && EveryWayLeaves(n.els.value) else Leaves(n)
  }

  /** The branch names a failure where it leaves, or logs one where that counts. */
  predicate Rejects(n: Node, byLog: bool)
    requires n.If?
  {
    var e := ExitStatement(n.thn);
    e.Some? && (e.value.namesFailure || (byLog && n.thnLogs))
  }

  /** Every link leaves on a condition that can be read and tests no status, and rejects nothing. */
  predicate EveryLinkDecides(n: Node, byLog: bool)
    requires n.If?
  {
    && n.cond.readable && !n.cond.statusTest && Leaves(n.thn) && !Rejects(n, byLog)
    && (n.els.Some? && n.els.value.If? ==> EveryLinkDecides(n.els.value, byLog))
  }

  /** The negation of every link's condition, in order. */
  function ChainNegations(n: Node): seq<PathCond>
    requires n.If?
  {
    [PathCond(Is(n.cond.site, n.cond.readable), true, IfKind)]
    + (if n.els.Some? && n.els.value.If? then ChainNegations(n.els.value) else [])
  }

  // ----- the same, link by link -----

  lemma {:induction false} EveryWayIff(n: Node)
    ensures EveryWayLeaves(n) <==> AllLeave(Links(n)) && Tail(n).Some? && Leaves(Tail(n).value)
    decreases n
  {
    if n.If? {
      var ls := Links(n);
      if n.els.Some? {
        EveryWayIff(n.els.value);
        assert forall k | 0 < k < |ls| :: ls[k] == Links(n.els.value)[k - 1];
        assert forall k | 0 <= k < |Links(n.els.value)| :: Links(n.els.value)[k] == ls[k + 1];
      }
    }
  }

  /** What a chain needs of each link for all of them to be negated. */
  predicate Decides(l: Link, byLog: bool)
  {
    l.cond.readable && !StatusOpaque(l.cond) && Leaves(l.body) && !Refuses(l, byLog)
  }

  predicate AllDecide(ls: seq<Link>, byLog: bool) { forall k | 0 <= k < |ls| :: Decides(ls[k], byLog) }

  lemma {:induction false} AllDecideJoin(l: Link, ls: seq<Link>, byLog: bool)
    ensures AllDecide([l] + ls, byLog) <==> Decides(l, byLog) && AllDecide(ls, byLog)
  {
    var all := [l] + ls;
    assert all[0] == l && all[1..] == ls;
    if AllDecide(all, byLog) {
      assert Decides(all[0], byLog);
      forall k | 0 <= k < |ls| ensures Decides(ls[k], byLog) { assert ls[k] == all[k + 1]; }
    }
  }

  lemma {:induction false} EveryLinkIff(n: Node, byLog: bool)
    requires n.If?
    ensures EveryLinkDecides(n, byLog) <==> AllDecide(Links(n), byLog)
    decreases n
  {
    var rest := if n.els.Some? then Links(n.els.value) else [];
    var l := Link(n.cond, n.thn, n.thnLogs);
    AllDecideJoin(l, rest, byLog);
    assert Decides(l, byLog) <==> n.cond.readable && !n.cond.statusTest && Leaves(n.thn) && !Rejects(n, byLog);
    if n.els.Some? && n.els.value.If? {
      EveryLinkIff(n.els.value, byLog);
    } else {
      assert rest == [];
    }
  }

  lemma {:induction false} WholeChainIff(ls: seq<Link>, byLog: bool)
    ensures WholeChain(ls, byLog) <==> |ls| > 1 && AllDecide(ls, byLog)
  {
    if WholeChain(ls, byLog) {
      forall k | 0 <= k < |ls| ensures Decides(ls[k], byLog) {}
    }
    if AllDecide(ls, byLog) {
      forall k | 0 <= k < |ls| ensures Leaves(ls[k].body) && ls[k].cond.readable { assert Decides(ls[k], byLog); }
      forall k | 0 <= k < |ls| ensures !Refuses(ls[k], byLog) && !StatusOpaque(ls[k].cond) {
        assert Decides(ls[k], byLog);
      }
    }
  }

  lemma {:induction false} NegationsByChain(n: Node)
    requires n.If?
    ensures ChainNegations(n) == Negations(Links(n))
    decreases n
  {
    if n.els.Some? && n.els.value.If? { NegationsByChain(n.els.value); }
  }

  /** What the chain goes on with. */
  lemma {:induction false} ChainLength(n: Node)
    requires n.If?
    ensures |Links(n)| > 1 <==> n.els.Some? && n.els.value.If?
    ensures |Links(n)| > 1 || Tail(n).Some? <==> n.els.Some?
  {
  }

  /** What a statement whose first branch leaves claims, for every shape of chain:
      nothing when every way leaves; every negation when every link of a longer chain decides; otherwise that of the
      first condition, if it can be read and tests no status: a bail-out when the branch rejects, a guard clause when
      anything trails it, and a plain condition when the `if` stands alone. */
  lemma {:induction false} ClaimsOfLeaving(n: Node, byLog: bool)
    requires n.If? && Leaves(n.thn)
    ensures var first := Is(n.cond.site, n.cond.readable);
            GuardClauseNegations(n, byLog) ==
            if EveryWayLeaves(n) then []
            else if n.els.Some? && n.els.value.If? && EveryLinkDecides(n, byLog) then ChainNegations(n)
            else if !n.cond.readable || n.cond.statusTest then []
            else if Rejects(n, byLog) then [PathCond(first, true, Bailout)]
            else if n.els.Some? then [PathCond(first, true, GuardClause)]
            else [PathCond(first, true, IfKind)]
  {
    EveryWayIff(n);
    EveryLinkIff(n, byLog);
    WholeChainIff(Links(n), byLog);
    NegationsByChain(n);
    ChainLength(n);
  }

  // ----- nested guards -----

  /** `m` is the statement itself or stands behind `else` after `else`. */
  ghost predicate LinkOf(n: Node, m: Node)
  {
    n.If? && (m == n || (n.els.Some? && LinkOf(n.els.value, m)))
  }

  /** Claimed one level inside a branch: by a statement of its block, or by the branch itself. */
  ghost predicate ClaimedInside(body: Node, byLog: bool, p: PathCond)
  {
    if body.Block? then exists k :: 0 <= k < |body.stmts| && p in GuardClauseNegations(body.stmts[k], byLog)
    else p in GuardClauseNegations(body, byLog)
  }

  lemma {:induction false} UnlessEachIff(outer: nat, inner: seq<PathCond>, p: PathCond)
    ensures p in UnlessEach(outer, inner) <==>
            exists q :: q in inner && !(q.text.Is? && !q.text.readable) &&
                p == PathCond(Unless(outer, q), false, Bailout)
    decreases inner
  {
    if inner != [] {
      UnlessEachIff(outer, inner[1..], p);
      HeadTail(inner);
    }
  }

  lemma {:induction false} ImpliedIff(ns: seq<Node>, byLog: bool, p: PathCond)
    ensures p in ImpliedBySeq(ns, byLog) <==> exists k :: 0 <= k < |ns| && p in GuardClauseNegations(ns[k], byLog)
    decreases ns
  {
    if ns != [] {
      ImpliedIff(ns[1..], byLog, p);
      if k :| 0 <= k < |ns| && p in GuardClauseNegations(ns[k], byLog) {
        if k > 0 { assert ns[1..][k - 1] == ns[k]; }
      }
      if j :| 0 <= j < |ns[1..]| && p in GuardClauseNegations(ns[1..][j], byLog) { assert ns[j + 1] == ns[1..][j]; }
    }
  }

  /** A statement whose first branch may fall through claims, for each of its links with a readable condition, that
      this condition was false or what is claimed one level inside its branch holds; opaque claims are passed over. */
  lemma {:induction false} NestedClaimIff(n: Node, byLog: bool, p: PathCond)
    ensures p in ImpliedByNestedGuards(n, byLog) <==>
            exists m, q ::
              && LinkOf(n, m) && m.If? && m.cond.readable && ClaimedInside(m.thn, byLog, q)
              && !(q.text.Is? && !q.text.readable) && p == PathCond(Unless(m.cond.site, q), false, Bailout)
    decreases n
  {
    if n.If? {
      OwnNestedIff(n, byLog, p);
      if n.els.Some? { NestedClaimIff(n.els.value, byLog, p); }
    }
  }

  lemma {:induction false} OwnNestedIff(n: Node, byLog: bool, p: PathCond)
    requires n.If?
    ensures p in UnlessEach(n.cond.site, ExitsInside(n.thn, byLog)) <==>
            exists q ::
              && ClaimedInside(n.thn, byLog, q) && !(q.text.Is? && !q.text.readable)
              && p == PathCond(Unless(n.cond.site, q), false, Bailout)
  {
    UnlessEachIff(n.cond.site, ExitsInside(n.thn, byLog), p);
    forall q ensures q in ExitsInside(n.thn, byLog) <==> ClaimedInside(n.thn, byLog, q) {
      if n.thn.Block? { ImpliedIff(n.thn.stmts, byLog, q); }
    }
  }

  /** Which kind of statement claims by nested guards: an `if` whose first branch has no exit at its end. */
  lemma {:induction false} ClaimsOfStaying(n: Node, byLog: bool)
    ensures !n.If? ==> GuardClauseNegations(n, byLog) == []
    ensures n.If? && !Leaves(n.thn) ==> GuardClauseNegations(n, byLog) == ImpliedByNestedGuards(n, byLog)
  {
  }
}
