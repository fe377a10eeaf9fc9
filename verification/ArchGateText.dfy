/** What the rewriting of architecture gates does at the front of a text; a second rewriting changes nothing. */
module ArchGateText {
  import opened Wrappers
  import opened ExprIr
  import opened CppExpr
  import opened CppExprRoundTrip
  import opened ArchGates
  import opened Sequences

  // ----- the rewriting, front by front -----

  lemma {:induction false} ExpandPairEq(r: seq<Token>)
    ensures Expand(Pair(EqEq, OrOr) + r) == Pair(EqEq, OrOr) + Expand(r)
  {
    assert (Pair(EqEq, OrOr) + r)[11..] == r;
  }

  lemma {:induction false} ExpandPairNe(r: seq<Token>)
    ensures Expand(Pair(Ne, AndAnd) + r) == Pair(Ne, AndAnd) + Expand(r)
  {
    var ts := Pair(Ne, AndAnd) + r;
    assert ts[11..] == r;
    assert ts[2] == Op(Ne);
  }

  lemma {:induction false} ExpandTestEq(r: seq<Token>)
    ensures Expand(Test(EqEq, 3510) + r) == Block(EqEq, OrOr) + Expand(r)
  {
    var ts := Test(EqEq, 3510) + r;
    assert ts[3..] == r;
    assert ts[0] == Id(ARCH);
  }

  lemma {:induction false} ExpandTestNe(r: seq<Token>)
    ensures Expand(Test(Ne, 3510) + r) == Block(Ne, AndAnd) + Expand(r)
  {
    var ts := Test(Ne, 3510) + r;
    assert ts[3..] == r;
    assert ts[0] == Id(ARCH) && ts[1] == Op(Ne);
  }

  lemma {:induction false} ExpandOther(t: Token, r: seq<Token>)
    requires Plain([t] + r)
    ensures Expand([t] + r) == [t] + Expand(r)
  {
    assert ([t] + r)[1..] == r;
  }

  lemma {:induction false} PairShows(op: Punct, join: Punct, ts: seq<Token>)
    ensures Pair(op, join) <= ts ==>
            ts[0] == Op(LParen) && ts[1] == Id(ARCH) && ts[9] == Number(9201) && Test(op, 3510) <= ts[1..]
  {
    if Pair(op, join) <= ts {
      assert Test(op, 3510) == Pair(op, join)[1..4] == ts[1..4];
    }
  }

  lemma {:induction false} TestShows(op: Punct, t: Token, r: seq<Token>)
    ensures Test(op, 3510) <= [t] + r <==> t == Id(ARCH) && [Op(op), Number(3510)] <= r
    ensures [Op(op), Number(3510)] <= r ==> r[0] == Op(op) && r[1] == Number(3510)
  {
    var q := [Op(op), Number(3510)];
    assert Test(op, 3510) == [Id(ARCH)] + q && ([t] + r)[1..] == r && ([t] + r)[0] == t;
    if Test(op, 3510) <= [t] + r { assert q == Test(op, 3510)[1..]; }
  }

  /** A pattern is rewritten to something in parentheses. */
  lemma {:induction false} PatternStart(ts: seq<Token>)
    ensures !Plain(ts) ==> Expand(ts) != [] && Expand(ts)[0] == Op(LParen)
  {
  }

  /** The two tokens after the start of a pattern decide against it. */
  lemma {:induction false} PlainBy(t: Token, r: seq<Token>)
    requires t != Op(LParen) || r == [] || r[0] != Id(ARCH)
    requires t != Id(ARCH) || |r| < 2 || r[0] !in {Op(EqEq), Op(Ne)} || r[1] != Number(3510)
    ensures Plain([t] + r)
  {
    var ts := [t] + r;
    assert ts[1..] == r;
    PairShows(EqEq, OrOr, ts);
    PairShows(Ne, AndAnd, ts);
    TestShows(EqEq, t, r);
    TestShows(Ne, t, r);
  }

  // ----- a second rewriting changes nothing -----

  /** What a rewritten text starts with, parentheses aside, the text started with. */
  lemma {:induction false} ExpandStart(q: seq<Token>, ts: seq<Token>)
    requires Op(LParen) !in q && q <= Expand(ts)
    ensures q <= ts
    decreases q
  {
    if q != [] {
      var out := Expand(ts);
      assert q[0] == out[0] && q[0] in q;
      PatternStart(ts);
      if Plain(ts) {
        assert ts == [ts[0]] + ts[1..];
        ExpandOther(ts[0], ts[1..]);
        assert q[1..] <= out[1..] == Expand(ts[1..]);
        ExpandStart(q[1..], ts[1..]);
        assert q == [q[0]] + q[1..];
      }
    }
  }

  /** No rewritten text starts with a test of 3510. */
  lemma {:induction false} NoTestAtTheFront(op: Punct, r: seq<Token>)
    requires op == EqEq || op == Ne
    ensures !(Test(op, 3510) <= Expand(r))
  {
    PatternStart(r);
    if Test(op, 3510) <= Expand(r) { ExpandStart(Test(op, 3510), r); }
  }

  lemma {:induction false} NoPairArises(op: Punct, join: Punct, t: Token, r: seq<Token>)
    requires op == EqEq || op == Ne
    ensures !(Pair(op, join) <= [t] + Expand(r))
  {
    var ts := [t] + Expand(r);
    assert ts[1..] == Expand(r);
    PairShows(op, join, ts);
    NoTestAtTheFront(op, r);
  }

  lemma {:induction false} NoTestArises(op: Punct, t: Token, r: seq<Token>)
    requires op != LParen && !(Test(op, 3510) <= [t] + r)
    ensures !(Test(op, 3510) <= [t] + Expand(r))
  {
    var q := [Op(op), Number(3510)];
    TestShows(op, t, Expand(r));
    TestShows(op, t, r);
    if q <= Expand(r) { ExpandStart(q, r); }
  }

  /** A token that stays starts no pattern afterwards. */
  lemma {:induction false} StaysPlain(t: Token, r: seq<Token>)
    requires Plain([t] + r)
    ensures Plain([t] + Expand(r))
  {
    NoPairArises(EqEq, OrOr, t, r);
    NoPairArises(Ne, AndAnd, t, r);
    NoTestArises(EqEq, t, r);
    NoTestArises(Ne, t, r);
  }

  lemma {:induction false} BlockIsFixed(op: Punct, join: Punct, r: seq<Token>)
    requires (op == EqEq && join == OrOr) || (op == Ne && join == AndAnd)
    ensures Expand(Block(op, join) + r) == Block(op, join) + Expand(r)
  {
    var inner := [Op(RParen)] + r;
    Regroup4([Op(LParen)], Pair(op, join), [Op(RParen)], r);
    OpenStays(op, join, inner);
    if op == EqEq { ExpandPairEq(inner); } else { ExpandPairNe(inner); }
    PlainBy(Op(RParen), r);
    ExpandOther(Op(RParen), r);
    Regroup4([Op(LParen)], Pair(op, join), [Op(RParen)], Expand(r));
  }

  lemma {:induction false} OpenStays(op: Punct, join: Punct, r: seq<Token>)
    ensures Expand([Op(LParen)] + (Pair(op, join) + r)) == [Op(LParen)] + Expand(Pair(op, join) + r)
  {
    var ts := Pair(op, join) + r;
    assert ts[0] == Op(LParen);
    PlainBy(Op(LParen), ts);
    ExpandOther(Op(LParen), ts);
  }

  /** Rewriting twice is rewriting once, on every text. */
  lemma {:induction false} ExpandIsIdempotent(ts: seq<Token>)
    ensures Expand(Expand(ts)) == Expand(ts)
    decreases |ts|
  {
    if ts == [] {
    } else if Plain(ts) {
      assert ts == [ts[0]] + ts[1..];
      ExpandIsIdempotent(ts[1..]);
      ExpandOther(ts[0], ts[1..]);
      StaysPlain(ts[0], ts[1..]);
      ExpandOther(ts[0], Expand(ts[1..]));
    } else if Pair(EqEq, OrOr) <= ts {
      ExpandIsIdempotent(ts[11..]);
      ExpandPairEq(Expand(ts[11..]));
    } else if Pair(Ne, AndAnd) <= ts {
      ExpandIsIdempotent(ts[11..]);
      ExpandPairNe(Expand(ts[11..]));
    } else if Test(EqEq, 3510) <= ts {
      ExpandIsIdempotent(ts[3..]);
      BlockIsFixed(EqEq, OrOr, Expand(ts[3..]));
    } else {
      ExpandIsIdempotent(ts[3..]);
      BlockIsFixed(Ne, AndAnd, Expand(ts[3..]));
    }
  }
}
