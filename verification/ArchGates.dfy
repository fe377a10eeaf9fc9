/** Rewriting of architecture gates so that 9201 takes the branch of 3510, `expand_3510_gates`,
    on the tokens of the text. */
module ArchGates {
  import opened Wrappers
  import opened ExprIr
  import opened CppExpr
  import opened CppExprRoundTrip
  import opened Sequences

  const ARCH: string := "__NPU_ARCH__"

  function Number(n: nat): Token { Num("", Whole(n)) }

  /** `__NPU_ARCH__ == n` or `__NPU_ARCH__ != n` */
  function Test(op: Punct, n: nat): seq<Token> { [Id(ARCH), Op(op), Number(n)] }

  /** Both tests, each in parentheses, as an expanded gate holds them. */
  function Pair(op: Punct, join: Punct): seq<Token>
  {
    [Op(LParen), Id(ARCH), Op(op), Number(3510), Op(RParen), Op(join),
     Op(LParen), Id(ARCH), Op(op), Number(9201), Op(RParen)]
  }

  function Block(op: Punct, join: Punct): seq<Token> { [Op(LParen)] + Pair(op, join) + [Op(RParen)] }

  /** What is held as it stands, and the tests with what replaces them; the passes use them in this order. */
  datatype Gates = Gates(heldEq: seq<Token>, heldNe: seq<Token>, testEq: seq<Token>, blockEq: seq<Token>,
                         testNe: seq<Token>, blockNe: seq<Token>)

  const GATES: Gates := Gates(Pair(EqEq, OrOr), Pair(Ne, AndAnd), Test(EqEq, 3510), Block(EqEq, OrOr),
                              Test(Ne, 3510), Block(Ne, AndAnd))

  predicate Patterns(g: Gates) { |g.heldEq| > 2 && |g.heldNe| > 2 && |g.testEq| > 2 && |g.testNe| > 2 }

  /** None of the patterns starts here. */
  predicate NoneStarts(g: Gates, ts: seq<Token>)
  {
    !(g.heldEq <= ts) && !(g.heldNe <= ts) && !(g.testEq <= ts) && !(g.testNe <= ts)
  }

  /** The text rewritten from left to right: what is held stays, a test becomes a block. */
  function ExpandBy(g: Gates, ts: seq<Token>): seq<Token>
    requires Patterns(g)
    decreases |ts|
  {
    if ts == [] then []
    else if g.heldEq <= ts then g.heldEq + ExpandBy(g, ts[|g.heldEq|..])
    else if g.heldNe <= ts then g.heldNe + ExpandBy(g, ts[|g.heldNe|..])
    else if g.testEq <= ts then g.blockEq + ExpandBy(g, ts[|g.testEq|..])
    else if g.testNe <= ts then g.blockNe + ExpandBy(g, ts[|g.testNe|..])
    else [ts[0]] + ExpandBy(g, ts[1..])
  }

  /** What is expanded already stays, and a test of 3510 becomes a block. */
  function Expand(ts: seq<Token>): seq<Token> { ExpandBy(GATES, ts) }

  predicate Plain(ts: seq<Token>) { NoneStarts(GATES, ts) }

  // ----- the passes of the source -----

  /** A token, or the placeholder of a held gate. */
  datatype Piece = Tok(t: Token) | Held(text: seq<Token>)

  function Lift(ts: seq<Token>): seq<Piece>
  {
    if ts == [] then [] else [Tok(ts[0])] + Lift(ts[1..])
  }

  /** Every occurrence of a pattern replaced, from left to right. */
  function Sub(ps: seq<Piece>, pat: seq<Piece>, rep: seq<Piece>): seq<Piece>
    requires pat != []
  {
    if ps == [] then []
    else if pat <= ps then rep + Sub(ps[|pat|..], pat, rep)
    else [ps[0]] + Sub(ps[1..], pat, rep)
  }

  /** What a piece stands for. */
  function Content(p: Piece): seq<Token>
  {
    match p
    case Tok(t) => [t]
    case Held(text) => text
  }

  /** Placeholders turned back into what they hold. */
  function Restore(ps: seq<Piece>): seq<Token>
  {
    if ps == [] then [] else Content(ps[0]) + Restore(ps[1..])
  }

  function Hold(ps: seq<Piece>, text: seq<Token>): seq<Piece>
    requires text != []
  {
    LiftAt(text);
    Sub(ps, Lift(text), [Held(text)])
  }

  function Replace(ps: seq<Piece>, test: seq<Token>, block: seq<Token>): seq<Piece>
    requires test != []
  {
    LiftAt(test);
    Sub(ps, Lift(test), Lift(block))
  }

  function HoldBoth(g: Gates, ps: seq<Piece>): seq<Piece>
    requires Patterns(g)
  {
    Hold(Hold(ps, g.heldEq), g.heldNe)
  }

  function ReplaceBoth(g: Gates, ps: seq<Piece>): seq<Piece>
    requires Patterns(g)
  {
    Replace(Replace(ps, g.testEq, g.blockEq), g.testNe, g.blockNe)
  }

  function Passes(g: Gates, ts: seq<Token>): seq<Piece>
    requires Patterns(g)
  {
    ReplaceBoth(g, HoldBoth(g, Lift(ts)))
  }

  method ExpandGates(text: seq<Token>) returns (out: seq<Token>)
    ensures out == Expand(text)
  {
    var held := Hold(Lift(text), Pair(EqEq, OrOr));
    held := Hold(held, Pair(Ne, AndAnd));
    held := Replace(held, Test(EqEq, 3510), Block(EqEq, OrOr));
    held := Replace(held, Test(Ne, 3510), Block(Ne, AndAnd));
    out := Restore(held);
    PassesAreOne(text);
  }

  // ----- replacing, in general -----

  lemma {:induction false} LiftJoin(s: seq<Token>, t: seq<Token>)
    ensures Lift(s + t) == Lift(s) + Lift(t)
    decreases s
  {
    if s == [] {
      assert s + t == t;
    } else {
      LiftJoin(s[1..], t);
      assert (s + t)[0] == s[0] && (s + t)[1..] == s[1..] + t;
      Regroup([Tok(s[0])], Lift(s[1..]), Lift(t));
    }
  }

  lemma {:induction false} LiftAt(ts: seq<Token>)
    ensures |Lift(ts)| == |ts| && forall k | 0 <= k < |ts| :: Lift(ts)[k] == Tok(ts[k])
    decreases ts
  {
    if ts != [] {
      LiftAt(ts[1..]);
      assert forall k | 0 < k < |ts| :: ts[k] == ts[1..][k - 1];
    }
  }

  lemma {:induction false} LiftPrefix(s: seq<Token>, ts: seq<Token>)
    ensures Lift(s) <= Lift(ts) <==> s <= ts
  {
    LiftAt(s);
    LiftAt(ts);
    if Lift(s) <= Lift(ts) {
      assert forall k | 0 <= k < |s| :: Lift(s)[k] == Lift(ts)[k] && Tok(s[k]) == Tok(ts[k]);
    }
  }

  lemma {:induction false} SubHit(pat: seq<Piece>, rest: seq<Piece>, rep: seq<Piece>)
    requires pat != []
    ensures Sub(pat + rest, pat, rep) == rep + Sub(rest, pat, rep)
  {
    assert (pat + rest)[|pat|..] == rest;
  }

  lemma {:induction false} SubMiss(p: Piece, rest: seq<Piece>, pat: seq<Piece>, rep: seq<Piece>)
    requires pat != [] && !(pat <= [p] + rest)
    ensures Sub([p] + rest, pat, rep) == [p] + Sub(rest, pat, rep)
  {
    assert ([p] + rest)[1..] == rest;
  }

  /** The first three pieces show that the pattern does not start here, whatever follows. */
  ghost predicate Differs(ps: seq<Piece>, pat: seq<Piece>)
    requires |pat| > 2 && ps != []
  {
    ps[0] != pat[0] || (|ps| > 1 && ps[1] != pat[1]) || (|ps| > 2 && ps[2] != pat[2])
  }

  /** The pattern starts nowhere in `front`, whatever follows. */
  ghost predicate Foreign(front: seq<Piece>, pat: seq<Piece>)
    requires |pat| > 2
  {
    forall k | 0 <= k < |front| :: Differs(front[k..], pat)
  }

  lemma {:induction false} DiffersAt(front: seq<Piece>, pat: seq<Piece>, k: nat, d: nat)
    requires |pat| > 2 && d < 3 && k + d < |front| && front[k + d] != pat[d]
    ensures Differs(front[k..], pat)
  {
    assert front[k..][d] == front[k + d];
  }

  lemma {:induction false} ForeignTail(front: seq<Piece>, pat: seq<Piece>)
    requires |pat| > 2 && front != [] && Foreign(front, pat)
    ensures Foreign(front[1..], pat)
  {
    forall k | 0 <= k < |front[1..]| ensures Differs(front[1..][k..], pat) {
      assert front[1..][k..] == front[k + 1..];
    }
  }

  lemma {:induction false} SubPassesOver(front: seq<Piece>, rest: seq<Piece>, pat: seq<Piece>, rep: seq<Piece>)
    requires |pat| > 2 && Foreign(front, pat)
    ensures Sub(front + rest, pat, rep) == front + Sub(rest, pat, rep)
    decreases front
  {
    if front == [] {
      assert front + rest == rest;
    } else {
      assert Differs(front[0..], pat);
      assert front + rest == [front[0]] + (front[1..] + rest);
      ForeignTail(front, pat);
      SubPassesOver(front[1..], rest, pat, rep);
      SubMiss(front[0], front[1..] + rest, pat, rep);
      assert [front[0]] + (front[1..] + Sub(rest, pat, rep)) == front + Sub(rest, pat, rep);
    }
  }

  lemma {:induction false} SubHitStart(ps: seq<Piece>, pat: seq<Piece>, rep: seq<Piece>)
    requires pat != [] && rep != []
    ensures pat <= ps ==> Sub(ps, pat, rep) != [] && Sub(ps, pat, rep)[0] == rep[0]
  {
  }

  /** What a result starts with, unless it is a replacement, the text started with. */
  lemma {:induction false} SubStart(q: seq<Piece>, ps: seq<Piece>, pat: seq<Piece>, rep: seq<Piece>)
    requires pat != [] && rep != [] && rep[0] !in q && q <= Sub(ps, pat, rep)
    ensures q <= ps
    decreases q
  {
    if q != [] {
      var out := Sub(ps, pat, rep);
      assert q[0] == out[0] && q[0] in q;
      SubHitStart(ps, pat, rep);
      if !(pat <= ps) {
        assert q[1..] <= out[1..] && out[1..] == Sub(ps[1..], pat, rep);
        assert forall x :: x in q[1..] ==> x in q;
        SubStart(q[1..], ps[1..], pat, rep);
        assert q == [q[0]] + q[1..] && ps == [ps[0]] + ps[1..];
      }
    }
  }

  // ----- the passes amount to one -----

  lemma {:induction false} RestoreJoin(ps: seq<Piece>, qs: seq<Piece>)
    ensures Restore(ps + qs) == Restore(ps) + Restore(qs)
    decreases ps
  {
    if ps == [] {
      assert ps + qs == qs;
    } else {
      var p, rest := ps[0], ps[1..];
      RestoreJoin(rest, qs);
      HeadTail(ps);
      Regroup([p], rest, qs);
      RestoreOne(p, rest);
      RestoreOne(p, rest + qs);
      Regroup(Content(p), Restore(rest), Restore(qs));
    }
  }

  lemma {:induction false} RestoreLift(ts: seq<Token>)
    ensures Restore(Lift(ts)) == ts
    decreases ts
  {
    if ts != [] {
      RestoreLift(ts[1..]);
      RestoreOne(Tok(ts[0]), Lift(ts[1..]));
      HeadTail(ts);
    }
  }

  lemma {:induction false} RestoreOne(p: Piece, qs: seq<Piece>)
    ensures Restore([p] + qs) == Content(p) + Restore(qs)
  {
    assert ([p] + qs)[1..] == qs;
  }

  lemma {:induction false} HeldIsForeign(text: seq<Token>, s: seq<Token>)
    requires |s| > 2
    ensures |Lift(s)| > 2 && Foreign([Held(text)], Lift(s))
  {
    LiftAt(s);
  }

  /** One of the three tokens from `k` on shows that the pattern does not start there, whatever follows. */
  predicate MissesAt(front: seq<Token>, pat: seq<Token>, k: nat)
    requires |pat| > 2 && k < |front|
  {
    front[k] != pat[0] || (k + 1 < |front| && front[k + 1] != pat[1]) || (k + 2 < |front| && front[k + 2] != pat[2])
  }

  predicate ForeignText(front: seq<Token>, pat: seq<Token>)
  {
    |pat| > 2 && forall k | 0 <= k < |front| :: MissesAt(front, pat, k)
  }

  lemma {:induction false} LiftForeign(front: seq<Token>, pat: seq<Token>)
    requires ForeignText(front, pat)
    ensures |Lift(pat)| > 2 && Foreign(Lift(front), Lift(pat))
  {
    LiftAt(front);
    LiftAt(pat);
    forall k | 0 <= k < |Lift(front)| ensures Differs(Lift(front)[k..], Lift(pat)) {
      assert MissesAt(front, pat, k) && Lift(front)[k] == Tok(front[k]);
      DiffersAt(Lift(front), Lift(pat), k,
        if front[k] != pat[0] then 0 else if k + 1 < |front| && front[k + 1] != pat[1] then 1 else 2);
    }
  }

  /** No pass finds its pattern in what an earlier pass looks for or leaves. */
  ghost predicate Apart(g: Gates)
  {
    && Patterns(g) && ForeignText(g.heldNe, g.heldEq)
    && ForeignText(g.testEq, g.heldEq) && ForeignText(g.testEq, g.heldNe)
    && ForeignText(g.testNe, g.heldEq) && ForeignText(g.testNe, g.heldNe)
    && ForeignText(g.testNe, g.testEq) && ForeignText(g.blockEq, g.testNe)
    && g.blockEq != [] && g.blockEq[0] !in g.testNe[1..]
  }

  /** The first token of the pattern occurs at most at `a` and `b`, and there the token `d` further on differs. */
  lemma {:induction false} ForeignTokens(front: seq<Token>, pat: seq<Token>, a: nat, b: nat, d: nat)
    requires |pat| > 2 && d < 3 && a + d < |front| && b + d < |front|
    requires front[a + d] != pat[d] && front[b + d] != pat[d]
    requires forall k | 0 <= k < |front| && k != a && k != b :: front[k] != pat[0]
    ensures ForeignText(front, pat)
  {
  }

  lemma {:induction false} GatesAreApart()
    ensures Apart(GATES)
  {
    PairIsApart(Ne, EqEq, AndAnd, OrOr);
    TestIsApart(EqEq, EqEq, OrOr);
    TestIsApart(EqEq, Ne, AndAnd);
    TestIsApart(Ne, EqEq, OrOr);
    TestIsApart(Ne, Ne, AndAnd);
    ForeignTokens(Test(Ne, 3510), Test(EqEq, 3510), 0, 0, 1);
    BlockIsApart(EqEq, Ne, OrOr);
  }

  lemma {:induction false} PairIsApart(op: Punct, op': Punct, join: Punct, join': Punct)
    requires op != op' && join != LParen && op != LParen
    ensures ForeignText(Pair(op, join), Pair(op', join'))
  {
    ForeignTokens(Pair(op, join), Pair(op', join'), 0, 6, 2);
  }

  lemma {:induction false} TestIsApart(op: Punct, op': Punct, join: Punct)
    requires op != LParen
    ensures ForeignText(Test(op, 3510), Pair(op', join))
  {
    ForeignTokens(Test(op, 3510), Pair(op', join), 0, 0, 0);
  }

  lemma {:induction false} BlockIsApart(op: Punct, op': Punct, join: Punct)
    requires op != op' && op' != LParen
    ensures ForeignText(Block(op, join), Test(op', 3510)) && Block(op, join)[0] !in Test(op', 3510)[1..]
  {
    ForeignTokens(Block(op, join), Test(op', 3510), 2, 8, 1);
    assert Test(op', 3510)[1..] == [Op(op'), Number(3510)];
  }

  /** A pattern at the front is held or replaced by its pass. */
  lemma {:induction false} Hit(pat: seq<Token>, r: seq<Piece>, rep: seq<Token>)
    requires pat != []
    ensures Hold(Lift(pat) + r, pat) == [Held(pat)] + Hold(r, pat)
    ensures Replace(Lift(pat) + r, pat, rep) == Lift(rep) + Replace(r, pat, rep)
  {
    LiftAt(pat);
    SubHit(Lift(pat), r, [Held(pat)]);
    SubHit(Lift(pat), r, Lift(rep));
  }

  /** A pass goes over what is foreign to its pattern, and over placeholders. */
  lemma {:induction false} Over(front: seq<Token>, r: seq<Piece>, pat: seq<Token>, rep: seq<Token>)
    requires ForeignText(front, pat) && pat != []
    ensures Hold(Lift(front) + r, pat) == Lift(front) + Hold(r, pat)
    ensures Replace(Lift(front) + r, pat, rep) == Lift(front) + Replace(r, pat, rep)
  {
    LiftForeign(front, pat);
    SubPassesOver(Lift(front), r, Lift(pat), [Held(pat)]);
    SubPassesOver(Lift(front), r, Lift(pat), Lift(rep));
  }

  lemma {:induction false} OverHeld(text: seq<Token>, r: seq<Piece>, pat: seq<Token>, rep: seq<Token>)
    requires |pat| > 2
    ensures Hold([Held(text)] + r, pat) == [Held(text)] + Hold(r, pat)
    ensures Replace([Held(text)] + r, pat, rep) == [Held(text)] + Replace(r, pat, rep)
  {
    HeldIsForeign(text, pat);
    SubPassesOver([Held(text)], r, Lift(pat), [Held(pat)]);
    SubPassesOver([Held(text)], r, Lift(pat), Lift(rep));
  }

  /** Replacing goes over a placeholder. */
  lemma {:induction false} HeldIsNotReplaced(g: Gates, text: seq<Token>, p: seq<Piece>)
    requires Patterns(g)
    ensures ReplaceBoth(g, [Held(text)] + p) == [Held(text)] + ReplaceBoth(g, p)
  {
    OverHeld(text, p, g.testEq, g.blockEq);
    OverHeld(text, Replace(p, g.testEq, g.blockEq), g.testNe, g.blockNe);
  }

  lemma {:induction false} HeldEqCase(g: Gates, r: seq<Token>)
    requires Apart(g)
    ensures Passes(g, g.heldEq + r) == [Held(g.heldEq)] + Passes(g, r)
  {
    LiftJoin(g.heldEq, r);
    Hit(g.heldEq, Lift(r), []);
    OverHeld(g.heldEq, Hold(Lift(r), g.heldEq), g.heldNe, []);
    HeldIsNotReplaced(g, g.heldEq, HoldBoth(g, Lift(r)));
  }

  lemma {:induction false} HeldNeCase(g: Gates, r: seq<Token>)
    requires Apart(g)
    ensures Passes(g, g.heldNe + r) == [Held(g.heldNe)] + Passes(g, r)
  {
    LiftJoin(g.heldNe, r);
    Over(g.heldNe, Lift(r), g.heldEq, []);
    Hit(g.heldNe, Hold(Lift(r), g.heldEq), []);
    HeldIsNotReplaced(g, g.heldNe, HoldBoth(g, Lift(r)));
  }

  lemma {:induction false} TestEqCase(g: Gates, r: seq<Token>)
    requires Apart(g)
    ensures Passes(g, g.testEq + r) == Lift(g.blockEq) + Passes(g, r)
  {
    LiftJoin(g.testEq, r);
    Over(g.testEq, Lift(r), g.heldEq, []);
    Over(g.testEq, Hold(Lift(r), g.heldEq), g.heldNe, []);
    Hit(g.testEq, HoldBoth(g, Lift(r)), g.blockEq);
    Over(g.blockEq, Replace(HoldBoth(g, Lift(r)), g.testEq, g.blockEq), g.testNe, g.blockNe);
  }

  lemma {:induction false} TestNeCase(g: Gates, r: seq<Token>)
    requires Apart(g)
    ensures Passes(g, g.testNe + r) == Lift(g.blockNe) + Passes(g, r)
  {
    LiftJoin(g.testNe, r);
    Over(g.testNe, Lift(r), g.heldEq, []);
    Over(g.testNe, Hold(Lift(r), g.heldEq), g.heldNe, []);
    Over(g.testNe, HoldBoth(g, Lift(r)), g.testEq, g.blockEq);
    Hit(g.testNe, Replace(HoldBoth(g, Lift(r)), g.testEq, g.blockEq), g.blockNe);
  }

  /** A pass finds no pattern at a token where the text had none, if earlier passes made up no rest of one. */
  lemma {:induction false} StillMissing(t: Token, r: seq<Token>, pat: seq<Token>, ps: seq<Piece>, rep: seq<Token>)
    requires pat != [] && !(pat <= [t] + r)
    requires Lift(pat[1..]) <= ps ==> Lift(pat[1..]) <= Lift(r)
    ensures Hold([Tok(t)] + ps, pat) == [Tok(t)] + Hold(ps, pat)
    ensures Replace([Tok(t)] + ps, pat, rep) == [Tok(t)] + Replace(ps, pat, rep)
  {
    LiftAt(pat);
    if Lift(pat) <= [Tok(t)] + ps {
      assert Lift(pat[1..]) == Lift(pat)[1..] <= ([Tok(t)] + ps)[1..] == ps;
      LiftPrefix(pat[1..], r);
      HeadTail(pat);
    }
    SubMiss(Tok(t), ps, Lift(pat), [Held(pat)]);
    SubMiss(Tok(t), ps, Lift(pat), Lift(rep));
  }

  /** Holding makes up nothing a pattern could need. */
  lemma {:induction false} HoldingMakesNothing(s: seq<Token>, ps: seq<Piece>, text: seq<Token>)
    requires text != [] && Lift(s) <= Hold(ps, text)
    ensures Lift(s) <= ps
  {
    LiftAt(s);
    LiftAt(text);
    SubStart(Lift(s), ps, Lift(text), [Held(text)]);
  }

  /** Nor does a block make up tokens other than those it starts with. */
  lemma {:induction false} BlocksMakeNothing(s: seq<Token>, ps: seq<Piece>, test: seq<Token>, block: seq<Token>)
    requires test != [] && block != [] && block[0] !in s && Lift(s) <= Replace(ps, test, block)
    ensures Lift(s) <= ps
  {
    LiftAt(s);
    LiftAt(test);
    LiftAt(block);
    SubStart(Lift(s), ps, Lift(test), Lift(block));
  }

  /** After holding, text comes from the text. */
  lemma {:induction false} HeldTextIsOld(g: Gates, s: seq<Token>, r: seq<Token>)
    requires Patterns(g) && Lift(s) <= HoldBoth(g, Lift(r))
    ensures Lift(s) <= Lift(r)
  {
    HoldingMakesNothing(s, Hold(Lift(r), g.heldEq), g.heldNe);
    HoldingMakesNothing(s, Lift(r), g.heldEq);
  }

  lemma {:induction false} OtherIsNotHeld(g: Gates, t: Token, r: seq<Token>)
    requires Patterns(g) && NoneStarts(g, [t] + r)
    ensures HoldBoth(g, [Tok(t)] + Lift(r)) == [Tok(t)] + HoldBoth(g, Lift(r))
  {
    StillMissing(t, r, g.heldEq, Lift(r), []);
    var h := Hold(Lift(r), g.heldEq);
    if Lift(g.heldNe[1..]) <= h { HoldingMakesNothing(g.heldNe[1..], Lift(r), g.heldEq); }
    StillMissing(t, r, g.heldNe, h, []);
  }

  lemma {:induction false} OtherIsNotReplaced(g: Gates, t: Token, r: seq<Token>)
    requires Apart(g) && NoneStarts(g, [t] + r)
    ensures ReplaceBoth(g, [Tok(t)] + HoldBoth(g, Lift(r))) == [Tok(t)] + ReplaceBoth(g, HoldBoth(g, Lift(r)))
  {
    var p := HoldBoth(g, Lift(r));
    if Lift(g.testEq[1..]) <= p { HeldTextIsOld(g, g.testEq[1..], r); }
    StillMissing(t, r, g.testEq, p, g.blockEq);
    var q := Replace(p, g.testEq, g.blockEq);
    if Lift(g.testNe[1..]) <= q {
      BlocksMakeNothing(g.testNe[1..], p, g.testEq, g.blockEq);
      HeldTextIsOld(g, g.testNe[1..], r);
    }
    StillMissing(t, r, g.testNe, q, g.blockNe);
  }

  lemma {:induction false} OtherCase(g: Gates, t: Token, r: seq<Token>)
    requires Apart(g) && NoneStarts(g, [t] + r)
    ensures Passes(g, [t] + r) == [Tok(t)] + Passes(g, r)
  {
    assert ([t] + r)[1..] == r;
    OtherIsNotHeld(g, t, r);
    OtherIsNotReplaced(g, t, r);
  }

  lemma {:induction false} RestoreBlock(block: seq<Token>, ps: seq<Piece>)
    ensures Restore(Lift(block) + ps) == block + Restore(ps)
  {
    RestoreJoin(Lift(block), ps);
    RestoreLift(block);
  }

  /** What the rewriting takes from the front of a text. */
  function Front(g: Gates, ts: seq<Token>): (front: seq<Token>)
    requires Patterns(g) && ts != []
    ensures front <= ts && front != []
  {
    if g.heldEq <= ts then g.heldEq else if g.heldNe <= ts then g.heldNe
    else if g.testEq <= ts then g.testEq else if g.testNe <= ts then g.testNe
    else [ts[0]]
  }

  /** What it puts there. */
  function Rewritten(g: Gates, ts: seq<Token>): seq<Token>
    requires Patterns(g) && ts != []
  {
    if g.heldEq <= ts then g.heldEq else if g.heldNe <= ts then g.heldNe
    else if g.testEq <= ts then g.blockEq else if g.testNe <= ts then g.blockNe
    else [ts[0]]
  }

  lemma {:induction false} ExpandByFront(g: Gates, ts: seq<Token>)
    requires Patterns(g) && ts != []
    ensures ExpandBy(g, ts) == Rewritten(g, ts) + ExpandBy(g, ts[|Front(g, ts)|..])
  {
  }

  /** Each pattern at the front, and any other token, comes out of the passes as the rewriting has it. */
  lemma {:induction false} PassesOnFront(g: Gates, ts: seq<Token>, r: seq<Token>)
    requires Apart(g) && ts != [] && ts == Front(g, ts) + r
    ensures Restore(Passes(g, ts)) == Rewritten(g, ts) + Restore(Passes(g, r))
  {
    var after := Passes(g, r);
    if g.heldEq <= ts { HeldEqCase(g, r); RestoreOne(Held(g.heldEq), after); }
    else if g.heldNe <= ts { HeldNeCase(g, r); RestoreOne(Held(g.heldNe), after); }
    else if g.testEq <= ts { TestEqCase(g, r); RestoreBlock(g.blockEq, after); }
    else if g.testNe <= ts { TestNeCase(g, r); RestoreBlock(g.blockNe, after); }
    else { OtherCase(g, ts[0], r); RestoreOne(Tok(ts[0]), after); }
  }

  /** Holding, replacing and restoring, one pattern after the other, is the rewriting from left to right. */
  lemma {:induction false} PassesRewrite(g: Gates, ts: seq<Token>)
    requires Apart(g)
    ensures Restore(Passes(g, ts)) == ExpandBy(g, ts)
    decreases |ts|
  {
    if ts != [] {
      var r := ts[|Front(g, ts)|..];
      assert ts == Front(g, ts) + r;
      PassesRewrite(g, r);
      PassesOnFront(g, ts, r);
      ExpandByFront(g, ts);
    }
  }

  lemma {:induction false} PassesAreOne(ts: seq<Token>)
    ensures Patterns(GATES) && Restore(Passes(GATES, ts)) == Expand(ts)
  {
    GatesAreApart();
    PassesRewrite(GATES, ts);
  }
}
