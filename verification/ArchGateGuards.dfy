/** Guards on the architecture, and what the rewriting of their text makes of them. */
module ArchGateGuards {
  import opened Wrappers
  import opened ExprIr
  import opened CppExpr
  import opened CppExprRoundTrip
  import opened ArchGates
  import opened ArchGateText
  import opened Sequences

  // ----- guards -----

  /** `__NPU_ARCH__ op n`, as an expression */
  function TestOf(op: Punct, n: nat): Written
  {
    Binary(op, Leaf(Ref(ARCH)), Leaf(Const(IntV(n), false)))
  }

  ghost predicate IsTest(w: Written)
  {
    && w.Binary? && w.op in {EqEq, Ne} && w.left == Leaf(Ref(ARCH))
    && w.right.Leaf? && w.right.e.Const? && w.right.e.value.IntV? && w.right.e.value.n >= 0 && !w.right.e.stringLiteral
  }

  /** Tests of the architecture, and whatever does not name it, under `!`, `&&`, `||` and parentheses. */
  ghost predicate Guard(w: Written)
  {
    || Id(ARCH) !in Tokens(w)
    || IsTest(w)
    || (match w
        case Paren(a) => Guard(a)
        case Unary(op, a) => op == Not && Guard(a)
        case Binary(op, l, r) => op in {AndAnd, OrOr} && Guard(l) && Guard(r)
        case _ => false)
  }

  /** The operator between the two tests of an expanded gate. */
  function JoinOf(op: Punct): Punct { if op == EqEq then OrOr else AndAnd }

  /** An expanded gate, as an expression */
  function PairOf(op: Punct): Written
  {
    Binary(JoinOf(op), Paren(TestOf(op, 3510)), Paren(TestOf(op, 9201)))
  }

  // ----- what the rewriting makes of a guard -----

  predicate PairAt(ts: seq<Token>) { Pair(EqEq, OrOr) <= ts || Pair(Ne, AndAnd) <= ts }

  /** The guard as rewritten when `r` stands behind it: every test of 3510 becomes a block, but for those that,
      in parentheses, start what reads as an expanded gate, whichever operands that takes in. */
  ghost function Replaced(w: Written, r: seq<Token>): Written
    requires Guard(w)
    decreases w
  {
    if Id(ARCH) !in Tokens(w) then w
    else if IsTest(w) then if w.right.e.value.n == 3510 then Paren(PairOf(w.op)) else w
    else match w
      case Paren(a) => if PairAt(Tokens(w) + r) then w else Paren(Replaced(a, [Op(RParen)] + r))
      case Unary(op, a) => Unary(op, Replaced(a, r))
      case Binary(op, left, right) =>
        Binary(op, Replaced(left, [Op(op)] + Tokens(right) + r), Replaced(right, r))
      case _ => w
  }

  /** `v` is the guard `w`, before `r`, with its parts rewritten. */
  ghost predicate PartsOf(w: Written, r: seq<Token>, v: Written)
  {
    match w
    case Paren(a) => Guard(a) && v == if PairAt(Tokens(w) + r) then w else Paren(Replaced(a, [Op(RParen)] + r))
    case Unary(op, a) => op == Not && Guard(a) && v == Unary(op, Replaced(a, r))
    case Binary(op, left, right) =>
      && op in {AndAnd, OrOr} && Guard(left) && Guard(right)
      && v == Binary(op, Replaced(left, [Op(op)] + Tokens(right) + r), Replaced(right, r))
    case _ => false
  }

  lemma {:induction false} ReplacedByParts(w: Written, r: seq<Token>)
    requires Guard(w) && Id(ARCH) in Tokens(w) && !IsTest(w)
    ensures PartsOf(w, r, Replaced(w, r))
  {
  }

  // ----- the rewriting follows the guard -----

  lemma {:induction false} PairStartsOpen(t: Token, r: seq<Token>)
    requires t != Op(LParen)
    ensures !PairAt([t] + r)
  {
    PairShows(EqEq, OrOr, [t] + r);
    PairShows(Ne, AndAnd, [t] + r);
  }

  /** A token that starts neither an expanded gate nor a test stays. */
  lemma {:induction false} TokenStays(t: Token, r: seq<Token>)
    requires !PairAt([t] + r) && (t != Id(ARCH) || |r| < 2 || r[1] != Number(3510))
    ensures Expand([t] + r) == [t] + Expand(r)
  {
    TestShows(EqEq, t, r);
    TestShows(Ne, t, r);
    ExpandOther(t, r);
  }

  /** A written expression never ends with an opening parenthesis. */
  lemma {:induction false} LastToken(w: Written)
    ensures Tokens(w)[|Tokens(w)| - 1] != Op(LParen)
    decreases w
  {
    match w
    case Unary(op, a) => LastToken(a); LastOf([Op(op)], Tokens(a));
    case Binary(op, left, right) => LastToken(right); LastOf(Tokens(left) + [Op(op)], Tokens(right));
    case Conditional(c, t, a) =>
      LastToken(a);
      LastOf(Tokens(c) + [Op(Question)] + Tokens(t) + [Op(Colon)], Tokens(a));
    case _ => LastOfEnclosed(w);
  }

  lemma {:induction false} LastOfEnclosed(w: Written)
    requires !w.Unary? && !w.Binary? && !w.Conditional?
    ensures Tokens(w)[|Tokens(w)| - 1] != Op(LParen)
  {
  }

  lemma {:induction false} LastOf(s: seq<Token>, t: seq<Token>)
    requires t != []
    ensures (s + t)[|s + t| - 1] == t[|t| - 1]
  {
  }

  /** No expanded gate starts in text that does not name the architecture, and that text stays. */
  lemma {:induction false} ForeignTextStays(s: seq<Token>, r: seq<Token>)
    requires Id(ARCH) !in s && (s == [] || s[|s| - 1] != Op(LParen))
    ensures Expand(s + r) == s + Expand(r)
    decreases s
  {
    if s == [] {
      assert s + r == r;
    } else {
      var t, tail := s[0], s[1..];
      HeadTail(s);
      assert t in s && forall x :: x in tail ==> x in s;
      Regroup([t], tail, r);
      if tail != [] { assert (tail + r)[0] == tail[0] && tail[0] in tail; }
      PlainBy(t, tail + r);
      ExpandOther(t, tail + r);
      ForeignTextStays(tail, r);
      Regroup([t], tail, Expand(r));
    }
  }

  lemma {:induction false} TestIsWritten(op: Punct, n: nat)
    ensures Tokens(TestOf(op, n)) == Test(op, n)
  {
  }

  lemma {:induction false} ParenTestIsWritten(op: Punct, n: nat)
    ensures Tokens(Paren(TestOf(op, n))) == [Op(LParen), Id(ARCH), Op(op), Number(n), Op(RParen)]
  {
    TestIsWritten(op, n);
  }

  lemma {:induction false} PairIsWritten(op: Punct)
    ensures Tokens(PairOf(op)) == Pair(op, JoinOf(op))
  {
    var left, right := Paren(TestOf(op, 3510)), Paren(TestOf(op, 9201));
    ParenTestIsWritten(op, 3510);
    ParenTestIsWritten(op, 9201);
    assert Tokens(PairOf(op)) == Tokens(left) + [Op(JoinOf(op))] + Tokens(right);
  }

  lemma {:induction false} IsTestOf(w: Written)
    requires IsTest(w)
    ensures w == TestOf(w.op, w.right.e.value.n)
  {
  }

  lemma {:induction false} TestExpands(op: Punct, n: nat, r: seq<Token>)
    requires op == EqEq || op == Ne
    ensures Expand(Test(op, n) + r) == (if n == 3510 then Block(op, JoinOf(op)) else Test(op, n)) + Expand(r)
  {
    if n == 3510 {
      if op == EqEq { ExpandTestEq(r); } else { ExpandTestNe(r); }
    } else {
      OtherTestStays(op, n, r);
    }
  }

  lemma {:induction false} OtherTestStays(op: Punct, n: nat, r: seq<Token>)
    requires n != 3510
    ensures Expand(Test(op, n) + r) == Test(op, n) + Expand(r)
  {
    NameStays(op, n, r);
    OperatorStays(op, n, r);
    PlainBy(Number(n), r);
    ExpandOther(Number(n), r);
    AllStay(Id(ARCH), Op(op), Number(n), r);
  }

  lemma {:induction false} NameStays(op: Punct, n: nat, r: seq<Token>)
    requires n != 3510
    ensures Expand([Id(ARCH)] + ([Op(op)] + ([Number(n)] + r))) == [Id(ARCH)] + Expand([Op(op)] + ([Number(n)] + r))
  {
    var rest := [Op(op)] + ([Number(n)] + r);
    assert rest[1] == ([Number(n)] + r)[0] == Number(n);
    PairStartsOpen(Id(ARCH), rest);
    TokenStays(Id(ARCH), rest);
  }

  lemma {:induction false} OperatorStays(op: Punct, n: nat, r: seq<Token>)
    ensures Expand([Op(op)] + ([Number(n)] + r)) == [Op(op)] + Expand([Number(n)] + r)
  {
    assert ([Number(n)] + r)[0] == Number(n);
    PlainBy(Op(op), [Number(n)] + r);
    ExpandOther(Op(op), [Number(n)] + r);
  }

  lemma {:induction false} AllStay(a: Token, b: Token, c: Token, r: seq<Token>)
    requires Expand([a] + ([b] + ([c] + r))) == [a] + Expand([b] + ([c] + r))
    requires Expand([b] + ([c] + r)) == [b] + Expand([c] + r) && Expand([c] + r) == [c] + Expand(r)
    ensures Expand([a, b, c] + r) == [a, b, c] + Expand(r)
  {
    assert [a, b, c] == [a] + [b] + [c];
    Regroup4([a], [b], [c], r);
    Regroup4([a], [b], [c], Expand(r));
  }

  /** Rewriting the text of a guard writes the guard as rewritten, on every guard. */
  lemma {:induction false} GuardExpands(w: Written, r: seq<Token>)
    requires Guard(w)
    ensures Expand(Tokens(w) + r) == Tokens(Replaced(w, r)) + Expand(r)
    decreases w, 1
  {
    if Id(ARCH) !in Tokens(w) {
      LastToken(w);
      ForeignTextStays(Tokens(w), r);
    } else if IsTest(w) {
      IsTestOf(w);
      TestIsReplaced(w.op, w.right.e.value.n, r);
    } else {
      ReplacedByParts(w, r);
      PartsExpand(w, Replaced(w, r), r);
    }
  }

  lemma {:induction false} TestNamesArch(op: Punct, n: nat)
    ensures Id(ARCH) in Tokens(TestOf(op, n))
  {
    TestIsWritten(op, n);
    assert Test(op, n)[0] == Id(ARCH);
  }

  lemma {:induction false} ReplacedTest(op: Punct, n: nat, r: seq<Token>)
    requires op == EqEq || op == Ne
    ensures IsTest(TestOf(op, n))
    ensures Replaced(TestOf(op, n), r) == if n == 3510 then Paren(PairOf(op)) else TestOf(op, n)
  {
    TestNamesArch(op, n);
  }

  lemma {:induction false} BlockIsWritten(op: Punct)
    ensures Tokens(Paren(PairOf(op))) == Block(op, JoinOf(op))
  {
    PairIsWritten(op);
  }

  lemma {:induction false} TestIsReplaced(op: Punct, n: nat, r: seq<Token>)
    requires op == EqEq || op == Ne
    ensures IsTest(TestOf(op, n))
    ensures Expand(Tokens(TestOf(op, n)) + r) == Tokens(Replaced(TestOf(op, n), r)) + Expand(r)
  {
    ReplacedTest(op, n, r);
    TestIsWritten(op, n);
    BlockIsWritten(op);
    TestExpands(op, n, r);
  }

  lemma {:induction false} PartsExpand(w: Written, v: Written, r: seq<Token>)
    requires PartsOf(w, r, v)
    ensures Expand(Tokens(w) + r) == Tokens(v) + Expand(r)
    decreases w, 0
  {
    match w
    case Paren(a) =>
      if PairAt(Tokens(w) + r) {
        PairStartStays(w, r);
      } else {
        GuardExpands(a, [Op(RParen)] + r);
        EnclosedExpands(Tokens(a), Tokens(Replaced(a, [Op(RParen)] + r)), r);
      }
    case Unary(_, a) =>
      GuardExpands(a, r);
      NegatedExpands(Tokens(a), Tokens(Replaced(a, r)), r);
    case Binary(op, left, right) =>
      var behind := [Op(op)] + Tokens(right) + r;
      GuardExpands(left, behind);
      GuardExpands(right, r);
      JoinExpands(op, Tokens(left), Tokens(Replaced(left, behind)), Tokens(right), Tokens(Replaced(right, r)), r);
  }

  /** `( A op n )` */
  function Opened(op: Punct, n: nat): seq<Token> { [Op(LParen), Id(ARCH), Op(op), Number(n), Op(RParen)] }

  /** What follows the first test of an expanded gate. */
  function Rest(op: Punct): seq<Token> { [Op(JoinOf(op))] + Opened(op, 9201) }

  lemma {:induction false} PairSplits(op: Punct)
    ensures Pair(op, JoinOf(op)) == Opened(op, 3510) + Rest(op)
  {
  }

  /** A guard that starts with the name of the architecture starts with a test, and an operator follows. */
  lemma {:induction false} ArchFirst(a: Written)
    requires Guard(a) && Tokens(a)[0] == Id(ARCH)
    ensures IsTest(a) || (|Tokens(a)| > 3 && Tokens(a)[3] in {Op(AndAnd), Op(OrOr)})
    decreases a
  {
    if !IsTest(a) && a.Binary? {
      var s, t := Tokens(a.left), Tokens(a.right);
      assert Tokens(a) == s + ([Op(a.op)] + t);
      assert Tokens(a)[0] == s[0];
      ArchFirst(a.left);
      if IsTest(a.left) { IsTestOf(a.left); TestIsWritten(a.left.op, a.left.right.e.value.n); }
    }
  }

  /** A parenthesis that reads as `( A op n )` encloses that test. */
  lemma {:induction false} EnclosesTest(a: Written, r: seq<Token>, op: Punct, n: nat)
    requires Guard(a) && Opened(op, n) <= Tokens(Paren(a)) + r
    ensures a == TestOf(op, n)
  {
    var ts := Tokens(Paren(a)) + r;
    assert Tokens(Paren(a)) == [Op(LParen)] + Tokens(a) + [Op(RParen)];
    assert ts == [Op(LParen)] + (Tokens(a) + ([Op(RParen)] + r));
    assert ts[1] == Tokens(a)[0] && ts[1] == Opened(op, n)[1];
    assert |Tokens(a)| > 3 ==> ts[4] == Tokens(a)[3];
    ArchFirst(a);
    assert ts[4] == Opened(op, n)[4];
    if IsTest(a) {
      IsTestOf(a);
      TestIsWritten(a.op, a.right.e.value.n);
      assert ts[2] == Opened(op, n)[2] && ts[3] == Opened(op, n)[3];
      assert ts[2] == Test(a.op, a.right.e.value.n)[1] && ts[3] == Test(a.op, a.right.e.value.n)[2];
    }
  }

  /** The operator of the expanded gate that stands here. */
  lemma {:induction false} PairAtHas(ts: seq<Token>) returns (op: Punct)
    requires PairAt(ts)
    ensures (op == EqEq || op == Ne) && Opened(op, 3510) + Rest(op) <= ts && Opened(op, 3510) <= ts
  {
    op := if Pair(EqEq, OrOr) <= ts then EqEq else Ne;
    PairSplits(op);
    var p := Pair(op, JoinOf(op));
    assert p <= ts && Opened(op, 3510) == p[..5] == ts[..5];
  }

  /** A test that starts an expanded gate stays, and so does the rest of the gate. */
  lemma {:induction false} PairStartStays(w: Written, r: seq<Token>)
    requires w.Paren? && Guard(w.inner) && PairAt(Tokens(w) + r)
    ensures Expand(Tokens(w) + r) == Tokens(w) + Expand(r)
  {
    var op := PairAtHas(Tokens(w) + r);
    EnclosesTest(w.inner, r, op, 3510);
    ParenTestIsWritten(op, 3510);
    var s := Opened(op, 3510);
    assert Tokens(w) == s;
    assert r == (s + r)[5..] && Rest(op) == (s + Rest(op))[5..];
    assert Rest(op) <= r;
    var end := r[6..];
    assert r == Rest(op) + end;
    PairSplits(op);
    Regroup(s, Rest(op), end);
    RestStays(op, end);
    if op == EqEq { ExpandPairEq(end); } else { ExpandPairNe(end); }
    Regroup(s, Rest(op), Expand(end));
  }

  lemma {:induction false} RestStays(op: Punct, r: seq<Token>)
    requires op == EqEq || op == Ne
    ensures Expand(Rest(op) + r) == Rest(op) + Expand(r)
  {
    var end := [Op(RParen)] + r;
    var test := Test(op, 9201) + end;
    assert Rest(op) + r == [Op(JoinOf(op))] + ([Op(LParen)] + test);
    PairStartsOpen(Op(JoinOf(op)), [Op(LParen)] + test);
    TokenStays(Op(JoinOf(op)), [Op(LParen)] + test);
    SecondIsNoPair(op, end);
    TokenStays(Op(LParen), test);
    OtherTestStays(op, 9201, end);
    PairStartsOpen(Op(RParen), r);
    TokenStays(Op(RParen), r);
    RestJoins(op, Expand(r));
  }

  lemma {:induction false} RestJoins(op: Punct, r: seq<Token>)
    ensures [Op(JoinOf(op))] + ([Op(LParen)] + (Test(op, 9201) + ([Op(RParen)] + r))) == Rest(op) + r
  {
  }

  lemma {:induction false} SecondIsNoPair(op: Punct, r: seq<Token>)
    ensures !PairAt([Op(LParen)] + (Test(op, 9201) + r))
  {
    var ts := [Op(LParen)] + (Test(op, 9201) + r);
    assert ts[3] == Number(9201);
    PairTests3510(ts);
  }

  lemma {:induction false} PairTests3510(ts: seq<Token>)
    ensures PairAt(ts) ==> |ts| > 3 && ts[3] == Number(3510)
  {
    assert Pair(EqEq, OrOr)[3] == Pair(Ne, AndAnd)[3] == Number(3510);
  }

  lemma {:induction false} EnclosedExpands(s: seq<Token>, s': seq<Token>, r: seq<Token>)
    requires !PairAt([Op(LParen)] + s + [Op(RParen)] + r)
    requires Expand(s + ([Op(RParen)] + r)) == s' + Expand([Op(RParen)] + r)
    ensures Expand([Op(LParen)] + s + [Op(RParen)] + r) == [Op(LParen)] + s' + [Op(RParen)] + Expand(r)
  {
    Regroup4([Op(LParen)], s, [Op(RParen)], r);
    TokenStays(Op(LParen), s + ([Op(RParen)] + r));
    PairStartsOpen(Op(RParen), r);
    TokenStays(Op(RParen), r);
    Regroup4([Op(LParen)], s', [Op(RParen)], Expand(r));
  }

  lemma {:induction false} NegatedExpands(s: seq<Token>, s': seq<Token>, r: seq<Token>)
    requires Expand(s + r) == s' + Expand(r)
    ensures Expand([Op(Not)] + s + r) == [Op(Not)] + s' + Expand(r)
  {
    Regroup([Op(Not)], s, r);
    PairStartsOpen(Op(Not), s + r);
    TokenStays(Op(Not), s + r);
    Regroup([Op(Not)], s', Expand(r));
  }

  lemma {:induction false} JoinExpands(
    op: Punct, s: seq<Token>, s': seq<Token>, t: seq<Token>, t': seq<Token>, r: seq<Token>)
    requires op == AndAnd || op == OrOr
    requires Expand(s + ([Op(op)] + t + r)) == s' + Expand([Op(op)] + t + r) && Expand(t + r) == t' + Expand(r)
    ensures Expand(s + [Op(op)] + t + r) == s' + [Op(op)] + t' + Expand(r)
  {
    Regroup([Op(op)], t, r);
    PairStartsOpen(Op(op), t + r);
    TokenStays(Op(op), t + r);
    Regroup4(s, [Op(op)], t, r);
    Regroup4(s', [Op(op)], t', Expand(r));
  }
}
