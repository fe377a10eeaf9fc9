/** What a rewritten guard means: for architecture 9201 what the guard meant for 3510, unless an expanded gate in it
    is torn apart, and for the others what it meant before. */
module ArchGateMeaning {
  import opened Wrappers
  import opened ExprIr
  import opened CppExpr
  import opened CppExprRoundTrip
  import opened TemplateLists
  import opened ArchGates
  import opened ArchGateText
  import opened ArchGateGuards
  import opened Sequences

  // ----- what the rewritten guard means -----

  /** The truth of a guard when `__NPU_ARCH__` passes for each number of `archs`; `other` decides what does not name
      it. */
  ghost predicate Holds(e: Expr, archs: set<int>, other: Expr -> bool)
  {
    match e
    case Un(op, a) => if op == Not then !Holds(a, archs, other) else other(e)
    case Bin(op, l, r) =>
      if op == AndAnd then Holds(l, archs, other) && Holds(r, archs, other)
      else if op == OrOr then Holds(l, archs, other) || Holds(r, archs, other)
      else if op in {EqEq, Ne} && l == Ref(ARCH) && r.Const? && r.value.IntV? then (op == EqEq) == (r.value.n in archs)
      else other(e)
    case _ => other(e)
  }

  lemma {:induction false} ReplacedIsWellWritten(w: Written, r: seq<Token>)
    requires Guard(w) && WellWritten(w)
    ensures WellWritten(Replaced(w, r)) && Level(Replaced(w, r)) >= Level(w)
    decreases w, 1
  {
    if Id(ARCH) !in Tokens(w) {
    } else if IsTest(w) {
      IsTestOf(w);
      ReplacedTest(w.op, w.right.e.value.n, r);
      BlockIsWellWritten(w.op);
    } else {
      ReplacedByParts(w, r);
      PartsAreWellWritten(w, Replaced(w, r), r);
    }
  }

  lemma {:induction false} PartsAreWellWritten(w: Written, v: Written, r: seq<Token>)
    requires WellWritten(w) && PartsOf(w, r, v)
    ensures WellWritten(v) && Level(v) >= Level(w)
    decreases w, 0
  {
    match w
    case Paren(a) => ReplacedIsWellWritten(a, [Op(RParen)] + r);
    case Unary(_, a) => ReplacedIsWellWritten(a, r);
    case Binary(op, left, right) =>
      ReplacedIsWellWritten(left, [Op(op)] + Tokens(right) + r);
      ReplacedIsWellWritten(right, r);
  }

  lemma {:induction false} ArchIsPlain()
    ensures PlainName(ARCH)
  {
    assert ARCH[0] == '_';
    assert "static_cast"[0] == 's' && "reinterpret_cast"[0] == 'r';
    assert "const_cast"[0] == 'c' && "dynamic_cast"[0] == 'd';
    assert "nullptr"[0] == 'n' && "NULL"[0] == 'N' && "true"[0] == 't' && "false"[0] == 'f';
  }

  lemma {:induction false} TestIsWellWritten(op: Punct, n: nat)
    requires op == EqEq || op == Ne
    ensures WellWritten(TestOf(op, n)) && Level(TestOf(op, n)) == 6
  {
    ArchIsPlain();
  }

  lemma {:induction false} ParenIsWellWritten(a: Written)
    requires WellWritten(a)
    ensures WellWritten(Paren(a)) && Level(Paren(a)) == POSTFIX_LEVEL
  {
  }

  lemma {:induction false} JoinIsWellWritten(op: Punct, left: Written, right: Written)
    requires op in {AndAnd, OrOr} && WellWritten(left) && WellWritten(right)
    requires Level(left) >= Prec(op) && Level(right) > Prec(op)
    ensures WellWritten(Binary(op, left, right)) && Level(Binary(op, left, right)) == Prec(op)
  {
  }

  lemma {:induction false} BlockIsWellWritten(op: Punct)
    requires op == EqEq || op == Ne
    ensures WellWritten(Paren(PairOf(op))) && Level(Paren(PairOf(op))) == POSTFIX_LEVEL
  {
    PairIsWellWritten(op);
    ParenIsWellWritten(PairOf(op));
  }

  lemma {:induction false} PairIsWellWritten(op: Punct)
    requires op == EqEq || op == Ne
    ensures WellWritten(PairOf(op))
  {
    TestIsWellWritten(op, 3510);
    TestIsWellWritten(op, 9201);
    ParenIsWellWritten(TestOf(op, 3510));
    ParenIsWellWritten(TestOf(op, 9201));
    JoinIsWellWritten(JoinOf(op), Paren(TestOf(op, 3510)), Paren(TestOf(op, 9201)));
  }

  /** A name that is all of a tree stands in its text. */
  lemma {:induction false} NameIsWritten(w: Written)
    requires Tree(w).Ref?
    ensures Id(Tree(w).symbol) in Tokens(w)
    decreases w
  {
    match w
    case Leaf(e) =>
    case Paren(a) =>
      NameIsWritten(a);
      assert Tokens(w) == [Op(LParen)] + Tokens(a) + [Op(RParen)];
    case TypeCast(f, a) =>
      NameIsWritten(a);
      assert Tokens(w) == [Id(f), Op(LParen)] + Tokens(a) + [Op(RParen)];
    case NamedCast(f, a) =>
      NameIsWritten(a);
      assert Tokens(w) == [Id(f), Op(LParen)] + Tokens(a) + [Op(RParen)];
  }

  /** What does not name the architecture does not depend on it. */
  lemma {:induction false} ForeignMeaning(w: Written, archs: set<int>, archs': set<int>, other: Expr -> bool)
    requires WellWritten(w) && Id(ARCH) !in Tokens(w)
    ensures Holds(Tree(w), archs, other) == Holds(Tree(w), archs', other)
    decreases w
  {
    match w
    case Paren(a) =>
      assert Tokens(w) == [Op(LParen)] + Tokens(a) + [Op(RParen)];
      ForeignMeaning(a, archs, archs', other);
    case Unary(op, a) =>
      assert Tokens(w) == [Op(op)] + Tokens(a);
      ForeignMeaning(a, archs, archs', other);
    case Binary(op, left, right) =>
      assert Tokens(w) == Tokens(left) + [Op(op)] + Tokens(right);
      ForeignMeaning(left, archs, archs', other);
      ForeignMeaning(right, archs, archs', other);
      if Tree(left).Ref? { NameIsWritten(left); }
    case TypeCast(f, a) =>
      assert Tokens(w) == [Id(f), Op(LParen)] + Tokens(a) + [Op(RParen)];
      ForeignMeaning(a, archs, archs', other);
    case NamedCast(f, a) =>
      assert Tokens(w) == [Id(f), Op(LParen)] + Tokens(a) + [Op(RParen)];
      ForeignMeaning(a, archs, archs', other);
    case _ =>
  }

  /** The numbers `__NPU_ARCH__` passes for once the gates are rewritten: 9201 passes for 3510 as well. */
  function Passing(arch: int): set<int>
  {
    if arch == 9201 then {3510, 9201} else {arch}
  }

  lemma {:induction false} TestHolds(op: Punct, n: nat, archs: set<int>, other: Expr -> bool)
    requires op in {EqEq, Ne}
    ensures Holds(Tree(TestOf(op, n)), archs, other) == ((op == EqEq) == (n in archs))
  {
    assert Tree(TestOf(op, n)) == Bin(op, Ref(ARCH), Const(IntV(n), false));
  }

  lemma {:induction false} PairHolds(op: Punct, archs: set<int>, other: Expr -> bool)
    requires op in {EqEq, Ne}
    ensures Holds(Tree(PairOf(op)), archs, other) == ((op == EqEq) == (3510 in archs || 9201 in archs))
  {
    TestHolds(op, 3510, archs, other);
    TestHolds(op, 9201, archs, other);
    var left, right := Tree(TestOf(op, 3510)), Tree(TestOf(op, 9201));
    assert Tree(PairOf(op)) == Bin(JoinOf(op), left, right);
  }

  lemma {:induction false} TestMeaning(op: Punct, n: nat, r: seq<Token>, arch: int, other: Expr -> bool)
    requires op == EqEq || op == Ne
    ensures IsTest(TestOf(op, n))
    ensures Holds(Tree(Replaced(TestOf(op, n), r)), {arch}, other) == Holds(Tree(TestOf(op, n)), Passing(arch), other)
  {
    ReplacedTest(op, n, r);
    if n == 3510 { BlockMeaning(op, arch, other); } else { OtherTestMeaning(op, n, arch, other); }
  }

  lemma {:induction false} BlockMeaning(op: Punct, arch: int, other: Expr -> bool)
    requires op == EqEq || op == Ne
    ensures Holds(Tree(Paren(PairOf(op))), {arch}, other) == Holds(Tree(TestOf(op, 3510)), Passing(arch), other)
  {
    TestHolds(op, 3510, Passing(arch), other);
    PairHolds(op, {arch}, other);
    ParenMeansInner(PairOf(op));
  }

  lemma {:induction false} OtherTestMeaning(op: Punct, n: nat, arch: int, other: Expr -> bool)
    requires (op == EqEq || op == Ne) && n != 3510
    ensures Holds(Tree(TestOf(op, n)), {arch}, other) == Holds(Tree(TestOf(op, n)), Passing(arch), other)
  {
    TestHolds(op, n, Passing(arch), other);
    TestHolds(op, n, {arch}, other);
  }

  lemma {:induction false} ParenMeansInner(w: Written)
    ensures Tree(Paren(w)) == Tree(w)
  {
  }

  // ----- architectures other than 9201 -----

  /** No other architecture sees a difference, whatever is kept. */
  lemma {:induction false} OthersKeepMeaning(w: Written, r: seq<Token>, arch: int, other: Expr -> bool)
    requires Guard(w) && WellWritten(w) && arch != 9201
    ensures Holds(Tree(Replaced(w, r)), {arch}, other) == Holds(Tree(w), {arch}, other)
    decreases w, 1
  {
    if Id(ARCH) !in Tokens(w) {
    } else if IsTest(w) {
      IsTestOf(w);
      TestMeaning(w.op, w.right.e.value.n, r, arch, other);
    } else {
      ReplacedByParts(w, r);
      OtherPartsKeepMeaning(w, Replaced(w, r), r, arch, other);
    }
  }

  lemma {:induction false} OtherPartsKeepMeaning(w: Written, v: Written, r: seq<Token>, arch: int, other: Expr -> bool)
    requires WellWritten(w) && PartsOf(w, r, v) && arch != 9201
    ensures Holds(Tree(v), {arch}, other) == Holds(Tree(w), {arch}, other)
    decreases w, 0
  {
    match w
    case Paren(a) => OthersKeepMeaning(a, [Op(RParen)] + r, arch, other);
    case Unary(_, a) => OthersKeepMeaning(a, r, arch, other);
    case Binary(op, left, right) =>
      OthersKeepMeaning(left, [Op(op)] + Tokens(right) + r, arch, other);
      OthersKeepMeaning(right, r, arch, other);
  }

  // ----- architecture 9201 -----

  /** An expanded `==` gate stands here with `&&` behind it. */
  predicate TornAt(ts: seq<Token>) { Pair(EqEq, OrOr) + [Op(AndAnd)] <= ts }

  /** No expanded `==` gate is directly followed by `&&`. */
  predicate NoneTorn(ts: seq<Token>)
  {
    ts == [] || (!TornAt(ts) && NoneTorn(ts[1..]))
  }

  lemma {:induction false} NoneTornFrom(s: seq<Token>, t: seq<Token>)
    requires NoneTorn(s + t)
    ensures NoneTorn(t)
    decreases s
  {
    if s == [] {
      assert s + t == t;
    } else {
      assert (s + t)[1..] == s[1..] + t;
      NoneTornFrom(s[1..], t);
    }
  }

  /** An expanded gate starts with the last parenthesis of `s` and ends in `r`. */
  ghost predicate Straddles(s: seq<Token>, r: seq<Token>, op: Punct)
  {
    |s| >= 5 && s[|s| - 5..] == Opened(op, 3510) && Rest(op) <= r
  }

  lemma {:induction false} StraddlesBehind(s: seq<Token>, t: seq<Token>, r: seq<Token>, op: Punct)
    requires Straddles(t, r, op)
    ensures Straddles(s + t, r, op)
  {
    assert (s + t)[|s + t| - 5..] == t[|t| - 5..];
  }

  /** What the guard means for 9201 when it passes for 3510 as well, and what it means as rewritten. */
  ghost predicate Kept(w: Written, v: Written, other: Expr -> bool)
  {
    Holds(Tree(v), {9201}, other) == Holds(Tree(w), Passing(9201), other)
  }

  /** An operand keeps its meaning unless an expanded gate starts in its last test and ends behind it. */
  lemma {:induction false} KeptUnlessStraddled(w: Written, r: seq<Token>, other: Expr -> bool)
    requires Guard(w) && WellWritten(w) && NoneTorn(Tokens(w) + r)
    ensures Kept(w, Replaced(w, r), other) || Straddles(Tokens(w), r, EqEq) || Straddles(Tokens(w), r, Ne)
    decreases w, 1
  {
    if Id(ARCH) !in Tokens(w) {
      ForeignMeaning(w, {9201}, Passing(9201), other);
    } else if IsTest(w) {
      IsTestOf(w);
      TestMeaning(w.op, w.right.e.value.n, r, 9201, other);
    } else {
      ReplacedByParts(w, r);
      match w
      case Paren(_) => ParenKept(w, Replaced(w, r), r, other);
      case Unary(_, _) => NotKept(w, Replaced(w, r), r, other);
      case Binary(op, _, _) =>
        if op == AndAnd { AndKept(w, Replaced(w, r), r, other); } else { OrKept(w, Replaced(w, r), r, other); }
    }
  }

  lemma {:induction false} ParenKept(w: Written, v: Written, r: seq<Token>, other: Expr -> bool)
    requires w.Paren? && WellWritten(w) && PartsOf(w, r, v) && NoneTorn(Tokens(w) + r)
    ensures Kept(w, v, other) || Straddles(Tokens(w), r, EqEq) || Straddles(Tokens(w), r, Ne)
    decreases w, 0
  {
    var a, behind := w.inner, [Op(RParen)] + r;
    if PairAt(Tokens(w) + r) {
      PairStraddles(w, r);
    } else {
      Regroup4([Op(LParen)], Tokens(a), [Op(RParen)], r);
      NoneTornFrom([Op(LParen)], Tokens(a) + behind);
      KeptUnlessStraddled(a, behind, other);
      RestStartsOtherwise(r);
    }
  }

  lemma {:induction false} RestStartsOtherwise(r: seq<Token>)
    ensures !(Rest(EqEq) <= [Op(RParen)] + r) && !(Rest(Ne) <= [Op(RParen)] + r)
  {
    assert Rest(EqEq)[0] == Op(OrOr) && Rest(Ne)[0] == Op(AndAnd) && ([Op(RParen)] + r)[0] == Op(RParen);
  }

  lemma {:induction false} PairStraddles(w: Written, r: seq<Token>)
    requires w.Paren? && Guard(w.inner) && PairAt(Tokens(w) + r)
    ensures Straddles(Tokens(w), r, EqEq) || Straddles(Tokens(w), r, Ne)
  {
    var op := PairAtHas(Tokens(w) + r);
    EnclosesTest(w.inner, r, op, 3510);
    ParenTestIsWritten(op, 3510);
    var s := Opened(op, 3510);
    assert Tokens(w) == s && s[0..] == s;
    assert r == (s + r)[5..] && Rest(op) == (s + Rest(op))[5..];
  }

  lemma {:induction false} NotKept(w: Written, v: Written, r: seq<Token>, other: Expr -> bool)
    requires w.Unary? && WellWritten(w) && PartsOf(w, r, v) && NoneTorn(Tokens(w) + r)
    ensures Kept(w, v, other) || Straddles(Tokens(w), r, EqEq) || Straddles(Tokens(w), r, Ne)
    decreases w, 0
  {
    var s := Tokens(w.arg);
    Regroup([Op(w.op)], s, r);
    NoneTornFrom([Op(w.op)], s + r);
    KeptUnlessStraddled(w.arg, r, other);
    if Straddles(s, r, EqEq) { StraddlesBehind([Op(w.op)], s, r, EqEq); }
    if Straddles(s, r, Ne) { StraddlesBehind([Op(w.op)], s, r, Ne); }
  }

  /** What holds of both operands. */
  lemma {:induction false} OperandsKept(w: Written, v: Written, r: seq<Token>, other: Expr -> bool)
    requires w.Binary? && WellWritten(w) && PartsOf(w, r, v) && NoneTorn(Tokens(w) + r)
    ensures v.Binary? && v.op == w.op
    ensures var behind := [Op(w.op)] + Tokens(w.right) + r;
            || Kept(w.left, v.left, other)
            || Straddles(Tokens(w.left), behind, EqEq) || Straddles(Tokens(w.left), behind, Ne)
    ensures Kept(w.right, v.right, other) || Straddles(Tokens(w), r, EqEq) || Straddles(Tokens(w), r, Ne)
    ensures NoneTorn(Tokens(w.left) + ([Op(w.op)] + Tokens(w.right) + r))
    decreases w, 0, 0
  {
    var s, m, t := Tokens(w.left), [Op(w.op)], Tokens(w.right);
    Regroup4(s, m, t, r);
    Regroup(m, t, r);
    KeptUnlessStraddled(w.left, m + t + r, other);
    Regroup(s + m, t, r);
    NoneTornFrom(s + m, t + r);
    KeptUnlessStraddled(w.right, r, other);
    if Straddles(t, r, EqEq) { StraddlesBehind(s + m, t, r, EqEq); }
    if Straddles(t, r, Ne) { StraddlesBehind(s + m, t, r, Ne); }
  }

  lemma {:induction false} TestStartsWithArch(w: Written)
    ensures IsTest(w) ==> Tokens(w)[0] == Id(ARCH)
  {
    if IsTest(w) { IsTestOf(w); TestIsWritten(w.op, w.right.e.value.n); }
  }

  lemma {:induction false} OpenedShows(x: Written, r: seq<Token>, op: Punct, n: nat)
    requires Opened(op, n) <= Tokens(x) + r
    ensures Tokens(x)[0] == Op(LParen) && Id(ARCH) in Tokens(x) && !IsTest(x)
  {
    var ts := Tokens(x) + r;
    assert ts[0] == Opened(op, n)[0] == Op(LParen) && ts[1] == Opened(op, n)[1] == Id(ARCH);
    LastToken(x);
    TestStartsWithArch(x);
    assert Tokens(x)[0] == Op(LParen);
    assert |Tokens(x)| > 1 && Tokens(x)[1] == Id(ARCH);
  }

  /** An operand of `&&` or `||` that starts with a test in parentheses is that test or goes on with `&&`. */
  lemma {:induction false} StartsOpened(x: Written, r: seq<Token>, op: Punct, n: nat)
    requires Guard(x) && WellWritten(x) && Level(x) >= Prec(AndAnd) && Opened(op, n) <= Tokens(x) + r
    ensures x == Paren(TestOf(op, n)) ||
            (x.Binary? && x.op == AndAnd && |Tokens(x)| > 5 && Tokens(x)[5] == Op(AndAnd))
    decreases x
  {
    OpenedShows(x, r, op, n);
    if x.Paren? {
      EnclosesTest(x.inner, r, op, n);
    } else if x.Binary? {
      var s, t := Tokens(x.left), [Op(x.op)] + Tokens(x.right);
      Regroup(s, [Op(x.op)], Tokens(x.right));
      Regroup(s, t, r);
      ConjunctionParts(x);
      StartsOpened(x.left, t + r, op, n);
      ParenTestIsWritten(op, n);
      FifthToken(s, x.op, Tokens(x.right));
    }
  }

  lemma {:induction false} ConjunctionParts(x: Written)
    requires x.Binary? && Guard(x) && WellWritten(x) && Level(x) >= Prec(AndAnd) && Id(ARCH) in Tokens(x) && !IsTest(x)
    ensures x.op == AndAnd && Guard(x.left) && WellWritten(x.left) && Level(x.left) >= Prec(AndAnd)
  {
  }

  lemma {:induction false} FifthToken(s: seq<Token>, op: Punct, t: seq<Token>)
    ensures |s| == 5 ==> (s + [Op(op)] + t)[5] == Op(op)
    ensures |s| > 5 ==> (s + [Op(op)] + t)[5] == s[5]
  {
  }

  /** What stands behind the straddled operator starts with the second test. */
  lemma {:induction false} RestShows(op: Punct, m: Punct, t: seq<Token>, r: seq<Token>)
    requires Rest(op) <= [Op(m)] + t + r
    ensures m == JoinOf(op) && Opened(op, 9201) <= t + r
  {
    var ts := [Op(m)] + t + r;
    assert ts == [Op(m)] + (t + r) && Rest(op)[0] == ts[0];
    assert Rest(op)[1..] == Opened(op, 9201) && ts[1..] == t + r;
  }

  lemma {:induction false} AndKept(w: Written, v: Written, r: seq<Token>, other: Expr -> bool)
    requires w.Binary? && w.op == AndAnd && WellWritten(w) && PartsOf(w, r, v) && NoneTorn(Tokens(w) + r)
    ensures Kept(w, v, other) || Straddles(Tokens(w), r, EqEq) || Straddles(Tokens(w), r, Ne)
    decreases w, 0, 1
  {
    OperandsKept(w, v, r, other);
    var behind := [Op(AndAnd)] + Tokens(w.right) + r;
    if Rest(EqEq) <= behind { RestShows(EqEq, AndAnd, Tokens(w.right), r); }
    if Straddles(Tokens(w.left), behind, Ne) {
      RestShows(Ne, AndAnd, Tokens(w.right), r);
      StartsOpened(w.right, r, Ne, 9201);
      SecondTestDecides(w.right, v.right, r, Ne, other);
    }
    JoinKeeps(w, v, other);
  }

  /** Equal operands give equal values, and an operand that decides gives the value alone. */
  lemma {:induction false} JoinKeeps(w: Written, v: Written, other: Expr -> bool)
    requires w.Binary? && v.Binary? && v.op == w.op && w.op in {AndAnd, OrOr}
    ensures Kept(w.left, v.left, other) && Kept(w.right, v.right, other) ==> Kept(w, v, other)
    ensures Holds(Tree(w.right), Passing(9201), other) == Holds(Tree(v.right), {9201}, other) == (w.op == OrOr) ==>
              Kept(w, v, other)
  {
  }

  /** The second test of a gate has the same value for 9201 either way. */
  lemma {:induction false} SecondTestDecides(x: Written, v: Written, r: seq<Token>, op: Punct, other: Expr -> bool)
    requires (op == EqEq || op == Ne) && x == Paren(TestOf(op, 9201)) && Guard(x) && v == Replaced(x, r)
    ensures Holds(Tree(x), Passing(9201), other) == Holds(Tree(v), {9201}, other) == (op == EqEq)
  {
    ParenTestIsWritten(op, 9201);
    assert Tokens(x)[1] == Id(ARCH);
    ReplacedTest(op, 9201, [Op(RParen)] + r);
    assert v == x;
    ParenMeansInner(TestOf(op, 9201));
    TestHolds(op, 9201, {9201}, other);
    TestHolds(op, 9201, Passing(9201), other);
  }

  lemma {:induction false} OrKept(w: Written, v: Written, r: seq<Token>, other: Expr -> bool)
    requires w.Binary? && w.op == OrOr && WellWritten(w) && PartsOf(w, r, v) && NoneTorn(Tokens(w) + r)
    ensures Kept(w, v, other) || Straddles(Tokens(w), r, EqEq) || Straddles(Tokens(w), r, Ne)
    decreases w, 0, 1
  {
    OperandsKept(w, v, r, other);
    var behind := [Op(OrOr)] + Tokens(w.right) + r;
    if Rest(Ne) <= behind { RestShows(Ne, OrOr, Tokens(w.right), r); }
    if Straddles(Tokens(w.left), behind, EqEq) {
      StraddledIsSecondTest(w, r);
      SecondTestDecides(w.right, v.right, r, EqEq, other);
    }
    JoinKeeps(w, v, other);
  }

  /** What stands behind a straddled `||` is the second test, or else the gate is torn. */
  lemma {:induction false} StraddledIsSecondTest(w: Written, r: seq<Token>)
    requires w.Binary? && w.op == OrOr && WellWritten(w) && Guard(w.right)
    requires NoneTorn(Tokens(w.left) + ([Op(OrOr)] + Tokens(w.right) + r))
    requires Straddles(Tokens(w.left), [Op(OrOr)] + Tokens(w.right) + r, EqEq)
    ensures w.right == Paren(TestOf(EqEq, 9201))
  {
    RestShows(EqEq, OrOr, Tokens(w.right), r);
    StartsOpened(w.right, r, EqEq, 9201);
    if |Tokens(w.right)| > 5 && Tokens(w.right)[5] == Op(AndAnd) { GoesOnTorn(Tokens(w.left), Tokens(w.right), r); }
  }

  /** A gate whose second test goes on with `&&` is torn. */
  lemma {:induction false} GoesOnTorn(s: seq<Token>, t: seq<Token>, r: seq<Token>)
    requires Straddles(s, [Op(OrOr)] + t + r, EqEq) && |t| > 5 && t[5] == Op(AndAnd)
    ensures !NoneTorn(s + ([Op(OrOr)] + t + r))
  {
    var k, behind := |s| - 5, [Op(OrOr)] + t + r;
    var front, tail := s[..k], s[k..] + behind;
    assert s + behind == front + tail;
    PairSplits(EqEq);
    assert Rest(EqEq) == behind[..6] && behind[6] == t[5];
    assert behind == Rest(EqEq) + [Op(AndAnd)] + behind[7..];
    TornFront(behind[7..]);
    assert tail == Opened(EqEq, 3510) + behind;
    if NoneTorn(s + behind) { NoneTornFrom(front, tail); }
  }

  lemma {:induction false} TornFront(r: seq<Token>)
    ensures TornAt(Opened(EqEq, 3510) + (Rest(EqEq) + [Op(AndAnd)] + r))
  {
    PairSplits(EqEq);
    assert Opened(EqEq, 3510) + (Rest(EqEq) + [Op(AndAnd)] + r) == (Pair(EqEq, OrOr) + [Op(AndAnd)]) + r;
  }

  // ----- a rewritten guard is a guard again, and no more torn than before -----

  lemma {:induction false} RewrittenIsGuard(w: Written, r: seq<Token>)
    requires Guard(w)
    ensures Guard(Replaced(w, r))
    decreases w
  {
    if Id(ARCH) !in Tokens(w) {
    } else if IsTest(w) {
      PairIsGuard(w.op);
    } else {
      match w
      case Paren(a) => RewrittenIsGuard(a, [Op(RParen)] + r);
      case Unary(_, a) => RewrittenIsGuard(a, r);
      case Binary(op, left, right) =>
        RewrittenIsGuard(left, [Op(op)] + Tokens(right) + r);
        RewrittenIsGuard(right, r);
    }
  }

  lemma {:induction false} PairIsGuard(op: Punct)
    requires op == EqEq || op == Ne
    ensures Guard(Paren(PairOf(op)))
  {
    assert IsTest(TestOf(op, 3510)) && IsTest(TestOf(op, 9201));
    assert Guard(Paren(TestOf(op, 3510))) && Guard(Paren(TestOf(op, 9201)));
    assert Guard(PairOf(op));
  }

  lemma {:induction false} TornIsPair(ts: seq<Token>)
    ensures TornAt(ts) ==> Pair(EqEq, OrOr) <= ts && PairAt(ts)
  {
    var p := Pair(EqEq, OrOr);
    if TornAt(ts) { assert p == (p + [Op(AndAnd)])[..11] == ts[..11]; }
  }

  /** No gate starts in text without an opening parenthesis. */
  lemma {:induction false} NoneTornOver(s: seq<Token>, r: seq<Token>)
    requires Op(LParen) !in s
    ensures NoneTorn(s + r) <==> NoneTorn(r)
    decreases s
  {
    if s == [] {
      assert s + r == r;
    } else {
      HeadTail(s);
      assert s[0] in s && forall x :: x in s[1..] ==> x in s;
      Regroup([s[0]], s[1..], r);
      PairStartsOpen(s[0], s[1..] + r);
      TornIsPair(s + r);
      assert (s + r)[1..] == s[1..] + r;
      NoneTornOver(s[1..], r);
    }
  }

  lemma {:induction false} NoneTornStep(t: Token, r: seq<Token>)
    ensures NoneTorn([t] + r) <==> !TornAt([t] + r) && NoneTorn(r)
  {
    assert ([t] + r)[1..] == r;
  }

  /** Within a gate no other one starts. */
  lemma {:induction false} NoneTornInPair(op: Punct, r: seq<Token>)
    requires op == EqEq || op == Ne
    ensures NoneTorn(Pair(op, JoinOf(op)) + r) <==> !TornAt(Pair(op, JoinOf(op)) + r) && NoneTorn(r)
  {
    var first, second := Test(op, 3510) + [Op(RParen), Op(JoinOf(op))], Test(op, 9201) + [Op(RParen)];
    var inner := [Op(LParen)] + (second + r);
    assert Pair(op, JoinOf(op)) + r == [Op(LParen)] + (first + inner);
    NoneTornStep(Op(LParen), first + inner);
    NoneTornOver(first, inner);
    Regroup(Test(op, 9201), [Op(RParen)], r);
    SecondIsNoPair(op, [Op(RParen)] + r);
    TornIsPair(inner);
    NoneTornStep(Op(LParen), second + r);
    NoneTornOver(second, r);
  }

  lemma {:induction false} PairIsTornIff(op: Punct, r: seq<Token>)
    requires op == EqEq || op == Ne
    ensures TornAt(Pair(op, JoinOf(op)) + r) <==> op == EqEq && r != [] && r[0] == Op(AndAnd)
  {
    var p, ts := Pair(op, JoinOf(op)), Pair(op, JoinOf(op)) + r;
    var torn := Pair(EqEq, OrOr) + [Op(AndAnd)];
    assert ts[2] == Op(op) && torn[2] == Op(EqEq) && torn[11] == Op(AndAnd);
    assert r != [] ==> ts[11] == r[0];
    if op == EqEq && r != [] && r[0] == Op(AndAnd) { assert ts == torn + r[1..]; }
  }

  /** Rewriting keeps a first `&&`, and makes up none. */
  lemma {:induction false} FirstAnd(r: seq<Token>)
    ensures Expand(r) != [] && Expand(r)[0] == Op(AndAnd) <==> r != [] && r[0] == Op(AndAnd)
  {
    if r != [] && r[0] == Op(AndAnd) {
      HeadTail(r);
      PairStartsOpen(Op(AndAnd), r[1..]);
      TokenStays(Op(AndAnd), r[1..]);
    }
    if Expand(r) != [] && Expand(r)[0] == Op(AndAnd) {
      assert [Op(AndAnd)] <= Expand(r);
      ExpandStart([Op(AndAnd)], r);
    }
  }

  lemma {:induction false} BlockIsNotTorn(op: Punct, r: seq<Token>)
    requires op == EqEq || op == Ne
    ensures NoneTorn(Block(op, JoinOf(op)) + r) <==> NoneTorn(r)
  {
    var p, end := Pair(op, JoinOf(op)), [Op(RParen)] + r;
    Regroup4([Op(LParen)], p, [Op(RParen)], r);
    assert (p + end)[0] == Op(LParen);
    PlainBy(Op(LParen), p + end);
    TornIsPair([Op(LParen)] + (p + end));
    NoneTornStep(Op(LParen), p + end);
    NoneTornInPair(op, end);
    PairIsTornIff(op, end);
    NoneTornOver([Op(RParen)], r);
  }

  /** Rewriting tears no gate apart and mends none, on any text. */
  lemma {:induction false} RewritingTearsNothing(ts: seq<Token>)
    ensures NoneTorn(Expand(ts)) <==> NoneTorn(ts)
    decreases |ts|, 1
  {
    if ts == [] {
    } else if Plain(ts) {
      var r := ts[1..];
      HeadTail(ts);
      ExpandOther(ts[0], r);
      NoPairArises(EqEq, OrOr, ts[0], r);
      TornIsPair([ts[0]] + Expand(r));
      TornIsPair(ts);
      NoneTornStep(ts[0], Expand(r));
      RewritingTearsNothing(r);
    } else if PairAt(ts) {
      TearsNothingInPair(if Pair(EqEq, OrOr) <= ts then EqEq else Ne, ts);
    } else {
      TearsNothingInTest(if Test(EqEq, 3510) <= ts then EqEq else Ne, ts);
    }
  }

  lemma {:induction false} TearsNothingInPair(op: Punct, ts: seq<Token>)
    requires (op == EqEq || op == Ne) && Pair(op, JoinOf(op)) <= ts
    ensures NoneTorn(Expand(ts)) <==> NoneTorn(ts)
    decreases |ts|, 0
  {
    var p, r := Pair(op, JoinOf(op)), ts[11..];
    assert ts == p + r;
    if op == EqEq { ExpandPairEq(r); } else { ExpandPairNe(r); }
    NoneTornInPair(op, r);
    NoneTornInPair(op, Expand(r));
    PairIsTornIff(op, r);
    PairIsTornIff(op, Expand(r));
    FirstAnd(r);
    RewritingTearsNothing(r);
  }

  lemma {:induction false} TearsNothingInTest(op: Punct, ts: seq<Token>)
    requires (op == EqEq || op == Ne) && Test(op, 3510) <= ts
    ensures NoneTorn(Expand(ts)) <==> NoneTorn(ts)
    decreases |ts|, 0
  {
    var r := ts[3..];
    assert ts == Test(op, 3510) + r;
    TestExpands(op, 3510, r);
    NoneTornOver(Test(op, 3510), r);
    BlockIsNotTorn(op, Expand(r));
    RewritingTearsNothing(r);
  }

  // ----- any guard -----

  /** Rewriting a guard puts no template argument list behind a member name. */
  lemma {:induction false} RewritingAddsNoList(w: Written, r: seq<Token>)
    requires Guard(w) && WellWritten(w) && NoMemberList(Tokens(w))
    ensures NoMemberList(Tokens(Replaced(w, r)))
    decreases w, 1
  {
    if Id(ARCH) !in Tokens(w) {
    } else if IsTest(w) {
      IsTestOf(w);
      ReplacedTest(w.op, w.right.e.value.n, r);
      BlockIsWritten(w.op);
      NoMemberNoList(Block(w.op, JoinOf(w.op)));
    } else {
      ReplacedByParts(w, r);
      PartsAddNoList(w, Replaced(w, r), r);
    }
  }

  lemma {:induction false} PartsAddNoList(w: Written, v: Written, r: seq<Token>)
    requires WellWritten(w) && NoMemberList(Tokens(w)) && PartsOf(w, r, v)
    ensures NoMemberList(Tokens(v))
    decreases w, 0
  {
    match w
    case Paren(a) =>
      if v != w {
        NoListWithin([Op(LParen)], Tokens(a), [Op(RParen)]);
        RewritingAddsNoList(a, [Op(RParen)] + r);
        EnclosedHasNoList(v.inner);
      }
    case Unary(op, a) =>
      assert Tokens(w) == [Op(op)] + Tokens(a) + [];
      NoListWithin([Op(op)], Tokens(a), []);
      RewritingAddsNoList(a, r);
      NoListBehindOne(Op(op), Tokens(v.arg));
    case Binary(op, left, right) =>
      OperandsHaveNoList(w);
      RewritingAddsNoList(left, [Op(op)] + Tokens(right) + r);
      RewritingAddsNoList(right, r);
      JoinHasNoList(op, v.left, v.right);
  }

  lemma {:induction false} EnclosedHasNoList(a: Written)
    requires NoMemberList(Tokens(a))
    ensures NoMemberList(Tokens(Paren(a)))
  {
    NoMemberNoList([Op(RParen)]);
    NoListJoin(Tokens(a), [Op(RParen)]);
    NoListBehindOne(Op(LParen), Tokens(a) + [Op(RParen)]);
    Regroup([Op(LParen)], Tokens(a), [Op(RParen)]);
  }

  lemma {:induction false} OperandsHaveNoList(w: Written)
    requires w.Binary? && NoMemberList(Tokens(w))
    ensures NoMemberList(Tokens(w.left)) && NoMemberList(Tokens(w.right))
  {
    var s, m, t := Tokens(w.left), [Op(w.op)], Tokens(w.right);
    assert [] + s + (m + t) == s + m + t && (s + m) + t + [] == s + m + t;
    NoListWithin([], s, m + t);
    NoListWithin(s + m, t, []);
  }

  lemma {:induction false} JoinHasNoList(op: Punct, left: Written, right: Written)
    requires op in {AndAnd, OrOr} && NoMemberList(Tokens(left)) && NoMemberList(Tokens(right))
    ensures NoMemberList(Tokens(Binary(op, left, right)))
  {
    NoListBehindOne(Op(op), Tokens(right));
    NoListJoin(Tokens(left), [Op(op)] + Tokens(right));
    Regroup(Tokens(left), [Op(op)], Tokens(right));
  }

  /** The rewritten text of any guard parses to the end, and means the guard as rewritten. */
  lemma {:induction false} RewrittenGuardParses(w: Written)
    requires WellWritten(w) && Guard(w) && NoMemberList(Tokens(w))
    ensures ParseTernary(Expand(Tokens(w)), 0) == (Tree(Replaced(w, [])), |Expand(Tokens(w))|)
  {
    assert Tokens(w) + [] == Tokens(w);
    GuardExpands(w, []);
    assert Expand(Tokens(w)) == Tokens(Replaced(w, []));
    ReplacedIsWellWritten(w, []);
    RewritingAddsNoList(w, []);
    ParseInvertsWriting(Replaced(w, []));
  }

  /** A guard: its rewritten text parses to the end, and the tree means for every architecture what the guard
      meant when 9201 passes for 3510 as well; for 9201 itself, if no expanded `==` gate is followed by `&&`. */
  lemma {:induction false} RewrittenGuardMeans(w: Written, arch: int, other: Expr -> bool)
    requires WellWritten(w) && Guard(w) && NoMemberList(Tokens(w))
    ensures var text := Expand(Tokens(w));
            var parsed := ParseTernary(text, 0);
            && parsed.1 == |text|
            && (arch != 9201 || NoneTorn(Tokens(w)) ==>
                  Holds(parsed.0, {arch}, other) == Holds(Tree(w), Passing(arch), other))
  {
    RewrittenGuardParses(w);
    if arch != 9201 {
      OthersKeepMeaning(w, [], arch, other);
    } else if NoneTorn(Tokens(w)) {
      assert Tokens(w) + [] == Tokens(w);
      KeptUnlessStraddled(w, [], other);
    }
  }

  /** Without a test of 9201, passing for 9201 as well makes no difference. */
  lemma {:induction false} UntestedArch(w: Written, other: Expr -> bool)
    requires Guard(w) && WellWritten(w) && Number(9201) !in Tokens(w)
    ensures Holds(Tree(w), {3510, 9201}, other) == Holds(Tree(w), {3510}, other)
    decreases w
  {
    if Id(ARCH) !in Tokens(w) {
      ForeignMeaning(w, {3510, 9201}, {3510}, other);
    } else if IsTest(w) {
      assert Tokens(w)[2] == Number(w.right.e.value.n);
    } else {
      match w
      case Paren(a) =>
        assert Tokens(w) == [Op(LParen)] + Tokens(a) + [Op(RParen)];
        UntestedArch(a, other);
      case Unary(op, a) =>
        assert Tokens(w) == [Op(op)] + Tokens(a);
        UntestedArch(a, other);
      case Binary(op, left, right) =>
        assert Tokens(w) == Tokens(left) + [Op(op)] + Tokens(right);
        UntestedArch(left, other);
        UntestedArch(right, other);
    }
  }

  lemma {:induction false} NoneTornWithout9201(s: seq<Token>)
    requires Number(9201) !in s
    ensures NoneTorn(s)
    decreases s
  {
    if s != [] {
      TornTests9201(s);
      NoneTornWithout9201(s[1..]);
    }
  }

  lemma {:induction false} TornTests9201(ts: seq<Token>)
    ensures TornAt(ts) ==> |ts| > 9 && ts[9] == Number(9201)
  {
    assert (Pair(EqEq, OrOr) + [Op(AndAnd)])[9] == Number(9201);
  }

  /** A guard without the number 9201: architecture 9201 gets the value 3510 had, every other keeps its own. */
  lemma {:induction false} GatesTakeTheBranch(w: Written, arch: int, other: Expr -> bool)
    requires WellWritten(w) && Guard(w) && NoMemberList(Tokens(w)) && Number(9201) !in Tokens(w)
    ensures var text := Expand(Tokens(w));
            var parsed := ParseTernary(text, 0);
            && parsed.1 == |text|
            && Holds(parsed.0, {arch}, other) == Holds(Tree(w), {if arch == 9201 then 3510 else arch}, other)
  {
    NoneTornWithout9201(Tokens(w));
    RewrittenGuardMeans(w, arch, other);
    UntestedArch(w, other);
  }

  lemma {:induction false} ShortIsNotTorn(s: seq<Token>)
    requires |s| < 12
    ensures NoneTorn(s)
    decreases s
  {
    if s != [] { ShortIsNotTorn(s[1..]); }
  }

  /** A single test takes the branch of 3510 exactly when it does not test 9201. */
  lemma {:induction false} SingleTestMoves(op: Punct, n: nat, other: Expr -> bool)
    requires op == EqEq || op == Ne
    ensures var parsed := ParseTernary(Expand(Tokens(TestOf(op, n))), 0);
            n != 9201 <==> (Holds(parsed.0, {9201}, other) == Holds(Tree(TestOf(op, n)), {3510}, other))
  {
    TestIsWellWritten(op, n);
    TestIsWritten(op, n);
    ShortIsNotTorn(Test(op, n));
    NoMemberNoList(Test(op, n));
    RewrittenGuardMeans(TestOf(op, n), 9201, other);
    TestHolds(op, n, {3510}, other);
    TestHolds(op, n, Passing(9201), other);
  }

  // ----- what is expanded already can be torn apart -----

  /** `(a) || (b) && c` */
  function Beside(a: Written, b: Written, c: Written): Written
  {
    Binary(OrOr, Paren(a), Binary(AndAnd, Paren(b), c))
  }

  /** `(A == 3510) || (A == 9201) && c` */
  function TornGate(c: Written): Written { Beside(TestOf(EqEq, 3510), TestOf(EqEq, 9201), c) }

  /** What may stand behind `&&` and does not name the architecture. */
  ghost predicate Operand(c: Written)
  {
    WellWritten(c) && Level(c) > Prec(AndAnd) && Id(ARCH) !in Tokens(c) && NoMemberList(Tokens(c))
  }

  /** A torn gate is kept as it stands, for `&&` is not looked at. */
  lemma {:induction false} TornGateIsKept(c: Written)
    requires Operand(c)
    ensures Guard(TornGate(c)) && WellWritten(TornGate(c)) && Expand(Tokens(TornGate(c))) == Tokens(TornGate(c))
  {
    TornIsWellWritten(c);
    BesideIsGuard(TestOf(EqEq, 3510), TestOf(EqEq, 9201), c);
    TornIsWritten(c);
    ExpandPairEq([Op(AndAnd)] + Tokens(c));
    BehindStays(c);
  }

  lemma {:induction false} TornIsWellWritten(c: Written)
    requires Operand(c)
    ensures WellWritten(TornGate(c))
  {
    TestIsWellWritten(EqEq, 3510);
    TestIsWellWritten(EqEq, 9201);
    BesideIsWellWritten(TestOf(EqEq, 3510), TestOf(EqEq, 9201), c);
  }

  lemma {:induction false} BehindStays(c: Written)
    requires Id(ARCH) !in Tokens(c)
    ensures Expand([Op(AndAnd)] + Tokens(c)) == [Op(AndAnd)] + Tokens(c)
  {
    var s := Tokens(c);
    LastToken(c);
    assert s + [] == s;
    ForeignTextStays(s, []);
    PairStartsOpen(Op(AndAnd), s);
    TokenStays(Op(AndAnd), s);
  }

  /** The rewritten text of a torn gate, parsed. */
  function ParsedTorn(c: Written): Expr { ParseTernary(Expand(Tokens(TornGate(c))), 0).0 }

  ghost predicate TornGateMeans(c: Written, other: Expr -> bool)
  {
    Holds(ParsedTorn(c), {9201}, other) == Holds(Tree(TornGate(c)), Passing(9201), other)
  }

  ghost predicate OperandHolds(c: Written, other: Expr -> bool) { Holds(Tree(c), {9201}, other) }

  /** Architecture 9201 gets from a torn gate what was meant if and only if what tears it apart holds. */
  lemma {:induction false} TornGateMeansIff(c: Written, other: Expr -> bool)
    requires Operand(c)
    ensures TornGateMeans(c, other) <==> OperandHolds(c, other)
  {
    TornGateIsKept(c);
    TornHasNoList(c);
    ParseInvertsWriting(TornGate(c));
    TornGateHolds(c, {9201}, other);
    TornGateHolds(c, Passing(9201), other);
  }

  lemma {:induction false} TornHasNoList(c: Written)
    requires NoMemberList(Tokens(c))
    ensures NoMemberList(Tokens(TornGate(c)))
  {
    TornIsWritten(c);
    NoMemberNoList(Pair(EqEq, OrOr));
    NoListBehindOne(Op(AndAnd), Tokens(c));
    NoListJoin(Pair(EqEq, OrOr), [Op(AndAnd)] + Tokens(c));
  }

  lemma {:induction false} TornGateHolds(c: Written, archs: set<int>, other: Expr -> bool)
    requires Operand(c)
    ensures Holds(Tree(TornGate(c)), archs, other) ==
            (3510 in archs || (9201 in archs && Holds(Tree(c), {9201}, other)))
  {
    TestHolds(EqEq, 3510, archs, other);
    TestHolds(EqEq, 9201, archs, other);
    ForeignMeaning(c, archs, {9201}, other);
    BesideMeans(TestOf(EqEq, 3510), TestOf(EqEq, 9201), c, archs, other);
  }

  /** For every reading of what does not name the architecture, it does so if and only if that always holds. */
  lemma {:induction false} TornGateAlwaysMeansIff(c: Written)
    requires Operand(c)
    ensures (forall other: Expr -> bool :: TornGateMeans(c, other)) <==>
            (forall other: Expr -> bool :: OperandHolds(c, other))
  {
    forall other: Expr -> bool ensures TornGateMeans(c, other) <==> OperandHolds(c, other) {
      TornGateMeansIff(c, other);
    }
  }

  /** `(A == 3510) || (A == 9201) && x`: 3510 takes the branch, and 9201 takes it only if `x` holds. */
  lemma {:induction false} TornPairIsKept(other: Expr -> bool)
    requires !other(Ref("x"))
    ensures var w := TornGate(Leaf(Ref("x")));
            && Guard(w) && WellWritten(w) && Expand(Tokens(w)) == Tokens(w)
            && Holds(Tree(w), {3510}, other) && !Holds(Tree(w), {9201}, other)
  {
    XIsOperand();
    TornGateIsKept(Leaf(Ref("x")));
    TornGateHolds(Leaf(Ref("x")), {3510}, other);
    TornGateHolds(Leaf(Ref("x")), {9201}, other);
    XMeans(other);
  }

  lemma {:induction false} XMeans(other: Expr -> bool)
    ensures Holds(Tree(Leaf(Ref("x"))), {9201}, other) == other(Ref("x"))
  {
  }

  lemma {:induction false} XIsOperand()
    ensures Operand(Leaf(Ref("x")))
  {
    assert |"x"| == 1;
    assert Tokens(Leaf(Ref("x"))) == [Id("x")];
    NoMemberNoList([Id("x")]);
  }

  lemma {:induction false} BesideMeans(a: Written, b: Written, c: Written, archs: set<int>, other: Expr -> bool)
    ensures Holds(Tree(Beside(a, b, c)), archs, other)
            == (Holds(Tree(a), archs, other) || (Holds(Tree(b), archs, other) && Holds(Tree(c), archs, other)))
  {
    ParenMeansInner(a);
    ParenMeansInner(b);
    assert Tree(Binary(AndAnd, Paren(b), c)) == Bin(AndAnd, Tree(Paren(b)), Tree(c));
    assert Tree(Beside(a, b, c)) == Bin(OrOr, Tree(Paren(a)), Tree(Binary(AndAnd, Paren(b), c)));
  }

  lemma {:induction false} BesideIsWellWritten(a: Written, b: Written, c: Written)
    requires WellWritten(a) && WellWritten(b) && WellWritten(c) && Level(c) > Prec(AndAnd)
    ensures WellWritten(Beside(a, b, c))
  {
    ParenIsWellWritten(a);
    ParenIsWellWritten(b);
    JoinIsWellWritten(AndAnd, Paren(b), c);
    JoinIsWellWritten(OrOr, Paren(a), Binary(AndAnd, Paren(b), c));
  }

  lemma {:induction false} BesideIsGuard(a: Written, b: Written, c: Written)
    requires IsTest(a) && IsTest(b) && Guard(c)
    ensures Guard(Beside(a, b, c))
  {
    assert Guard(Paren(b)) && Guard(Binary(AndAnd, Paren(b), c));
  }

  lemma {:induction false} TornIsWritten(c: Written)
    ensures Tokens(TornGate(c)) == Pair(EqEq, OrOr) + ([Op(AndAnd)] + Tokens(c))
  {
    var left, right := Tokens(Paren(TestOf(EqEq, 3510))), Tokens(Paren(TestOf(EqEq, 9201)));
    ParenTestIsWritten(EqEq, 3510);
    ParenTestIsWritten(EqEq, 9201);
    PairSplits(EqEq);
    assert left + ([Op(OrOr)] + right) == Pair(EqEq, OrOr);
    BesideIsWritten(TestOf(EqEq, 3510), TestOf(EqEq, 9201), c);
  }

  lemma {:induction false} BesideIsWritten(a: Written, b: Written, c: Written)
    ensures Tokens(Beside(a, b, c))
            == Tokens(Paren(a)) + ([Op(OrOr)] + Tokens(Paren(b))) + ([Op(AndAnd)] + Tokens(c))
  {
    var s, t, u := Tokens(Paren(a)), Tokens(Paren(b)), Tokens(c);
    assert Tokens(Binary(AndAnd, Paren(b), c)) == t + [Op(AndAnd)] + u;
    assert Tokens(Beside(a, b, c)) == s + [Op(OrOr)] + (t + [Op(AndAnd)] + u);
  }
}
