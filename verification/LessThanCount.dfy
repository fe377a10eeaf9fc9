/** How many `<` a text and a tree hold: parsing makes no comparison that is not written. */
module LessThanCount {
  import opened Wrappers
  import opened ExprIr
  import opened CppExpr
  import opened CppExprRoundTrip

  /** The `<` tokens of a text. */
  function Lts(s: seq<Token>): nat
  {
    if s == [] then 0 else (if s[0] == Op(Lt) then 1 else 0) + Lts(s[1..])
  }

  /** The `<` comparisons of a tree. */
  function LtNodes(e: Expr): nat
    decreases e, 0
  {
    match e
    case Un(_, a) => LtNodes(a)
    case Bin(op, l, r) => (if op == Lt then 1 else 0) + LtNodes(l) + LtNodes(r)
    case Ite(c, t, a) => LtNodes(c) + LtNodes(t) + LtNodes(a)
    case Call(_, args) => LtNodesAll(args)
    case Select(a, i) => LtNodes(a) + LtNodes(i)
    case _ => 0
  }

  function LtNodesAll(es: seq<Expr>): nat
    decreases es, 0
  {
    if es == [] then 0 else LtNodes(es[0]) + LtNodesAll(es[1..])
  }

  // ----- sums -----

  lemma {:induction false} LtsJoin(s: seq<Token>, t: seq<Token>)
    ensures Lts(s + t) == Lts(s) + Lts(t)
    decreases s
  {
    if s == [] {
      assert s + t == t;
    } else {
      assert (s + t)[1..] == s[1..] + t;
      LtsJoin(s[1..], t);
    }
  }

  lemma {:induction false} LtsOne(t: Token)
    ensures Lts([t]) == if t == Op(Lt) then 1 else 0
  {
  }

  lemma {:induction false} LtNodesSnoc(es: seq<Expr>, e: Expr)
    ensures LtNodesAll(es + [e]) == LtNodesAll(es) + LtNodes(e)
    decreases es
  {
    if es == [] {
      assert es + [e] == [e];
    } else {
      assert (es + [e])[1..] == es[1..] + [e];
      LtNodesSnoc(es[1..], e);
    }
  }

  // ----- the parser makes none up -----

  /** The `<` tokens from a position on. */
  function Ahead(ts: seq<Token>, i: nat): nat
    requires i <= |ts|
    decreases |ts| - i
  {
    if i == |ts| then 0 else (if ts[i] == Op(Lt) then 1 else 0) + Ahead(ts, i + 1)
  }

  lemma {:induction false} AheadIsLts(ts: seq<Token>, i: nat)
    requires i <= |ts|
    ensures Ahead(ts, i) == Lts(ts[i..])
    decreases |ts| - i
  {
    if i < |ts| {
      assert ts[i..][1..] == ts[i + 1..];
      AheadIsLts(ts, i + 1);
    }
  }

  lemma {:induction false} AheadShrinks(ts: seq<Token>, i: nat, j: nat)
    requires i <= j <= |ts|
    ensures Ahead(ts, j) <= Ahead(ts, i)
    decreases j - i
  {
    if i < j { AheadShrinks(ts, i + 1, j); }
  }

  /** What was built and what is ahead is no more than there was. */
  ghost predicate Spends(ts: seq<Token>, built: nat, j: nat, had: nat, i: nat)
    requires i <= |ts| && j <= |ts|
  {
    built + Ahead(ts, j) <= had + Ahead(ts, i)
  }

  lemma {:induction false} TernarySpends(ts: seq<Token>, i: nat)
    requires i <= |ts|
    ensures var r := ParseTernary(ts, i); Spends(ts, LtNodes(r.0), r.1, 0, i)
    decreases |ts| - i, 6
  {
    BinarySpends(ts, 0, i);
    if At(ts, ParseBinary(ts, 0, i).1, Question) { BranchesSpend(ts, i); }
  }

  lemma {:induction false} BranchesSpend(ts: seq<Token>, i: nat)
    requires i <= |ts| && At(ts, ParseBinary(ts, 0, i).1, Question)
    requires var r := ParseBinary(ts, 0, i); Spends(ts, LtNodes(r.0), r.1, 0, i)
    ensures var r := ParseTernary(ts, i); Spends(ts, LtNodes(r.0), r.1, 0, i)
    decreases |ts| - i, 5
  {
    var a := ParseBinary(ts, 0, i);
    TernarySpends(ts, a.1 + 1);
    ThenSpends(ts, i, a, ParseTernary(ts, a.1 + 1));
  }

  lemma {:induction false} ThenSpends(ts: seq<Token>, i: nat, a: (Expr, nat), b: (Expr, nat))
    requires i <= a.1 < b.1 <= |ts| && ParseBinary(ts, 0, i) == a && At(ts, a.1, Question)
    requires ParseTernary(ts, a.1 + 1) == b
    requires Spends(ts, LtNodes(a.0), a.1, 0, i) && Spends(ts, LtNodes(b.0), b.1, 0, a.1 + 1)
    ensures var r := ParseTernary(ts, i); Spends(ts, LtNodes(r.0), r.1, 0, i)
    decreases |ts| - i, 4
  {
    if At(ts, b.1, Colon) {
      TernarySpends(ts, b.1 + 1);
      ElseSpends(ts, i, a, b, ParseTernary(ts, b.1 + 1));
    } else {
      NoColon(ts, i, a.1, b.1);
      AheadShrinks(ts, i, b.1);
    }
  }

  lemma {:induction false} ElseSpends(ts: seq<Token>, i: nat, a: (Expr, nat), b: (Expr, nat), c: (Expr, nat))
    requires i <= a.1 < b.1 < c.1 <= |ts| && ParseBinary(ts, 0, i) == a && At(ts, a.1, Question)
    requires ParseTernary(ts, a.1 + 1) == b && At(ts, b.1, Colon) && ParseTernary(ts, b.1 + 1) == c
    requires Spends(ts, LtNodes(a.0), a.1, 0, i) && Spends(ts, LtNodes(b.0), b.1, 0, a.1 + 1)
    requires Spends(ts, LtNodes(c.0), c.1, 0, b.1 + 1)
    ensures var r := ParseTernary(ts, i); Spends(ts, LtNodes(r.0), r.1, 0, i)
  {
    TernaryStep(ts, i, Ite(a.0, b.0, c.0), a.1, b.1, c.1);
    BranchesAddUp(ts, Ite(a.0, b.0, c.0), i, a.1, b.1, c.1);
  }

  lemma {:induction false} BranchesAddUp(ts: seq<Token>, e: Expr, i: nat, j: nat, k: nat, l: nat)
    requires e.Ite? && i <= j < k < l <= |ts|
    requires Spends(ts, LtNodes(e.cond), j, 0, i) && Spends(ts, LtNodes(e.thn), k, 0, j + 1)
    requires Spends(ts, LtNodes(e.alt), l, 0, k + 1)
    ensures Spends(ts, LtNodes(e), l, 0, i)
  {
    AheadShrinks(ts, j, j + 1);
    AheadShrinks(ts, k, k + 1);
  }

  lemma {:induction false} BinarySpends(ts: seq<Token>, minPrec: nat, i: nat)
    requires i <= |ts|
    ensures var r := ParseBinary(ts, minPrec, i); Spends(ts, LtNodes(r.0), r.1, 0, i)
    decreases |ts| - i, 5
  {
    var (left, j) := ParseUnary(ts, i);
    UnarySpends(ts, i);
    BinaryLoopSpends(ts, minPrec, left, j);
  }

  lemma {:induction false} BinaryLoopSpends(ts: seq<Token>, minPrec: nat, left: Expr, i: nat)
    requires i <= |ts|
    ensures var r := BinaryLoop(ts, minPrec, left, i); Spends(ts, LtNodes(r.0), r.1, LtNodes(left), i)
    decreases |ts| - i, 4
  {
    if i < |ts| && ts[i].Op? && Prec(ts[i].p) > 0 && Prec(ts[i].p) >= minPrec {
      var (right, j) := ParseBinary(ts, Prec(ts[i].p) + 1, i + 1);
      BinarySpends(ts, Prec(ts[i].p) + 1, i + 1);
      BinaryLoopSpends(ts, minPrec, Bin(ts[i].p, left, right), j);
    }
  }

  lemma {:induction false} UnarySpends(ts: seq<Token>, i: nat)
    requires i <= |ts|
    ensures var r := ParseUnary(ts, i); Spends(ts, LtNodes(r.0), r.1, 0, i)
    decreases |ts| - i, 3
  {
    if i == |ts| {
    } else if ts[i].Op? && IsUnary(ts[i].p) {
      UnarySpends(ts, i + 1);
    } else if ts[i].Id? && IsNamedCast(ts[i].name) {
      var j := SkipTemplateArgs(ts, i + 1);
      AheadShrinks(ts, i, j);
      if At(ts, j, LParen) {
        TernarySpends(ts, j + 1);
        var k := ParseTernary(ts, j + 1).1;
        AheadShrinks(ts, k, Accept(ts, k, RParen));
      }
    } else {
      PostfixSpends(ts, i);
    }
  }

  lemma {:induction false} PostfixSpends(ts: seq<Token>, i: nat)
    requires i <= |ts|
    ensures var r := ParsePostfix(ts, i); Spends(ts, LtNodes(r.0), r.1, 0, i)
    decreases |ts| - i, 2
  {
    var (e, j) := ParsePrimary(ts, i);
    PrimarySpends(ts, i);
    PostfixLoopSpends(ts, e, j);
  }

  lemma {:induction false} PostfixLoopSpends(ts: seq<Token>, e: Expr, i: nat)
    requires i <= |ts|
    ensures var r := PostfixLoop(ts, e, i); Spends(ts, LtNodes(r.0), r.1, LtNodes(e), i)
    decreases |ts| - i, 1
  {
    if At(ts, i, Arrow) || At(ts, i, Dot) {
      var (m, j) := ParseMember(ts, e, i);
      MemberSpends(ts, e, i);
      if m.Some? { PostfixLoopSpends(ts, m.value, j); }
    } else if At(ts, i, LParen) {
      CallSpends(ts, e, i);
    } else if At(ts, i, LBracket) {
      SubscriptSpends(ts, e, i);
    }
  }

  lemma {:induction false} CallSpends(ts: seq<Token>, e: Expr, i: nat)
    requires i < |ts| && At(ts, i, LParen)
    ensures var r := PostfixLoop(ts, e, i); Spends(ts, LtNodes(r.0), r.1, LtNodes(e), i)
    decreases |ts| - i, 0
  {
    var (args, j) := ParseArgs(ts, RParen, i + 1);
    ArgsSpend(ts, RParen, i + 1);
    CallOrCastSpends(e, args);
    PostfixLoopSpends(ts, CallOrCast(e, args), j);
    assert PostfixLoop(ts, e, i) == PostfixLoop(ts, CallOrCast(e, args), j);
  }

  lemma {:induction false} SubscriptSpends(ts: seq<Token>, e: Expr, i: nat)
    requires i < |ts| && At(ts, i, LBracket)
    ensures var r := PostfixLoop(ts, e, i); Spends(ts, LtNodes(r.0), r.1, LtNodes(e), i)
    decreases |ts| - i, 0
  {
    var (index, j) := ParseTernary(ts, i + 1);
    TernarySpends(ts, i + 1);
    var k := Accept(ts, j, RBracket);
    AheadShrinks(ts, j, k);
    PostfixLoopSpends(ts, Select(e, index), k);
    assert PostfixLoop(ts, e, i) == PostfixLoop(ts, Select(e, index), k);
  }

  lemma {:induction false} MemberSpends(ts: seq<Token>, e: Expr, i: nat)
    requires i < |ts|
    ensures var r := ParseMember(ts, e, i); Spends(ts, if r.0.Some? then LtNodes(r.0.value) else 0, r.1, LtNodes(e), i)
    decreases |ts| - i, 0
  {
    if i + 1 < |ts| {
      var name := TokenText(ts[i + 1]);
      var j := SkipTemplateArgs(ts, i + 2);
      AheadShrinks(ts, i, j);
      if At(ts, j, LParen) {
        AheadShrinks(ts, j, j + 1);
        ArgsSpend(ts, RParen, j + 1);
        ReceiverCount(e, ParseArgs(ts, RParen, j + 1).0, name);
      } else {
        ReceiverCount(e, [], "field:" + name);
      }
    }
  }

  lemma {:induction false} ReceiverCount(e: Expr, args: seq<Expr>, name: string)
    ensures LtNodes(Call(name, [e] + args)) == LtNodes(e) + LtNodesAll(args) && [e] + [] == [e]
  {
    assert ([e] + args)[1..] == args;
  }

  lemma {:induction false} CallOrCastSpends(e: Expr, args: seq<Expr>)
    ensures LtNodes(CallOrCast(e, args)) <= LtNodesAll(args)
  {
    if |args| == 1 { assert args[1..] == []; }
  }

  lemma {:induction false} ArgsSpend(ts: seq<Token>, close: Punct, i: nat)
    requires i <= |ts|
    ensures var r := ParseArgs(ts, close, i); Spends(ts, LtNodesAll(r.0), r.1, 0, i)
    decreases |ts| - i, 8
  {
    if !At(ts, i, close) { ArgsLoopSpends(ts, close, [], i); }
  }

  lemma {:induction false} ArgsLoopSpends(ts: seq<Token>, close: Punct, args: seq<Expr>, i: nat)
    requires i <= |ts|
    ensures var r := ArgsLoop(ts, close, args, i); Spends(ts, LtNodesAll(r.0), r.1, LtNodesAll(args), i)
    decreases |ts| - i, 7
  {
    var (e, j) := ParseTernary(ts, i);
    TernarySpends(ts, i);
    LtNodesSnoc(args, e);
    if At(ts, j, Comma) {
      ArgsLoopSpends(ts, close, args + [e], j + 1);
    } else {
      AheadShrinks(ts, j, Accept(ts, j, close));
    }
  }

  lemma {:induction false} PrimarySpends(ts: seq<Token>, i: nat)
    requires i <= |ts|
    ensures var r := ParsePrimary(ts, i); Spends(ts, LtNodes(r.0), r.1, 0, i)
    decreases |ts| - i, 0
  {
    if i == |ts| {
    } else if ts[i] == Op(LParen) {
      var j := ParseTernary(ts, i + 1).1;
      TernarySpends(ts, i + 1);
      AheadShrinks(ts, j, Accept(ts, j, RParen));
    } else if ts[i] == Op(LBrace) {
      ArgsSpend(ts, RBrace, i + 1);
    }
  }

  /** A parsed tree holds no more comparisons than the text holds `<`, on every text. */
  lemma {:induction false} ParseMakesNoComparison(ts: seq<Token>)
    ensures LtNodes(ParseTernary(ts, 0).0) <= Lts(ts)
  {
    TernarySpends(ts, 0);
    AheadIsLts(ts, 0);
    assert ts[0..] == ts;
  }

  // ----- a written tree holds as many as its text -----

  lemma {:induction false} WrittenCount(w: Written)
    requires WellWritten(w)
    ensures Lts(Tokens(w)) == LtNodes(Tree(w))
    decreases w, 1
  {
    match w
    case Leaf(e) => LtsOne(LeafToken(e));
    case Unary(op, a) => WrittenCount(a); UnaryCount(op, Tokens(a));
    case Binary(_, _, _) => BinaryCount(w);
    case Conditional(_, _, _) => ConditionalCount(w);
    case CallOf(f, args) => CallCount(f, ArgTokens(args)); ArgsCount(args);
    case Index(_, _) => IndexCount(w);
    case Field(_, _, _) => FieldCount(w);
    case Method(_, _, _, _) => MethodCount(w);
    case _ => EnclosedCount(w);
  }

  lemma {:induction false} EnclosedCount(w: Written)
    requires (w.Braces? || w.TypeCast? || w.NamedCast? || w.Paren?) && WellWritten(w)
    ensures Lts(Tokens(w)) == LtNodes(Tree(w))
    decreases w, 0
  {
    match w
    case Braces(items) => BracesCount(ArgTokens(items)); ArgsCount(items);
    case TypeCast(f, a) => WrittenCount(a); CallCount(f, Tokens(a));
    case NamedCast(f, a) => WrittenCount(a); CallCount(f, Tokens(a));
    case Paren(a) => WrittenCount(a); ParenCount(Tokens(a));
  }

  lemma {:induction false} AroundCount(a: seq<Token>, b: seq<Token>, c: seq<Token>)
    ensures Lts(a + b + c) == Lts(a) + Lts(b) + Lts(c) && a + b + [] == a + b
  {
    LtsJoin(a + b, c);
    LtsJoin(a, b);
  }

  lemma {:induction false} UnaryCount(op: Punct, s: seq<Token>)
    requires IsUnary(op)
    ensures Lts([Op(op)] + s) == Lts(s)
  {
    LtsJoin([Op(op)], s);
    LtsOne(Op(op));
  }

  lemma {:induction false} ParenCount(s: seq<Token>)
    ensures Lts([Op(LParen)] + s + [Op(RParen)]) == Lts(s)
  {
    AroundCount([Op(LParen)], s, [Op(RParen)]);
    LtsOne(Op(LParen));
    LtsOne(Op(RParen));
  }

  lemma {:induction false} BracesCount(s: seq<Token>)
    ensures Lts([Op(LBrace)] + s + [Op(RBrace)]) == Lts(s)
  {
    AroundCount([Op(LBrace)], s, [Op(RBrace)]);
    LtsOne(Op(LBrace));
    LtsOne(Op(RBrace));
  }

  lemma {:induction false} CallCount(f: string, s: seq<Token>)
    ensures Lts([Id(f), Op(LParen)] + s + [Op(RParen)]) == Lts(s)
  {
    AroundCount([Id(f), Op(LParen)], s, [Op(RParen)]);
    assert [Id(f), Op(LParen)][1..] == [Op(LParen)];
    LtsOne(Op(LParen));
    LtsOne(Op(RParen));
  }

  lemma {:induction false} BinaryCount(w: Written)
    requires w.Binary? && WellWritten(w)
    ensures Lts(Tokens(w)) == LtNodes(Tree(w))
    decreases w, 0
  {
    AroundCount(Tokens(w.left), [Op(w.op)], Tokens(w.right));
    LtsOne(Op(w.op));
    WrittenCount(w.left);
    WrittenCount(w.right);
  }

  lemma {:induction false} IndexCount(w: Written)
    requires w.Index? && WellWritten(w)
    ensures Lts(Tokens(w)) == LtNodes(Tree(w))
    decreases w, 0
  {
    var a, i := Tokens(w.arr), Tokens(w.index);
    AroundCount(a + [Op(LBracket)], i, [Op(RBracket)]);
    LtsJoin(a, [Op(LBracket)]);
    LtsOne(Op(LBracket));
    LtsOne(Op(RBracket));
    WrittenCount(w.arr);
    WrittenCount(w.index);
  }

  lemma {:induction false} FieldCount(w: Written)
    requires w.Field? && WellWritten(w)
    ensures Lts(Tokens(w)) == LtNodes(Tree(w))
    decreases w, 0
  {
    AroundCount(Tokens(w.obj), [Op(w.mark)], [Id(w.name)]);
    LtsOne(Op(w.mark));
    LtsOne(Id(w.name));
    WrittenCount(w.obj);
    ReceiverCount(Tree(w.obj), [], "field:" + w.name);
  }

  lemma {:induction false} MethodCount(w: Written)
    requires w.Method? && WellWritten(w)
    ensures Lts(Tokens(w)) == LtNodes(Tree(w))
    decreases w, 0
  {
    var call := [Id(w.name), Op(LParen)] + ArgTokens(w.args) + [Op(RParen)];
    AroundCount(Tokens(w.obj), [Op(w.mark)], call);
    LtsOne(Op(w.mark));
    CallCount(w.name, ArgTokens(w.args));
    WrittenCount(w.obj);
    ArgsCount(w.args);
    ReceiverCount(Tree(w.obj), Trees(w.args), w.name);
  }

  lemma {:induction false} ConditionalCount(w: Written)
    requires w.Conditional? && WellWritten(w)
    ensures Lts(Tokens(w)) == LtNodes(Tree(w))
    decreases w, 0
  {
    var c, t, a := Tokens(w.cond), Tokens(w.thn), Tokens(w.alt);
    AroundCount(c + [Op(Question)] + t, [Op(Colon)], a);
    AroundCount(c, [Op(Question)], t);
    WrittenCount(w.cond);
    WrittenCount(w.thn);
    WrittenCount(w.alt);
  }

  lemma {:induction false} ArgsCount(ws: seq<Written>)
    requires WellWrittenAll(ws)
    ensures Lts(ArgTokens(ws)) == LtNodesAll(Trees(ws))
    decreases ws, 0
  {
    if ws != [] {
      WrittenCount(ws[0]);
      ArgsCount(ws[1..]);
      assert Trees(ws)[1..] == Trees(ws[1..]);
      if |ws| == 1 {
        assert ws[1..] == [];
      } else {
        MoreArgs(ws);
        AroundCount(Tokens(ws[0]), [Op(Comma)], ArgTokens(ws[1..]));
      }
    }
  }
}
