/** Trees written down with parentheses where the precedences of section 7.6 of
    ISO/IEC 14882:2020 ask for them, and wherever else one likes, parse back to themselves. */
module CppExprRoundTrip {
  import opened Wrappers
  import opened ExprIr
  import opened CppExpr
  import opened TemplateLists
  import opened Sequences

  // ----- precedence -----

  /** The binary operators, those that bind least tightly first. */
  function Tightness(): seq<set<Punct>>
  {
    [{OrOr}, {AndAnd}, {Pipe}, {Caret}, {Amp}, {EqEq, Ne}, {Lt, Gt, Le, Ge}, {Shl, Shr}, {Plus, Minus},
     {Star, Slash, Percent}]
  }

  /** An operator binds more tightly than another exactly if it stands further behind. */
  lemma {:induction false} TighterIff(p: Punct, q: Punct, i: nat, j: nat)
    requires i < |Tightness()| && j < |Tightness()| && p in Tightness()[i] && q in Tightness()[j]
    ensures Prec(p) > 0 && Prec(q) > 0 && (Prec(p) < Prec(q) <==> i < j)
  {
    PlaceIsPrec(p, i);
    PlaceIsPrec(q, j);
  }

  lemma {:induction false} PlaceIsPrec(p: Punct, i: nat)
    requires i < |Tightness()|
    ensures p in Tightness()[i] <==> Prec(p) == i + 1
  {
  }

  // ----- written expressions -----

  /** An expression as it is written, parentheses included. */
  datatype Written =
    | Leaf(e: Expr)
    | Unary(op: Punct, arg: Written)
    | Binary(op: Punct, left: Written, right: Written)
    | Conditional(cond: Written, thn: Written, alt: Written)
    | CallOf(func: string, args: seq<Written>)
    | Index(arr: Written, index: Written)
    | Field(obj: Written, mark: Punct, name: string)
    | Method(obj: Written, mark: Punct, name: string, args: seq<Written>)
    | Braces(items: seq<Written>)
    | TypeCast(target: string, operand: Written)
    | NamedCast(cast: string, operand: Written)
    | Paren(inner: Written)

  const UNARY_LEVEL: nat := 11
  const POSTFIX_LEVEL: nat := 12

  /** How tightly the outermost operator binds; 0 for a conditional. */
  function Level(w: Written): nat
  {
    match w
    case Conditional(_, _, _) => 0
    case Binary(op, _, _) => Prec(op)
    case Unary(_, _) => UNARY_LEVEL
    case NamedCast(_, _) => UNARY_LEVEL
    case _ => POSTFIX_LEVEL
  }

  predicate PlainName(s: string)
  {
    !IsNamedCast(s) && s != "nullptr" && s != "NULL" && s != "true" && s != "false"
  }

  /** Literals and plain names. */
  predicate PlainLeaf(e: Expr)
  {
    match e
    case Const(IntV(n), lit) => n >= 0 && !lit
    case Const(RealV(r), lit) => r >= 0.0 && !lit
    case Const(StrV(_), _) => true
    case Const(_, lit) => !lit
    case Ref(s) => PlainName(s)
    case _ => false
  }

  /** The name a field access gets in the tree. */
  predicate IsField(f: string) { "field:" <= f }

  /** A call that is neither read as a C-style cast nor named like the access to a field. */
  predicate PlainCall(f: string, n: nat)
  {
    PlainName(f) && !(IsIntCast(f) && n == 1) && !(IsField(f) && n == 1)
  }

  /** Operands bind at least as tightly as their place asks for. */
  ghost predicate WellWritten(w: Written)
    decreases w, 0
  {
    match w
    case Leaf(e) => PlainLeaf(e)
    case Unary(op, a) => IsUnary(op) && Level(a) >= UNARY_LEVEL && WellWritten(a)
    case Binary(op, l, r) =>
      Prec(op) > 0 && Level(l) >= Prec(op) && Level(r) >= Prec(op) + 1 && WellWritten(l) && WellWritten(r)
    case Conditional(c, t, a) => Level(c) >= 1 && WellWritten(c) && WellWritten(t) && WellWritten(a)
    case CallOf(f, args) => PlainCall(f, |args|) && WellWrittenAll(args)
    case Index(a, i) => Level(a) >= POSTFIX_LEVEL && WellWritten(a) && WellWritten(i)
    case Field(a, m, _) => m in {Dot, Arrow} && Level(a) >= POSTFIX_LEVEL && WellWritten(a)
    case Method(a, m, _, args) =>
      m in {Dot, Arrow} && Level(a) >= POSTFIX_LEVEL && WellWritten(a) && WellWrittenAll(args)
    case Braces(items) => WellWrittenAll(items)
    case TypeCast(f, a) => IsIntCast(f) && WellWritten(a)
    case NamedCast(f, a) => IsNamedCast(f) && WellWritten(a)
    case Paren(a) => WellWritten(a)
  }

  ghost predicate WellWrittenAll(ws: seq<Written>)
    decreases ws, 0
  {
    ws == [] || (WellWritten(ws[0]) && WellWrittenAll(ws[1..]))
  }

  /** The tree meant, without parentheses and casts. */
  function Tree(w: Written): Expr
    decreases w, 0
  {
    match w
    case Leaf(e) => e
    case Unary(op, a) => Un(op, Tree(a))
    case Binary(op, l, r) => Bin(op, Tree(l), Tree(r))
    case Conditional(c, t, a) => Ite(Tree(c), Tree(t), Tree(a))
    case CallOf(f, args) => Call(f, Trees(args))
    case Index(a, i) => Select(Tree(a), Tree(i))
    case Field(a, _, name) => Call("field:" + name, [Tree(a)])
    case Method(a, _, name, args) => Call(name, [Tree(a)] + Trees(args))
    case Braces(items) => Call("__init_list", Trees(items))
    case TypeCast(_, a) => Tree(a)
    case NamedCast(_, a) => Tree(a)
    case Paren(a) => Tree(a)
  }

  function Trees(ws: seq<Written>): (es: seq<Expr>)
    ensures |es| == |ws|
    decreases ws, 0
  {
    if ws == [] then [] else [Tree(ws[0])] + Trees(ws[1..])
  }

  /** The token of a literal or name; the text of a number is immaterial to the parser. */
  function LeafToken(e: Expr): Token
  {
    match e
    case Const(IntV(n), _) => Num("", Whole(n))
    case Const(RealV(r), _) => Num("", Fraction(r))
    case Const(StrV(s), lit) => if lit then Str(s) else Chr(s)
    case Const(BoolV(b), _) => Id(if b then "true" else "false")
    case Const(NullV, _) => Id("nullptr")
    case Ref(s) => Id(s)
    case _ => Op(Semicolon)
  }

  function Tokens(w: Written): (s: seq<Token>)
    ensures |s| > 0
    decreases w, 0
  {
    match w
    case Leaf(e) => [LeafToken(e)]
    case Unary(op, a) => [Op(op)] + Tokens(a)
    case Binary(op, l, r) => Tokens(l) + [Op(op)] + Tokens(r)
    case Conditional(c, t, a) => Tokens(c) + [Op(Question)] + Tokens(t) + [Op(Colon)] + Tokens(a)
    case CallOf(f, args) => [Id(f), Op(LParen)] + ArgTokens(args) + [Op(RParen)]
    case Index(a, i) => Tokens(a) + [Op(LBracket)] + Tokens(i) + [Op(RBracket)]
    case Field(a, m, name) => Tokens(a) + [Op(m)] + [Id(name)]
    case Method(a, m, name, args) => Tokens(a) + [Op(m)] + ([Id(name), Op(LParen)] + ArgTokens(args) + [Op(RParen)])
    case Braces(items) => [Op(LBrace)] + ArgTokens(items) + [Op(RBrace)]
    case TypeCast(f, a) => [Id(f), Op(LParen)] + Tokens(a) + [Op(RParen)]
    case NamedCast(f, a) => [Id(f), Op(LParen)] + Tokens(a) + [Op(RParen)]
    case Paren(a) => [Op(LParen)] + Tokens(a) + [Op(RParen)]
  }

  function ArgTokens(ws: seq<Written>): seq<Token>
    decreases ws, 0
  {
    if ws == [] then []
    else if |ws| == 1 then Tokens(ws[0])
    else Tokens(ws[0]) + [Op(Comma)] + ArgTokens(ws[1..])
  }

  // ----- positions in a token list -----

  /** The tokens `s` stand at position `i`. */
  ghost predicate Spelled(ts: seq<Token>, i: nat, s: seq<Token>)
  {
    i + |s| <= |ts| && forall k | 0 <= k < |s| :: s[k] == ts[i + k]
  }

  lemma {:induction false} SpelledSplit(ts: seq<Token>, i: nat, s: seq<Token>, t: seq<Token>)
    requires Spelled(ts, i, s + t)
    ensures Spelled(ts, i, s) && Spelled(ts, i + |s|, t)
  {
    forall k | 0 <= k < |s| ensures s[k] == ts[i + k] { assert (s + t)[k] == s[k]; }
    forall k | 0 <= k < |t| ensures t[k] == ts[i + |s| + k] { assert (s + t)[|s| + k] == t[k]; }
  }

  lemma {:induction false} SpelledOne(ts: seq<Token>, i: nat, t: Token)
    ensures Spelled(ts, i, [t]) <==> i < |ts| && ts[i] == t
  {
    assert [t][0] == t;
  }

  lemma {:induction false} SpelledHead(ts: seq<Token>, i: nat, s: seq<Token>)
    requires Spelled(ts, i, s) && |s| > 0
    ensures i < |ts| && ts[i] == s[0]
  {
  }

  /** Two pieces with a mark between them. */
  lemma {:induction false} SpelledAround(
    ts: seq<Token>, i: nat, whole: seq<Token>, s: seq<Token>, p: Punct, t: seq<Token>)
    requires whole == s + [Op(p)] + t && Spelled(ts, i, whole)
    ensures Spelled(ts, i, s) && At(ts, i + |s|, p) && Spelled(ts, i + |s| + 1, t)
  {
    SpelledSplit(ts, i, s + [Op(p)], t);
    SpelledSplit(ts, i, s, [Op(p)]);
    SpelledOne(ts, i + |s|, Op(p));
  }

  /** What follows does not continue a postfix expression. */
  ghost predicate NoPostfix(ts: seq<Token>, i: nat)
  {
    !At(ts, i, LParen) && !At(ts, i, LBracket) && !At(ts, i, Dot) && !At(ts, i, Arrow)
  }

  /** What follows is not a binary operator that binds more tightly than `p`. */
  ghost predicate NoTighter(ts: seq<Token>, i: nat, p: nat)
  {
    i < |ts| && ts[i].Op? ==> Prec(ts[i].p) <= p
  }

  /** What follows continues no expression. */
  ghost predicate Ends(ts: seq<Token>, i: nat)
  {
    NoPostfix(ts, i) && NoTighter(ts, i, 0) && !At(ts, i, Question)
  }

  // ----- first tokens -----

  /** The token does not start a unary operator or a named cast. */
  predicate StartsPostfix(t: Token)
  {
    (t.Op? ==> !IsUnary(t.p)) && (t.Id? ==> !IsNamedCast(t.name))
  }

  lemma {:induction false} PostfixFirst(w: Written)
    requires WellWritten(w) && Level(w) >= POSTFIX_LEVEL
    ensures StartsPostfix(Tokens(w)[0])
    decreases w
  {
    match w
    case Index(a, _) =>
      PostfixFirst(a);
      StartsAlike(w, a);
    case Field(a, _, _) =>
      PostfixFirst(a);
      StartsAlike(w, a);
    case Method(a, _, _, _) =>
      PostfixFirst(a);
      StartsAlike(w, a);
    case TypeCast(f, _) => TypeNamesArePlain(f);
    case Leaf(_) => KeywordsAreNotCasts();
    case Binary(op, _, _) => OperatorsAreNotPostfix(op);
    case _ =>
  }

  lemma {:induction false} StartsAlike(w: Written, a: Written)
    requires (w.Index? && w.arr == a) || (w.Field? && w.obj == a) || (w.Method? && w.obj == a)
    ensures Tokens(w)[0] == Tokens(a)[0]
  {
  }

  /** A type name is neither a keyword nor a named cast. */
  lemma {:induction false} TypeNamesArePlain(f: string)
    requires IsIntCast(f)
    ensures PlainName(f)
  {
    TypeNamesAreShort(f);
    assert |f| < 10 && |"const_cast"| == 10;
    assert "nullptr"[0] == 'n' && "NULL"[0] == 'N' && "true"[0] == 't' && "false"[1] == 'a';
  }

  lemma {:induction false} TypeNamesAreShort(f: string)
    requires IsIntCast(f)
    ensures 2 < |f| < 10 && f[0] !in "nNt" && (f[0] == 'f' ==> f[1] == 'l')
  {
  }

  lemma {:induction false} KeywordsAreNotCasts()
    ensures !IsNamedCast("nullptr") && !IsNamedCast("true") && !IsNamedCast("false")
  {
    assert "static_cast"[0] == 's' && "reinterpret_cast"[0] == 'r' && "const_cast"[0] == 'c' &&
        "dynamic_cast"[0] == 'd';
  }

  /** A written expression never starts with a closing parenthesis or brace. */
  lemma {:induction false} FirstToken(w: Written)
    requires WellWritten(w)
    ensures Tokens(w)[0] != Op(RParen) && Tokens(w)[0] != Op(RBrace)
    decreases w
  {
    match w
    case Binary(_, l, _) => FirstToken(l);
    case Conditional(c, _, _) => FirstToken(c);
    case Index(a, _) => FirstToken(a);
    case Field(a, _, _) => FirstToken(a);
    case Method(a, _, _, _) => FirstToken(a);
    case _ =>
  }

  // ----- postfix places -----

  lemma {:induction false} PrimaryStarts(ts: seq<Token>, i: nat, e: Expr, j: nat)
    requires i <= |ts| && ParsePrimary(ts, i) == (e, j)
    ensures ParsePostfix(ts, i) == PostfixLoop(ts, e, j)
  {
  }

  lemma {:induction false} LeafInverts(ts: seq<Token>, i: nat, w: Written)
    requires w.Leaf? && WellWritten(w) && Spelled(ts, i, Tokens(w))
    ensures ParsePostfix(ts, i) == PostfixLoop(ts, Tree(w), i + |Tokens(w)|)
  {
    SpelledHead(ts, i, Tokens(w));
    assert Atom(ts[i]) == w.e;
    PrimaryStarts(ts, i, w.e, i + 1);
  }

  /** An expression in a postfix place: the postfix loop goes on with its tree behind its tokens. */
  lemma {:induction false} PostfixInverts(ts: seq<Token>, i: nat, w: Written)
    requires WellWritten(w) && Level(w) >= POSTFIX_LEVEL && Spelled(ts, i, Tokens(w))
    requires NoMemberList(ts) && !At(ts, i + |Tokens(w)|, LParen)
    ensures ParsePostfix(ts, i) == PostfixLoop(ts, Tree(w), i + |Tokens(w)|)
    decreases w, 1
  {
    match w
    case Paren(_) => ParenInverts(ts, i, w);
    case CallOf(_, _) => CallInverts(ts, i, w);
    case Index(_, _) => IndexInverts(ts, i, w);
    case Field(_, _, _) => FieldInverts(ts, i, w);
    case Method(_, _, _, _) => MethodInverts(ts, i, w);
    case Braces(_) => BracesInvert(ts, i, w);
    case TypeCast(_, _) => TypeCastInverts(ts, i, w);
    case Leaf(_) => LeafInverts(ts, i, w);
    case Binary(op, _, _) => OperatorsAreNotPostfix(op);
  }

  /** Something written between parentheses, which may follow a name. */
  lemma {:induction false} EnclosedPieces(ts: seq<Token>, i: nat, front: seq<Token>, b: seq<Token>, close: Punct)
    requires Spelled(ts, i, front + b + [Op(close)])
    ensures Spelled(ts, i, front) && Spelled(ts, i + |front|, b) && At(ts, i + |front| + |b|, close)
  {
    SpelledSplit(ts, i, front + b, [Op(close)]);
    SpelledSplit(ts, i, front, b);
    SpelledOne(ts, i + |front + b|, Op(close));
  }

  lemma {:induction false} SpelledTwo(ts: seq<Token>, i: nat, t: Token, u: Token)
    requires Spelled(ts, i, [t, u])
    ensures i + 1 < |ts| && ts[i] == t && ts[i + 1] == u
  {
    assert [t, u][0] == t && [t, u][1] == u;
  }

  lemma {:induction false} ParenInverts(ts: seq<Token>, i: nat, w: Written)
    requires w.Paren? && WellWritten(w) && Spelled(ts, i, Tokens(w)) && NoMemberList(ts)
    ensures ParsePostfix(ts, i) == PostfixLoop(ts, Tree(w), i + |Tokens(w)|)
    decreases w, 0
  {
    var b := Tokens(w.inner);
    EnclosedPieces(ts, i, [Op(LParen)], b, RParen);
    SpelledOne(ts, i, Op(LParen));
    TernaryInverts(ts, i + 1, w.inner);
    ParenStep(ts, i, Tree(w.inner), i + 1 + |b|);
  }

  // ----- members -----

  /** A member access without a call. */
  lemma {:induction false} FieldStep(ts: seq<Token>, i: nat, e: Expr, j: nat, name: string)
    requires i <= |ts| && MemberAt(ts, j) && ts[j + 1] == Id(name) && ParsePostfix(ts, i) == PostfixLoop(ts, e, j)
    requires NoMemberList(ts) && !At(ts, j + 2, LParen)
    ensures ParsePostfix(ts, i) == PostfixLoop(ts, Call("field:" + name, [e]), j + 2)
  {
    NoSkip(ts, j);
    assert ParseMember(ts, e, j) == (Some(Call("field:" + name, [e])), j + 2);
  }

  lemma {:induction false} MethodStep(
    ts: seq<Token>, i: nat, e: Expr, j: nat, name: string, args: seq<Expr>, k: nat)
    requires i <= |ts| && MemberAt(ts, j) && ts[j + 1] == Id(name) && ParsePostfix(ts, i) == PostfixLoop(ts, e, j)
    requires NoMemberList(ts) && At(ts, j + 2, LParen) && ParseArgs(ts, RParen, j + 3) == (args, k)
    ensures ParsePostfix(ts, i) == PostfixLoop(ts, Call(name, [e] + args), k)
  {
    NoSkip(ts, j);
    assert ParseMember(ts, e, j) == (Some(Call(name, [e] + args)), k);
  }

  lemma {:induction false} FieldInverts(ts: seq<Token>, i: nat, w: Written)
    requires w.Field? && WellWritten(w) && Spelled(ts, i, Tokens(w))
    requires NoMemberList(ts) && !At(ts, i + |Tokens(w)|, LParen)
    ensures ParsePostfix(ts, i) == PostfixLoop(ts, Tree(w), i + |Tokens(w)|)
    decreases w, 0
  {
    var a := Tokens(w.obj);
    SpelledAround(ts, i, Tokens(w), a, w.mark, [Id(w.name)]);
    SpelledOne(ts, i + |a| + 1, Id(w.name));
    ReceiverInverts(ts, i, w.obj, i + |a|);
    FieldStep(ts, i, Tree(w.obj), i + |a|, w.name);
  }

  lemma {:induction false} MethodInverts(ts: seq<Token>, i: nat, w: Written)
    requires w.Method? && WellWritten(w) && Spelled(ts, i, Tokens(w)) && NoMemberList(ts)
    ensures ParsePostfix(ts, i) == PostfixLoop(ts, Tree(w), i + |Tokens(w)|)
    decreases w, 0, 1
  {
    var j := i + |Tokens(w.obj)|;
    var call := [Id(w.name), Op(LParen)] + ArgTokens(w.args) + [Op(RParen)];
    SpelledAround(ts, i, Tokens(w), Tokens(w.obj), w.mark, call);
    EnclosedPieces(ts, j + 1, [Id(w.name), Op(LParen)], ArgTokens(w.args), RParen);
    SpelledTwo(ts, j + 1, Id(w.name), Op(LParen));
    ReceiverInverts(ts, i, w.obj, j);
    MethodCallInverts(ts, i, w, j, j + 3 + |ArgTokens(w.args)|);
  }

  lemma {:induction false} MethodCallInverts(ts: seq<Token>, i: nat, w: Written, j: nat, end: nat)
    requires w.Method? && WellWrittenAll(w.args) && NoMemberList(ts)
    requires MemberAt(ts, j) && ts[j + 1] == Id(w.name) && At(ts, j + 2, LParen)
    requires i <= |ts| && ParsePostfix(ts, i) == PostfixLoop(ts, Tree(w.obj), j)
    requires Spelled(ts, j + 3, ArgTokens(w.args)) && end == j + 3 + |ArgTokens(w.args)| && At(ts, end, RParen)
    ensures ParsePostfix(ts, i) == PostfixLoop(ts, Tree(w), end + 1)
    decreases w, 0, 0
  {
    ArgListInverts(ts, RParen, j + 3, w.args, end);
    MethodStep(ts, i, Tree(w.obj), j, w.name, Trees(w.args), end + 1);
  }

  // ----- lists in braces, and C-style casts -----

  lemma {:induction false} BracesStep(ts: seq<Token>, i: nat, items: seq<Expr>, j: nat)
    requires At(ts, i, LBrace) && ParseArgs(ts, RBrace, i + 1) == (items, j)
    ensures ParsePostfix(ts, i) == PostfixLoop(ts, Call("__init_list", items), j)
  {
  }

  lemma {:induction false} BracesInvert(ts: seq<Token>, i: nat, w: Written)
    requires w.Braces? && WellWritten(w) && Spelled(ts, i, Tokens(w)) && NoMemberList(ts)
    ensures ParsePostfix(ts, i) == PostfixLoop(ts, Tree(w), i + |Tokens(w)|)
    decreases w, 0
  {
    var b := ArgTokens(w.items);
    EnclosedPieces(ts, i, [Op(LBrace)], b, RBrace);
    SpelledOne(ts, i, Op(LBrace));
    ArgListInverts(ts, RBrace, i + 1, w.items, i + 1 + |b|);
    BracesStep(ts, i, Trees(w.items), i + |Tokens(w)|);
  }

  /** A single operand behind the name of a type. */
  lemma {:induction false} TypeCastStep(ts: seq<Token>, i: nat, f: string, e: Expr, j: nat)
    requires IsIntCast(f) && i < |ts| && ts[i] == Id(f) && At(ts, i + 1, LParen) && !At(ts, i + 2, RParen)
    requires ParseTernary(ts, i + 2) == (e, j) && At(ts, j, RParen)
    ensures ParsePostfix(ts, i) == PostfixLoop(ts, e, j + 1)
  {
    TypeNamesArePlain(f);
    ArgsStep(ts, RParen, [], i + 2, e, j);
    NothingInFront([e]);
    assert ParseArgs(ts, RParen, i + 2) == ([e], j + 1);
    assert ParsePrimary(ts, i) == (Ref(f), i + 1);
    CastTakesOne(f, e);
    PrimaryStarts(ts, i, Ref(f), i + 1);
    assert PostfixLoop(ts, Ref(f), i + 1) == PostfixLoop(ts, e, j + 1);
  }

  lemma {:induction false} CastTakesOne(f: string, e: Expr)
    requires IsIntCast(f)
    ensures CallOrCast(Ref(f), [e]) == e
  {
  }

  lemma {:induction false} TypeCastInverts(ts: seq<Token>, i: nat, w: Written)
    requires w.TypeCast? && WellWritten(w) && Spelled(ts, i, Tokens(w)) && NoMemberList(ts)
    ensures ParsePostfix(ts, i) == PostfixLoop(ts, Tree(w), i + |Tokens(w)|)
    decreases w, 0
  {
    var a := Tokens(w.operand);
    EnclosedPieces(ts, i, [Id(w.target), Op(LParen)], a, RParen);
    SpelledTwo(ts, i, Id(w.target), Op(LParen));
    CastOperandInverts(ts, i, w.target, w.operand, i + 2 + |a|);
  }

  lemma {:induction false} CastOperandInverts(ts: seq<Token>, i: nat, f: string, w: Written, end: nat)
    requires IsIntCast(f) && i < |ts| && ts[i] == Id(f) && At(ts, i + 1, LParen) && WellWritten(w) && NoMemberList(ts)
    requires Spelled(ts, i + 2, Tokens(w)) && end == i + 2 + |Tokens(w)| && At(ts, end, RParen)
    ensures ParsePostfix(ts, i) == PostfixLoop(ts, Tree(w), end + 1)
    decreases w, 9
  {
    EnclosedInverts(ts, i + 2, w, end);
    TypeCastStep(ts, i, f, Tree(w), end);
  }

  /** An expression up to a closing parenthesis. */
  lemma {:induction false} EnclosedInverts(ts: seq<Token>, i: nat, w: Written, end: nat)
    requires WellWritten(w) && NoMemberList(ts)
    requires Spelled(ts, i, Tokens(w)) && end == i + |Tokens(w)| && At(ts, end, RParen)
    ensures !At(ts, i, RParen) && ParseTernary(ts, i) == (Tree(w), end)
    decreases w, 8
  {
    FirstToken(w);
    SpelledHead(ts, i, Tokens(w));
    BranchInverts(ts, i, w, end);
  }

  lemma {:induction false} ParenStep(ts: seq<Token>, i: nat, e: Expr, j: nat)
    requires At(ts, i, LParen) && ParseTernary(ts, i + 1) == (e, j) && At(ts, j, RParen)
    ensures ParsePostfix(ts, i) == PostfixLoop(ts, e, j + 1)
  {
  }

  lemma {:induction false} CallStep(ts: seq<Token>, i: nat, f: string, args: seq<Expr>, j: nat)
    requires PlainCall(f, |args|) && i < |ts| && ts[i] == Id(f) && At(ts, i + 1, LParen)
    requires ParseArgs(ts, RParen, i + 2) == (args, j)
    ensures ParsePostfix(ts, i) == PostfixLoop(ts, Call(f, args), j)
  {
    assert ParsePrimary(ts, i) == (Ref(f), i + 1);
    assert CallOrCast(Ref(f), args) == Call(f, args);
  }

  lemma {:induction false} CallInverts(ts: seq<Token>, i: nat, w: Written)
    requires w.CallOf? && WellWritten(w) && Spelled(ts, i, Tokens(w)) && NoMemberList(ts)
    ensures ParsePostfix(ts, i) == PostfixLoop(ts, Tree(w), i + |Tokens(w)|)
    decreases w, 0
  {
    EnclosedPieces(ts, i, [Id(w.func), Op(LParen)], ArgTokens(w.args), RParen);
    SpelledTwo(ts, i, Id(w.func), Op(LParen));
    ArgListInverts(ts, RParen, i + 2, w.args, i + 2 + |ArgTokens(w.args)|);
    CallStep(ts, i, w.func, Trees(w.args), i + |Tokens(w)|);
  }

  /** What closes a list of expressions. */
  predicate Closes(p: Punct) { p in {RParen, RBrace} }

  lemma {:induction false} ArgListInverts(ts: seq<Token>, close: Punct, i: nat, ws: seq<Written>, end: nat)
    requires WellWrittenAll(ws) && Spelled(ts, i, ArgTokens(ws)) && end == i + |ArgTokens(ws)| && At(ts, end, close)
    requires NoMemberList(ts) && Closes(close)
    ensures ParseArgs(ts, close, i) == (Trees(ws), end + 1)
    decreases ws, 2
  {
    if ws != [] {
      ArgsFirst(ts, close, i, ws);
      ArgsInvert(ts, close, i, [], ws);
      OntoNothing(ws);
    }
  }

  lemma {:induction false} IndexPieces(ts: seq<Token>, i: nat, w: Written)
    requires w.Index? && Spelled(ts, i, Tokens(w))
    ensures var a, x := Tokens(w.arr), Tokens(w.index);
            && Spelled(ts, i, a) && At(ts, i + |a|, LBracket) && Spelled(ts, i + |a| + 1, x)
            && At(ts, i + |a| + 1 + |x|, RBracket) && |Tokens(w)| == |a| + |x| + 2
  {
    var a, x := Tokens(w.arr), Tokens(w.index);
    SpelledSplit(ts, i, a + [Op(LBracket)] + x, [Op(RBracket)]);
    SpelledOne(ts, i + |a| + 1 + |x|, Op(RBracket));
    SpelledAround(ts, i, a + [Op(LBracket)] + x, a, LBracket, x);
  }

  lemma {:induction false} IndexStep(ts: seq<Token>, i: nat, a: Expr, x: Expr, j: nat, k: nat)
    requires i <= |ts| && At(ts, j, LBracket) && At(ts, k, RBracket)
    requires ParsePostfix(ts, i) == PostfixLoop(ts, a, j) && ParseTernary(ts, j + 1) == (x, k)
    ensures ParsePostfix(ts, i) == PostfixLoop(ts, Select(a, x), k + 1)
  {
  }

  lemma {:induction false} IndexInverts(ts: seq<Token>, i: nat, w: Written)
    requires w.Index? && WellWritten(w) && Spelled(ts, i, Tokens(w)) && NoMemberList(ts)
    ensures ParsePostfix(ts, i) == PostfixLoop(ts, Tree(w), i + |Tokens(w)|)
    decreases w, 0
  {
    IndexPieces(ts, i, w);
    var j := i + |Tokens(w.arr)|;
    ReceiverInverts(ts, i, w.arr, j);
    SubscriptInverts(ts, i, Tree(w.arr), j, w.index, j + 1 + |Tokens(w.index)|);
  }

  /** What a member or a subscript is taken of. */
  lemma {:induction false} ReceiverInverts(ts: seq<Token>, i: nat, a: Written, end: nat)
    requires WellWritten(a) && Level(a) >= POSTFIX_LEVEL && Spelled(ts, i, Tokens(a)) && end == i + |Tokens(a)|
    requires NoMemberList(ts) && !At(ts, end, LParen)
    ensures ParsePostfix(ts, i) == PostfixLoop(ts, Tree(a), end)
    decreases a, 2
  {
    PostfixInverts(ts, i, a);
  }

  lemma {:induction false} SubscriptInverts(ts: seq<Token>, i: nat, a: Expr, j: nat, x: Written, k: nat)
    requires i <= |ts| && At(ts, j, LBracket) && ParsePostfix(ts, i) == PostfixLoop(ts, a, j)
    requires WellWritten(x) && Spelled(ts, j + 1, Tokens(x)) && k == j + 1 + |Tokens(x)| && At(ts, k, RBracket)
    requires NoMemberList(ts)
    ensures ParsePostfix(ts, i) == PostfixLoop(ts, Select(a, Tree(x)), k + 1)
    decreases x, 8
  {
    BranchInverts(ts, j + 1, x, k);
    IndexStep(ts, i, a, Tree(x), j, k);
  }

  // ----- argument lists -----

  lemma {:induction false} ArgsFirst(ts: seq<Token>, close: Punct, i: nat, ws: seq<Written>)
    requires WellWrittenAll(ws) && ws != [] && Spelled(ts, i, ArgTokens(ws)) && Closes(close)
    ensures !At(ts, i, close)
  {
    FirstToken(ws[0]);
    SpelledHead(ts, i, ArgTokens(ws));
  }

  lemma {:induction false} MoreArgs(ws: seq<Written>)
    requires |ws| > 1
    ensures ArgTokens(ws) == Tokens(ws[0]) + [Op(Comma)] + ArgTokens(ws[1..])
  {
  }

  lemma {:induction false} ArgsPieces(ts: seq<Token>, i: nat, ws: seq<Written>)
    requires |ws| > 1 && Spelled(ts, i, ArgTokens(ws))
    ensures Spelled(ts, i, Tokens(ws[0])) && At(ts, i + |Tokens(ws[0])|, Comma)
    ensures Spelled(ts, i + |Tokens(ws[0])| + 1, ArgTokens(ws[1..]))
    ensures |ArgTokens(ws)| == |Tokens(ws[0])| + 1 + |ArgTokens(ws[1..])|
  {
    var a, b := Tokens(ws[0]), ArgTokens(ws[1..]);
    MoreArgs(ws);
    SpelledAround(ts, i, ArgTokens(ws), a, Comma, b);
  }

  /** The trees of further arguments behind those read so far. */
  ghost function TreesOnto(done: seq<Expr>, ws: seq<Written>): seq<Expr>
    decreases ws
  {
    if ws == [] then done else TreesOnto(done + [Tree(ws[0])], ws[1..])
  }

  lemma {:induction false} OntoIsBehind(done: seq<Expr>, ws: seq<Written>)
    ensures TreesOnto(done, ws) == done + Trees(ws)
    decreases ws
  {
    if ws != [] {
      OntoIsBehind(done + [Tree(ws[0])], ws[1..]);
      Regroup(done, [Tree(ws[0])], Trees(ws[1..]));
    }
  }

  lemma {:induction false} OntoNothing(ws: seq<Written>)
    ensures TreesOnto([], ws) == Trees(ws)
  {
    OntoIsBehind([], ws);
    NothingInFront(Trees(ws));
  }

  /** One turn of the argument loop: another item, or the end of the list. */
  lemma {:induction false} ArgsStep(ts: seq<Token>, close: Punct, done: seq<Expr>, i: nat, e: Expr, j: nat)
    requires i <= |ts| && ParseTernary(ts, i) == (e, j)
    ensures At(ts, j, Comma) ==> ArgsLoop(ts, close, done, i) == ArgsLoop(ts, close, done + [e], j + 1)
    ensures !At(ts, j, Comma) && At(ts, j, close) ==> ArgsLoop(ts, close, done, i) == (done + [e], j + 1)
  {
  }

  lemma {:induction false} ArgsInvert(ts: seq<Token>, close: Punct, i: nat, done: seq<Expr>, ws: seq<Written>)
    requires WellWrittenAll(ws) && ws != [] && Spelled(ts, i, ArgTokens(ws))
    requires NoMemberList(ts) && Closes(close) && At(ts, i + |ArgTokens(ws)|, close)
    ensures ArgsLoop(ts, close, done, i) == (TreesOnto(done, ws), i + |ArgTokens(ws)| + 1)
    decreases ws, 1
  {
    if |ws| == 1 {
      LastArgInverts(ts, close, i, done, ws);
    } else {
      ArgsPieces(ts, i, ws);
      ArgInverts(ts, close, i, done, ws);
      ArgsInvert(ts, close, i + |Tokens(ws[0])| + 1, done + [Tree(ws[0])], ws[1..]);
    }
  }

  lemma {:induction false} LastArgInverts(ts: seq<Token>, close: Punct, i: nat, done: seq<Expr>, ws: seq<Written>)
    requires |ws| == 1 && WellWritten(ws[0]) && Spelled(ts, i, Tokens(ws[0])) && At(ts, i + |Tokens(ws[0])|, close)
    requires NoMemberList(ts) && Closes(close)
    ensures ArgsLoop(ts, close, done, i) == (done + [Tree(ws[0])], i + |Tokens(ws[0])| + 1)
    decreases ws, 0
  {
    TernaryInverts(ts, i, ws[0]);
    ArgsStep(ts, close, done, i, Tree(ws[0]), i + |Tokens(ws[0])|);
  }

  lemma {:induction false} ArgInverts(ts: seq<Token>, close: Punct, i: nat, done: seq<Expr>, ws: seq<Written>)
    requires ws != [] && WellWritten(ws[0]) && NoMemberList(ts)
    requires Spelled(ts, i, Tokens(ws[0])) && At(ts, i + |Tokens(ws[0])|, Comma)
    ensures ArgsLoop(ts, close, done, i) == ArgsLoop(ts, close, done + [Tree(ws[0])], i + |Tokens(ws[0])| + 1)
    decreases ws, 0
  {
    TernaryInverts(ts, i, ws[0]);
    ArgsStep(ts, close, done, i, Tree(ws[0]), i + |Tokens(ws[0])|);
  }

  // ----- operand places -----

  lemma {:induction false} UnaryStep(ts: seq<Token>, i: nat, op: Punct, e: Expr, j: nat)
    requires IsUnary(op) && At(ts, i, op) && ParseUnary(ts, i + 1) == (e, j)
    ensures ParseUnary(ts, i) == (Un(op, e), j)
  {
  }

  lemma {:induction false} UnaryPasses(ts: seq<Token>, i: nat, e: Expr, j: nat)
    requires i < |ts| && StartsPostfix(ts[i]) && j <= |ts| && NoPostfix(ts, j)
    requires ParsePostfix(ts, i) == PostfixLoop(ts, e, j)
    ensures ParseUnary(ts, i) == (e, j)
  {
  }

  /** An expression in an operand place, with nothing behind it that a postfix could start with. */
  lemma {:induction false} UnaryInverts(ts: seq<Token>, i: nat, w: Written)
    requires WellWritten(w) && Level(w) >= UNARY_LEVEL && Spelled(ts, i, Tokens(w))
    requires NoMemberList(ts) && NoPostfix(ts, i + |Tokens(w)|)
    ensures ParseUnary(ts, i) == (Tree(w), i + |Tokens(w)|)
    decreases w, 3
  {
    if w.Unary? {
      UnInverts(ts, i, w);
    } else if w.NamedCast? {
      NamedCastInverts(ts, i, w);
    } else {
      TighterThanUnary(w);
      PostfixPasses(ts, i, w, i + |Tokens(w)|);
    }
  }

  lemma {:induction false} PostfixPasses(ts: seq<Token>, i: nat, w: Written, end: nat)
    requires WellWritten(w) && Level(w) == POSTFIX_LEVEL && Spelled(ts, i, Tokens(w)) && end == i + |Tokens(w)|
    requires NoMemberList(ts) && NoPostfix(ts, end)
    ensures ParseUnary(ts, i) == (Tree(w), end)
    decreases w, 2
  {
    PostfixFirst(w);
    PostfixInverts(ts, i, w);
    SpelledHead(ts, i, Tokens(w));
    UnaryPasses(ts, i, Tree(w), end);
  }

  lemma {:induction false} UnInverts(ts: seq<Token>, i: nat, w: Written)
    requires w.Unary? && WellWritten(w) && Spelled(ts, i, Tokens(w)) && NoPostfix(ts, i + |Tokens(w)|)
    requires NoMemberList(ts)
    ensures ParseUnary(ts, i) == (Tree(w), i + |Tokens(w)|)
    decreases w, 2
  {
    SpelledSplit(ts, i, [Op(w.op)], Tokens(w.arg));
    SpelledOne(ts, i, Op(w.op));
    UnaryInverts(ts, i + 1, w.arg);
    UnaryStep(ts, i, w.op, Tree(w.arg), i + |Tokens(w)|);
  }

  lemma {:induction false} NamedCastStep(ts: seq<Token>, i: nat, f: string, j: nat, e: Expr, k: nat)
    requires IsNamedCast(f) && i < |ts| && ts[i] == Id(f) && SkipTemplateArgs(ts, i + 1) == j && At(ts, j, LParen)
    requires ParseTernary(ts, j + 1) == (e, k) && At(ts, k, RParen)
    ensures ParseUnary(ts, i) == (e, k + 1)
  {
  }

  /** A named cast is its operand, whatever follows: nothing behind it is taken for a member, call or subscript. */
  lemma {:induction false} NamedCastInverts(ts: seq<Token>, i: nat, w: Written)
    requires w.NamedCast? && WellWritten(w) && Spelled(ts, i, Tokens(w)) && NoMemberList(ts)
    ensures ParseUnary(ts, i) == (Tree(w), i + |Tokens(w)|)
    decreases w, 2
  {
    var a := Tokens(w.operand);
    EnclosedPieces(ts, i, [Id(w.cast), Op(LParen)], a, RParen);
    SpelledTwo(ts, i, Id(w.cast), Op(LParen));
    OperandIsRead(ts, i, w.cast, i + 1, w.operand, i + 2 + |a|);
  }

  lemma {:induction false} OperandIsRead(ts: seq<Token>, i: nat, f: string, j: nat, w: Written, k: nat)
    requires IsNamedCast(f) && i < |ts| && ts[i] == Id(f) && SkipTemplateArgs(ts, i + 1) == j && At(ts, j, LParen)
    requires WellWritten(w) && Spelled(ts, j + 1, Tokens(w)) && k == j + 1 + |Tokens(w)| && At(ts, k, RParen)
    requires NoMemberList(ts)
    ensures ParseUnary(ts, i) == (Tree(w), k + 1)
    decreases w, 8
  {
    BranchInverts(ts, j + 1, w, k);
    NamedCastStep(ts, i, f, j, Tree(w), k);
  }

  /** The template argument list of a named cast is skipped. */
  lemma {:induction false} NamedCastSkipsList(ts: seq<Token>, i: nat, f: string, c: nat, w: Written)
    requires IsNamedCast(f) && i < |ts| && ts[i] == Id(f) && ListAt(ts, i + 1, c) && NoMemberList(ts)
    requires WellWritten(w) && Spelled(ts, c + 2, Tokens(w)) && At(ts, c + 2 + |Tokens(w)|, RParen)
    ensures ParseUnary(ts, i) == (Tree(w), c + 2 + |Tokens(w)| + 1)
  {
    SkipIff(ts, i + 1);
    OperandIsRead(ts, i, f, c + 1, w, c + 2 + |Tokens(w)|);
  }

  lemma {:induction false} TighterThanUnary(w: Written)
    requires Level(w) >= UNARY_LEVEL && !w.Unary? && !w.NamedCast?
    ensures Level(w) == POSTFIX_LEVEL
  {
    assert w.Binary? ==> Prec(w.op) <= 10;
  }

  lemma {:induction false} BinPieces(ts: seq<Token>, i: nat, w: Written)
    requires w.Binary? && Spelled(ts, i, Tokens(w))
    ensures Spelled(ts, i, Tokens(w.left)) && At(ts, i + |Tokens(w.left)|, w.op)
    ensures Spelled(ts, i + |Tokens(w.left)| + 1, Tokens(w.right))
    ensures |Tokens(w)| == |Tokens(w.left)| + 1 + |Tokens(w.right)|
  {
    assert Tokens(w) == Tokens(w.left) + [Op(w.op)] + Tokens(w.right);
    SpelledAround(ts, i, Tokens(w), Tokens(w.left), w.op, Tokens(w.right));
  }

  /** One turn of the operator loop, from the left operand to the whole. */
  lemma {:induction false} BinaryStep(ts: seq<Token>, m: nat, i: nat, op: Punct, l: Expr, r: Expr, j: nat, k: nat)
    requires At(ts, j, op) && Prec(op) > 0 && Prec(op) >= m && i <= |ts|
    requires ParseBinary(ts, m, i) == BinaryLoop(ts, m, l, j)
    requires ParseBinary(ts, Prec(op) + 1, j + 1) == (r, k)
    ensures k <= |ts| && ParseBinary(ts, m, i) == BinaryLoop(ts, m, Bin(op, l, r), k)
  {
  }

  lemma {:induction false} BinaryStops(ts: seq<Token>, m: nat, e: Expr, i: nat)
    requires i <= |ts| && m > 0 && NoTighter(ts, i, m - 1)
    ensures BinaryLoop(ts, m, e, i) == (e, i)
  {
  }

  lemma {:induction false} UnaryStarts(ts: seq<Token>, m: nat, i: nat, e: Expr, j: nat)
    requires i <= |ts| && ParseUnary(ts, i) == (e, j)
    ensures ParseBinary(ts, m, i) == BinaryLoop(ts, m, e, j)
  {
  }

  /** An expression that binds at least as tightly as `p`: the operator loop goes on with its tree behind its tokens. */
  lemma {:induction false} BinaryInverts(ts: seq<Token>, i: nat, w: Written, p: nat, m: nat)
    requires WellWritten(w) && m <= p <= Level(w) && 1 <= p && Spelled(ts, i, Tokens(w))
    requires NoPostfix(ts, i + |Tokens(w)|) && NoTighter(ts, i + |Tokens(w)|, p)
    requires NoMemberList(ts)
    ensures ParseBinary(ts, m, i) == BinaryLoop(ts, m, Tree(w), i + |Tokens(w)|)
    decreases w, 4
  {
    if w.Binary? {
      BinInverts(ts, i, w, m);
    } else {
      UnaryInverts(ts, i, w);
      UnaryStarts(ts, m, i, Tree(w), i + |Tokens(w)|);
    }
  }

  lemma {:induction false} OperatorsAreNotPostfix(op: Punct)
    requires Prec(op) > 0
    ensures Prec(op) <= 10 && op !in {LParen, LBracket, Dot, Arrow}
  {
  }

  lemma {:induction false} BinInverts(ts: seq<Token>, i: nat, w: Written, m: nat)
    requires w.Binary? && WellWritten(w) && m <= Prec(w.op) && Spelled(ts, i, Tokens(w))
    requires NoPostfix(ts, i + |Tokens(w)|) && NoTighter(ts, i + |Tokens(w)|, Prec(w.op))
    requires NoMemberList(ts)
    ensures ParseBinary(ts, m, i) == BinaryLoop(ts, m, Tree(w), i + |Tokens(w)|)
    decreases w, 3
  {
    BinPieces(ts, i, w);
    BothInvert(ts, i, w, m, i + |Tokens(w.left)|, i + |Tokens(w)|);
  }

  lemma {:induction false} BothInvert(ts: seq<Token>, i: nat, w: Written, m: nat, j: nat, end: nat)
    requires w.Binary? && WellWritten(w) && m <= Prec(w.op) && Spelled(ts, i, Tokens(w.left))
    requires j == i + |Tokens(w.left)| && At(ts, j, w.op) && Spelled(ts, j + 1, Tokens(w.right))
    requires end == j + 1 + |Tokens(w.right)| && NoPostfix(ts, end) && NoTighter(ts, end, Prec(w.op))
    requires NoMemberList(ts)
    ensures ParseBinary(ts, m, i) == BinaryLoop(ts, m, Tree(w), end)
    decreases w, 2
  {
    OperandsInvert(ts, m, i, w.op, w.left, j, w.right, end);
  }

  lemma {:induction false} OperandsInvert(
    ts: seq<Token>, m: nat, i: nat, op: Punct, l: Written, j: nat, r: Written, end: nat)
    requires Spelled(ts, i, Tokens(l)) && j == i + |Tokens(l)| && At(ts, j, op) && WellWritten(l)
    requires 0 < Prec(op) < Level(r) && m <= Prec(op) <= Level(l) && WellWritten(r)
    requires Spelled(ts, j + 1, Tokens(r)) && end == j + 1 + |Tokens(r)|
    requires NoPostfix(ts, end) && NoTighter(ts, end, Prec(op))
    requires NoMemberList(ts)
    ensures ParseBinary(ts, m, i) == BinaryLoop(ts, m, Bin(op, Tree(l), Tree(r)), end)
    decreases Binary(op, l, r), 1
  {
    OperatorsAreNotPostfix(op);
    BinaryInverts(ts, i, l, Prec(op), m);
    RightInverts(ts, m, i, op, Tree(l), j, r, end);
  }

  lemma {:induction false} RightInverts(
    ts: seq<Token>, m: nat, i: nat, op: Punct, l: Expr, j: nat, r: Written, end: nat)
    requires i <= |ts| && At(ts, j, op) && ParseBinary(ts, m, i) == BinaryLoop(ts, m, l, j)
    requires 0 < Prec(op) < Level(r) && m <= Prec(op) && WellWritten(r)
    requires Spelled(ts, j + 1, Tokens(r)) && end == j + 1 + |Tokens(r)|
    requires NoPostfix(ts, end) && NoTighter(ts, end, Prec(op))
    requires NoMemberList(ts)
    ensures ParseBinary(ts, m, i) == BinaryLoop(ts, m, Bin(op, l, Tree(r)), end)
    decreases r, 6
  {
    OperandInverts(ts, j + 1, r, Prec(op) + 1, end);
    BinaryStep(ts, m, i, op, l, Tree(r), j, end);
  }

  lemma {:induction false} OperandInverts(ts: seq<Token>, i: nat, w: Written, p: nat, end: nat)
    requires WellWritten(w) && 1 <= p <= Level(w) && Spelled(ts, i, Tokens(w)) && end == i + |Tokens(w)|
    requires NoPostfix(ts, end) && NoTighter(ts, end, p - 1)
    requires NoMemberList(ts)
    ensures ParseBinary(ts, p, i) == (Tree(w), end)
    decreases w, 5
  {
    BinaryInverts(ts, i, w, p, p);
    BinaryStops(ts, p, Tree(w), end);
  }

  // ----- outermost places -----

  lemma {:induction false} ConditionalPieces(ts: seq<Token>, i: nat, w: Written)
    requires w.Conditional? && Spelled(ts, i, Tokens(w))
    ensures var c, t, a := Tokens(w.cond), Tokens(w.thn), Tokens(w.alt);
            && Spelled(ts, i, c) && At(ts, i + |c|, Question)
            && Spelled(ts, i + |c| + 1, t) && At(ts, i + |c| + 1 + |t|, Colon)
            && Spelled(ts, i + |c| + |t| + 2, a) && |Tokens(w)| == |c| + |t| + 2 + |a|
  {
    var c, t, a := Tokens(w.cond), Tokens(w.thn), Tokens(w.alt);
    assert Tokens(w) == (c + [Op(Question)] + t) + [Op(Colon)] + a;
    SpelledAround(ts, i, Tokens(w), c + [Op(Question)] + t, Colon, a);
    SpelledAround(ts, i, c + [Op(Question)] + t, c, Question, t);
  }

  lemma {:induction false} TernaryStep(ts: seq<Token>, i: nat, e: Expr, j: nat, k: nat, l: nat)
    requires e.Ite? && i <= |ts| && ParseBinary(ts, 0, i) == (e.cond, j) && At(ts, j, Question)
    requires ParseTernary(ts, j + 1) == (e.thn, k) && At(ts, k, Colon)
    requires ParseTernary(ts, k + 1) == (e.alt, l)
    ensures ParseTernary(ts, i) == (e, l)
  {
  }

  lemma {:induction false} NoColon(ts: seq<Token>, i: nat, j: nat, k: nat)
    requires i <= |ts| && ParseBinary(ts, 0, i).1 == j && At(ts, j, Question)
    requires ParseTernary(ts, j + 1).1 == k && !At(ts, k, Colon)
    ensures ParseTernary(ts, i) == (Unknown("malformed_ternary"), k)
  {
  }

  lemma {:induction false} TernaryStops(ts: seq<Token>, i: nat, e: Expr, j: nat)
    requires i <= |ts| && ParseBinary(ts, 0, i) == (e, j) && !At(ts, j, Question)
    ensures ParseTernary(ts, i) == (e, j)
  {
  }

  lemma {:induction false} NoOperatorStops(ts: seq<Token>, e: Expr, i: nat)
    requires i <= |ts| && NoTighter(ts, i, 0)
    ensures BinaryLoop(ts, 0, e, i) == (e, i)
  {
  }

  /** An expression in the outermost place, with nothing behind it that could continue it. */
  lemma {:induction false} TernaryInverts(ts: seq<Token>, i: nat, w: Written)
    requires WellWritten(w) && Spelled(ts, i, Tokens(w)) && Ends(ts, i + |Tokens(w)|)
    requires NoMemberList(ts)
    ensures ParseTernary(ts, i) == (Tree(w), i + |Tokens(w)|)
    decreases w, 6
  {
    if w.Conditional? {
      ConditionalInverts(ts, i, w);
    } else {
      SomeLevel(w);
      BinaryInverts(ts, i, w, 1, 0);
      NoOperatorStops(ts, Tree(w), i + |Tokens(w)|);
      TernaryStops(ts, i, Tree(w), i + |Tokens(w)|);
    }
  }

  lemma {:induction false} SomeLevel(w: Written)
    requires WellWritten(w) && !w.Conditional?
    ensures Level(w) >= 1
  {
  }

  lemma {:induction false} ConditionalInverts(ts: seq<Token>, i: nat, w: Written)
    requires w.Conditional? && WellWritten(w) && Spelled(ts, i, Tokens(w)) && Ends(ts, i + |Tokens(w)|)
    requires NoMemberList(ts)
    ensures ParseTernary(ts, i) == (Tree(w), i + |Tokens(w)|)
    decreases w, 5
  {
    ConditionalPieces(ts, i, w);
    var j := i + |Tokens(w.cond)|;
    var k := j + 1 + |Tokens(w.thn)|;
    CondInverts(ts, i, w.cond, j);
    BranchesInvert(ts, i, w, Tree(w.cond), j, w.thn, k, w.alt, i + |Tokens(w)|);
  }

  lemma {:induction false} BranchesInvert(
    ts: seq<Token>, i: nat, w: Written, c: Expr, j: nat, t: Written, k: nat, a: Written, end: nat)
    requires i <= |ts| && ParseBinary(ts, 0, i) == (c, j) && At(ts, j, Question) && WellWritten(t) && WellWritten(a)
    requires t < w && a < w
    requires Spelled(ts, j + 1, Tokens(t)) && k == j + 1 + |Tokens(t)| && At(ts, k, Colon)
    requires Spelled(ts, k + 1, Tokens(a)) && end == k + 1 + |Tokens(a)| && Ends(ts, end)
    requires NoMemberList(ts)
    ensures ParseTernary(ts, i) == (Ite(c, Tree(t), Tree(a)), end)
    decreases w, 4
  {
    BranchInverts(ts, j + 1, t, k);
    AltInverts(ts, i, c, j, Tree(t), k, a, end);
  }

  lemma {:induction false} BranchInverts(ts: seq<Token>, i: nat, w: Written, end: nat)
    requires WellWritten(w) && Spelled(ts, i, Tokens(w)) && end == i + |Tokens(w)| && Ends(ts, end)
    requires NoMemberList(ts)
    ensures ParseTernary(ts, i) == (Tree(w), end)
    decreases w, 7
  {
    TernaryInverts(ts, i, w);
  }

  lemma {:induction false} AltInverts(
    ts: seq<Token>, i: nat, c: Expr, j: nat, t: Expr, k: nat, a: Written, end: nat)
    requires i <= |ts| && ParseBinary(ts, 0, i) == (c, j) && At(ts, j, Question)
    requires ParseTernary(ts, j + 1) == (t, k) && At(ts, k, Colon) && WellWritten(a)
    requires Spelled(ts, k + 1, Tokens(a)) && end == k + 1 + |Tokens(a)| && Ends(ts, end)
    requires NoMemberList(ts)
    ensures ParseTernary(ts, i) == (Ite(c, t, Tree(a)), end)
    decreases a, 8
  {
    BranchInverts(ts, k + 1, a, end);
    TernaryStep(ts, i, Ite(c, t, Tree(a)), j, k, end);
  }

  lemma {:induction false} CondInverts(ts: seq<Token>, i: nat, c: Written, end: nat)
    requires Level(c) >= 1 && WellWritten(c) && end == i + |Tokens(c)|
    requires Spelled(ts, i, Tokens(c)) && At(ts, end, Question)
    requires NoMemberList(ts)
    ensures ParseBinary(ts, 0, i) == (Tree(c), end)
    decreases c, 7
  {
    BinaryInverts(ts, i, c, 1, 0);
    NoOperatorStops(ts, Tree(c), end);
  }

  /** However an expression is parenthesised, as long as it is enough, the parser consumes all its tokens
      and returns its tree. */
  lemma {:induction false} ParseInvertsWriting(w: Written)
    requires WellWritten(w) && NoMemberList(Tokens(w))
    ensures ParseTernary(Tokens(w), 0) == (Tree(w), |Tokens(w)|)
  {
    var ts := Tokens(w);
    TernaryInverts(ts, 0, w);
  }

  // ----- writing a tree with as few parentheses as possible -----

  /** Trees of literals, plain names, operators, conditionals, plain calls, fields, lists in braces and subscripts. */
  ghost predicate Printable(e: Expr)
    decreases e, 0
  {
    match e
    case Un(op, a) => IsUnary(op) && Printable(a)
    case Bin(op, l, r) => Prec(op) > 0 && Printable(l) && Printable(r)
    case Ite(c, t, a) => Printable(c) && Printable(t) && Printable(a)
    case Call(f, args) =>
      (f == "__init_list" || (IsField(f) && |args| == 1) || PlainCall(f, |args|)) && PrintableAll(args)
    case Select(a, i) => Printable(a) && Printable(i)
    case _ => PlainLeaf(e)
  }

  ghost predicate PrintableAll(es: seq<Expr>)
    decreases es, 0
  {
    es == [] || (Printable(es[0]) && PrintableAll(es[1..]))
  }

  function Bare(e: Expr): Written
    decreases e, 0
  {
    match e
    case Un(op, a) => Unary(op, Place(a, UNARY_LEVEL))
    case Bin(op, l, r) => Binary(op, Place(l, Prec(op)), Place(r, Prec(op) + 1))
    case Ite(c, t, a) => Conditional(Place(c, 1), Place(t, 0), Place(a, 0))
    case Call(f, args) =>
      if IsField(f) && |args| == 1 then Field(Place(args[0], POSTFIX_LEVEL), Dot, f[|"field:"|..])
      else if f == "__init_list" then Braces(PlaceAll(args))
      else CallOf(f, PlaceAll(args))
    case Select(a, i) => Index(Place(a, POSTFIX_LEVEL), Place(i, 0))
    case _ => Leaf(e)
  }

  /** The tree in a place that needs an operator binding at least as tightly as `level`. */
  function Place(e: Expr, level: nat): Written
    decreases e, 1
  {
    if Level(Bare(e)) < level then Paren(Bare(e)) else Bare(e)
  }

  function PlaceAll(es: seq<Expr>): (ws: seq<Written>)
    ensures |ws| == |es|
    decreases es, 0
  {
    if es == [] then [] else [Place(es[0], 0)] + PlaceAll(es[1..])
  }

  /** A tree as tokens, left-associative, with the fewest parentheses. */
  function Render(e: Expr): seq<Token> { Tokens(Place(e, 0)) }

  lemma {:induction false} PlaceIsWellWritten(e: Expr, level: nat)
    requires Printable(e) && level <= POSTFIX_LEVEL
    ensures WellWritten(Place(e, level)) && Level(Place(e, level)) >= level && Tree(Place(e, level)) == e
    decreases e, 2
  {
    BareIsWellWritten(e);
  }

  lemma {:induction false} BareIsWellWritten(e: Expr)
    requires Printable(e)
    ensures WellWritten(Bare(e)) && Tree(Bare(e)) == e
    decreases e, 1
  {
    match e
    case Un(op, a) => PlaceIsWellWritten(a, UNARY_LEVEL);
    case Bin(op, l, r) =>
      OperatorsAreNotPostfix(op);
      PlaceIsWellWritten(l, Prec(op));
      PlaceIsWellWritten(r, Prec(op) + 1);
    case Ite(c, t, a) =>
      PlaceIsWellWritten(c, 1);
      PlaceIsWellWritten(t, 0);
      PlaceIsWellWritten(a, 0);
    case Call(f, args) => CallIsWellWritten(f, args);
    case Select(a, i) =>
      PlaceIsWellWritten(a, POSTFIX_LEVEL);
      PlaceIsWellWritten(i, 0);
    case _ =>
  }

  lemma {:induction false} CallIsWellWritten(f: string, args: seq<Expr>)
    requires Printable(Call(f, args))
    ensures WellWritten(Bare(Call(f, args))) && Tree(Bare(Call(f, args))) == Call(f, args)
    decreases Call(f, args), 0
  {
    if IsField(f) && |args| == 1 {
      PlaceIsWellWritten(args[0], POSTFIX_LEVEL);
      assert f == "field:" + f[|"field:"|..] && args == [args[0]];
    } else {
      PlaceAllIsWellWritten(args);
    }
  }

  lemma {:induction false} PlaceAllIsWellWritten(es: seq<Expr>)
    requires PrintableAll(es)
    ensures WellWrittenAll(PlaceAll(es)) && Trees(PlaceAll(es)) == es
    decreases es, 0
  {
    if es != [] {
      PlaceIsWellWritten(es[0], 0);
      PlaceAllIsWellWritten(es[1..]);
    }
  }

  // ----- no writing is shorter -----

  /** A writing that fits its place has at least as many tokens as the one with parentheses only where needed. */
  lemma {:induction false} PlaceIsShortest(w: Written, level: nat)
    requires WellWritten(w) && level <= Level(w)
    ensures |Tokens(w)| >= |Tokens(Place(Tree(w), level))|
    decreases w, 2
  {
    if w.Paren? {
      EnclosedIsShortest(w, w.inner, level);
    } else if w.TypeCast? || w.NamedCast? {
      EnclosedIsShortest(w, w.operand, level);
    } else {
      BareBindsAlike(w);
      BareIsShortest(w);
    }
  }

  lemma {:induction false} ParenAddsTwo(w: Written)
    requires w.Paren?
    ensures |Tokens(w)| == |Tokens(w.inner)| + 2
  {
  }

  lemma {:induction false} EnclosedIsShortest(w: Written, inner: Written, level: nat)
    requires WellWritten(inner) && Tree(w) == Tree(inner) && |Tokens(w)| >= |Tokens(inner)| + 2 && inner < w
    ensures |Tokens(w)| >= |Tokens(Place(Tree(w), level))|
    decreases w, 1
  {
    PlaceIsShortest(inner, 0);
    ParenAddsTwo(Paren(Bare(Tree(w))));
  }

  /** Neither parentheses nor a cast, which leave no trace in the tree. */
  predicate Shows(w: Written) { !w.Paren? && !w.TypeCast? && !w.NamedCast? }

  lemma {:induction false} BareBindsAlike(w: Written)
    requires WellWritten(w) && Shows(w)
    ensures Level(Bare(Tree(w))) == Level(w)
  {
  }

  lemma {:induction false} BareIsShortest(w: Written)
    requires WellWritten(w) && Shows(w)
    ensures |Tokens(w)| >= |Tokens(Bare(Tree(w)))|
    decreases w, 1
  {
    match w
    case Leaf(_) =>
    case Unary(_, a) => PlaceIsShortest(a, UNARY_LEVEL);
    case Binary(op, l, r) =>
      PlaceIsShortest(l, Prec(op));
      PlaceIsShortest(r, Prec(op) + 1);
    case Conditional(_, _, _) => ConditionalIsShortest(w);
    case CallOf(f, args) =>
      ArgsAreShortest(args);
      BareCallLength(f, Trees(args));
    case Index(a, i) =>
      PlaceIsShortest(a, POSTFIX_LEVEL);
      PlaceIsShortest(i, 0);
    case Field(a, _, name) =>
      PlaceIsShortest(a, POSTFIX_LEVEL);
      BareCallLength("field:" + name, [Tree(a)]);
    case Method(_, _, _, _) => MethodIsShortest(w);
    case Braces(items) =>
      ArgsAreShortest(items);
      BareCallLength("__init_list", Trees(items));
  }

  lemma {:induction false} BareCallLength(f: string, es: seq<Expr>)
    ensures IsField(f) && |es| == 1 ==> |Tokens(Bare(Call(f, es)))| == |Tokens(Place(es[0], POSTFIX_LEVEL))| + 2
    ensures !(IsField(f) && |es| == 1) ==> |Tokens(Bare(Call(f, es)))| <= |ArgTokens(PlaceAll(es))| + 3
    ensures f == "__init_list" ==> |Tokens(Bare(Call(f, es)))| == |ArgTokens(PlaceAll(es))| + 2
  {
    assert "__init_list"[0] != "field:"[0];
  }

  lemma {:induction false} MethodIsShortest(w: Written)
    requires w.Method? && WellWritten(w)
    ensures |Tokens(w)| >= |Tokens(Bare(Tree(w)))|
    decreases w, 0
  {
    PlaceIsShortest(w.obj, POSTFIX_LEVEL);
    PlaceIsShortest(w.obj, 0);
    ArgsAreShortest(w.args);
    ReceiverInFront(Tree(w.obj), Trees(w.args));
    BareCallLength(w.name, [Tree(w.obj)] + Trees(w.args));
  }

  lemma {:induction false} ReceiverInFront(o: Expr, es: seq<Expr>)
    ensures |ArgTokens(PlaceAll([o] + es))| <= |Tokens(Place(o, 0))| + 1 + |ArgTokens(PlaceAll(es))|
  {
    assert ([o] + es)[0] == o && ([o] + es)[1..] == es;
    var ws := [Place(o, 0)] + PlaceAll(es);
    assert PlaceAll([o] + es) == ws;
    if es != [] {
      MoreArgs(ws);
      assert ws[1..] == PlaceAll(es);
    }
  }

  lemma {:induction false} ConditionalIsShortest(w: Written)
    requires w.Conditional? && WellWritten(w)
    ensures |Tokens(w)| >= |Tokens(Bare(Tree(w)))|
    decreases w, 0
  {
    PlaceIsShortest(w.cond, 1);
    PlaceIsShortest(w.thn, 0);
    PlaceIsShortest(w.alt, 0);
  }

  lemma {:induction false} ArgsAreShortest(ws: seq<Written>)
    requires WellWrittenAll(ws)
    ensures |ArgTokens(ws)| >= |ArgTokens(PlaceAll(Trees(ws)))|
    decreases ws, 0
  {
    if ws != [] {
      var es := Trees(ws);
      PlaceIsShortest(ws[0], 0);
      ArgsAreShortest(ws[1..]);
      assert es[0] == Tree(ws[0]) && es[1..] == Trees(ws[1..]);
      assert PlaceAll(es)[0] == Place(es[0], 0) && PlaceAll(es)[1..] == PlaceAll(es[1..]);
      if |ws| > 1 {
        MoreArgs(ws);
        MoreArgs(PlaceAll(es));
      }
    }
  }

  /** No way of writing a tree takes fewer tokens than its rendering. */
  lemma {:induction false} RenderIsShortest(w: Written)
    requires WellWritten(w)
    ensures |Tokens(w)| >= |Render(Tree(w))|
  {
    PlaceIsShortest(w, 0);
  }

  /** Parsing inverts rendering: every printable tree comes back whole, with all tokens consumed. */
  lemma {:induction false} ParseInvertsRender(e: Expr)
    requires Printable(e) && NoMemberList(Render(e))
    ensures ParseTernary(Render(e), 0) == (e, |Render(e)|)
  {
    PlaceIsWellWritten(e, 0);
    ParseInvertsWriting(Place(e, 0));
  }

  /** No two printable trees are rendered alike. */
  lemma {:induction false} RenderIsInjective(e: Expr, e': Expr)
    requires Printable(e) && Printable(e') && Render(e) == Render(e') && NoMemberList(Render(e))
    ensures e == e'
  {
    ParseInvertsRender(e);
    ParseInvertsRender(e');
  }
}
