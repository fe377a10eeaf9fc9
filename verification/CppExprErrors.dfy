/** What the parser makes of text that no expression is written as. */
module CppExprErrors {
  import opened Wrappers
  import opened ExprIr
  import opened CppExpr
  import opened CppExprRoundTrip
  import opened TemplateLists
  import opened Sequences

  /** A conditional without its `:` is unknown, up to where the `:` is missing. */
  lemma {:induction false} MissingColon(ts: seq<Token>, i: nat, c: Written, j: nat, t: Written, k: nat)
    requires WellWritten(c) && Level(c) >= 1 && Spelled(ts, i, Tokens(c)) && j == i + |Tokens(c)| && At(ts, j, Question)
    requires WellWritten(t) && Spelled(ts, j + 1, Tokens(t)) && k == j + 1 + |Tokens(t)| && Ends(ts, k)
    requires !At(ts, k, Colon) && NoMemberList(ts)
    ensures ParseTernary(ts, i) == (Unknown("malformed_ternary"), k)
  {
    CondInverts(ts, i, c, j);
    BranchInverts(ts, j + 1, t, k);
    NoColon(ts, i, j, k);
  }

  /** An operator that ends the text has an unknown operand. */
  lemma {:induction false} MissingOperand(ts: seq<Token>, w: Written, op: Punct)
    requires WellWritten(w) && 0 < Prec(op) <= Level(w) && ts == Tokens(w) + [Op(op)] && NoMemberList(ts)
    ensures ParseTernary(ts, 0) == (Bin(op, Tree(w), Unknown("eof")), |ts|)
  {
    var j := |Tokens(w)|;
    assert ts[j] == Op(op);
    OperatorsAreNotPostfix(op);
    BinaryInverts(ts, 0, w, Prec(op), 0);
    OperatorThenNothing(ts, Tree(w), op, j);
  }

  lemma {:induction false} OperatorThenNothing(ts: seq<Token>, e: Expr, op: Punct, j: nat)
    requires |ts| == j + 1 && At(ts, j, op) && Prec(op) > 0 && ParseBinary(ts, 0, 0) == BinaryLoop(ts, 0, e, j)
    ensures ParseTernary(ts, 0) == (Bin(op, e, Unknown("eof")), |ts|)
  {
    var eof := Unknown("eof");
    NothingAhead(ts, Prec(op) + 1);
    BinaryStep(ts, 0, 0, op, e, eof, j, |ts|);
    NoOperatorStops(ts, Bin(op, e, eof), |ts|);
    TernaryStops(ts, 0, Bin(op, e, eof), |ts|);
  }

  lemma {:induction false} NothingAhead(ts: seq<Token>, m: nat)
    ensures ParseBinary(ts, m, |ts|) == (Unknown("eof"), |ts|)
  {
  }

  /** A `.` or `->` that ends the text is unknown, whatever it is taken of. */
  lemma {:induction false} DanglingMember(ts: seq<Token>, w: Written, mark: Punct)
    requires WellWritten(w) && Level(w) == POSTFIX_LEVEL && mark in {Dot, Arrow}
    requires ts == Tokens(w) + [Op(mark)] && NoMemberList(ts)
    ensures ParseTernary(ts, 0) == (Unknown("dangling_member"), |ts|)
  {
    var j := |Tokens(w)|;
    assert ts[j] == Op(mark) && ts[0] == Tokens(w)[0];
    ReceiverInverts(ts, 0, w, j);
    PostfixFirst(w);
    MarkThenNothing(ts, Tree(w), j, Unknown("dangling_member"));
  }

  lemma {:induction false} MarkThenNothing(ts: seq<Token>, e: Expr, j: nat, unknown: Expr)
    requires |ts| == j + 1 && (At(ts, j, Dot) || At(ts, j, Arrow)) && ParsePostfix(ts, 0) == PostfixLoop(ts, e, j)
    requires StartsPostfix(ts[0]) && unknown == Unknown("dangling_member")
    ensures ParseTernary(ts, 0) == (unknown, |ts|)
  {
    assert ParseUnary(ts, 0) == (unknown, |ts|);
    UnaryStarts(ts, 0, 0, unknown, |ts|);
    NoOperatorStops(ts, unknown, |ts|);
    TernaryStops(ts, 0, unknown, |ts|);
  }

  /** A named cast without parentheses is unknown. */
  lemma {:induction false} CastWithoutOperand(ts: seq<Token>, i: nat, f: string)
    requires IsNamedCast(f) && i < |ts| && ts[i] == Id(f) && !At(ts, i + 1, Lt) && !At(ts, i + 1, LParen)
    ensures ParseUnary(ts, i) == (Unknown("malformed_named_cast"), i + 1)
  {
  }

  /** A parenthesis that is never closed encloses all that follows. */
  lemma {:induction false} UnclosedParenthesis(ts: seq<Token>, w: Written)
    requires WellWritten(w) && ts == [Op(LParen)] + Tokens(w) && NoMemberList(ts)
    ensures ParseTernary(ts, 0) == (Tree(w), |ts|)
  {
    assert Spelled(ts, 1, Tokens(w)) && ts[0] == Op(LParen);
    TernaryInverts(ts, 1, w);
    assert ParsePrimary(ts, 0) == (Tree(w), |ts|);
    PrimaryStarts(ts, 0, Tree(w), |ts|);
    UnaryPasses(ts, 0, Tree(w), |ts|);
    UnaryStarts(ts, 0, 0, Tree(w), |ts|);
    NoOperatorStops(ts, Tree(w), |ts|);
    TernaryStops(ts, 0, Tree(w), |ts|);
  }

  /** A single token that no expression is written as. */
  lemma {:induction false} LoneToken(t: Token, e: Expr)
    requires
      || (t == Id("NULL") && e == Const(NullV, false))
      || (t.Num? && t.num == NotANumber && e == Unknown("bad_number:" + t.text))
      || (t.Op? && !IsUnary(t.p) && t.p !in {LParen, LBrace} && e == Unknown("unexpected_token:" + PunctText(t.p)))
    ensures ParseTernary([t], 0) == (e, 1)
  {
    var ts := [t];
    assert "NULL"[0] != 's' && "NULL"[0] != 'r' && "NULL"[0] != 'c' && "NULL"[0] != 'd';
    CastsStart("NULL");
    assert Atom(t) == e && ParsePrimary(ts, 0) == (e, 1);
    PrimaryStarts(ts, 0, e, 1);
    UnaryPasses(ts, 0, e, 1);
    UnaryStarts(ts, 0, 0, e, 1);
    NoOperatorStops(ts, e, 1);
    TernaryStops(ts, 0, e, 1);
  }

  lemma {:induction false} CastsStart(f: string)
    ensures IsNamedCast(f) ==> f != "" && f[0] in "srcd"
  {
    assert "static_cast"[0] == 's' && "reinterpret_cast"[0] == 'r';
    assert "const_cast"[0] == 'c' && "dynamic_cast"[0] == 'd';
  }

  /** A template argument list behind a member name is skipped, and the call behind it is read. */
  lemma {:induction false} MethodSkipsList(ts: seq<Token>, i: nat, e: Expr, c: nat)
    requires MemberAt(ts, i) && ListAt(ts, i + 2, c)
    ensures var args := ParseArgs(ts, RParen, c + 2);
            PostfixLoop(ts, e, i) == PostfixLoop(ts, Call(ts[i + 1].name, [e] + args.0), args.1)
  {
    SkipIff(ts, i + 2);
  }
}
