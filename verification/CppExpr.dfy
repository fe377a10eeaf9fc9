/** The precedence-climbing parser of `cpp_expr.py`, at token level. */
module CppExpr {
  import opened Wrappers
  import opened ExprIr

  /** The number a numeric token denotes, if it denotes one. */
  datatype NumText = Whole(n: int) | Fraction(r: real) | NotANumber

  datatype Token =
    | Op(p: Punct)
    | Id(name: string)
    | Num(text: string, num: NumText)
    | Str(body: string)
    | Chr(body: string)

  function PunctText(p: Punct): string
  {
    match p
    case LParen => "(" case RParen => ")" case LBracket => "[" case RBracket => "]"
    case LBrace => "{" case RBrace => "}" case Comma => "," case Semicolon => ";"
    case Question => "?" case Colon => ":" case Dot => "." case Arrow => "->"
    case Not => "!" case Tilde => "~" case Amp => "&" case Star => "*"
    case Plus => "+" case Minus => "-" case Slash => "/" case Percent => "%"
    case Lt => "<" case Gt => ">" case Le => "<=" case Ge => ">="
    case EqEq => "==" case Ne => "!=" case AndAnd => "&&" case OrOr => "||"
    case Pipe => "|" case Caret => "^" case Shl => "<<" case Shr => ">>"
    case PlusPlus => "++" case MinusMinus => "--"
    case ShlAssign => "<<=" case ShrAssign => ">>=" case Assign => "="
  }

  function TokenText(t: Token): string
  {
    match t
    case Op(p) => PunctText(p)
    case Id(name) => name
    case Num(text, _) => text
    case Str(body) => "\"" + body + "\""
    case Chr(body) => "'" + body + "'"
  }

  /** The precedence of a binary operator; 0 for anything else. */
  function Prec(p: Punct): nat
  {
    match p
    case OrOr => 1
    case AndAnd => 2
    case Pipe => 3
    case Caret => 4
    case Amp => 5
    case EqEq | Ne => 6
    case Lt | Gt | Le | Ge => 7
    case Shl | Shr => 8
    case Plus | Minus => 9
    case Star | Slash | Percent => 10
    case _ => 0
  }

  predicate IsUnary(p: Punct)
  {
    p in {Not, Minus, Tilde, Plus, Amp, Star}
  }

  predicate IsNamedCast(name: string)
  {
    "static_cast" <= name || "reinterpret_cast" <= name || "const_cast" <= name || "dynamic_cast" <= name
  }

  predicate IsIntCast(name: string)
  {
    name in {
      "bool", "char", "short", "int", "long", "float", "double", "unsigned", "size_t",
      "int8_t", "int16_t", "int32_t", "int64_t", "uint8_t", "uint16_t", "uint32_t", "uint64_t"
    }
  }

  predicate At(ts: seq<Token>, i: nat, p: Punct)
  {
    i < |ts| && ts[i] == Op(p)
  }

  /** The cursor after `accept`. */
  function Accept(ts: seq<Token>, i: nat, p: Punct): (j: nat)
    requires i <= |ts|
    ensures i <= j <= |ts|
  {
    if At(ts, i, p) then i + 1 else i
  }

  // ----- template arguments -----

  predicate EndsTemplateScan(t: Token)
  {
    t.Op? && t.p in {Semicolon, LBrace, RBrace, AndAnd, OrOr, Question, Colon, Comma}
  }

  /** Where a scan from `j` at the given depth finds its closing `>`, if it does. */
  function TemplateClose(ts: seq<Token>, j: nat, depth: int): (r: Option<nat>)
    requires j <= |ts|
    ensures r.Some? ==> j <= r.value < |ts|
    decreases |ts| - j
  {
    if j == |ts| then None
    else if ts[j] == Op(Lt) then TemplateClose(ts, j + 1, depth + 1)
    else if ts[j] == Op(Gt) then (if depth == 1 then Some(j) else TemplateClose(ts, j + 1, depth - 1))
    else if EndsTemplateScan(ts[j]) then None
    else TemplateClose(ts, j + 1, depth)
  }

  function SkipTemplateArgs(ts: seq<Token>, i: nat): (j: nat)
    requires i <= |ts|
    ensures i <= j <= |ts|
  {
    if !At(ts, i, Lt) then i
    else
      match TemplateClose(ts, i, 0)
      case None => i
      case Some(c) => if At(ts, c + 1, LParen) then c + 1 else i
  }

  // ----- what each grammar method returns, and where it leaves the cursor -----

  function ParseTernary(ts: seq<Token>, i: nat): (r: (Expr, nat))
    requires i <= |ts|
    ensures i <= r.1 <= |ts|
    decreases |ts| - i, 6
  {
    var (c, j) := ParseBinary(ts, 0, i);
    if At(ts, j, Question) then
      var (t, k) := ParseTernary(ts, j + 1);
      if At(ts, k, Colon) then
        var (e, l) := ParseTernary(ts, k + 1);
        (Ite(c, t, e), l)
      else (Unknown("malformed_ternary"), k)
    else (c, j)
  }

  function ParseBinary(ts: seq<Token>, minPrec: nat, i: nat): (r: (Expr, nat))
    requires i <= |ts|
    ensures i <= r.1 <= |ts|
    decreases |ts| - i, 5
  {
    var (left, j) := ParseUnary(ts, i);
    BinaryLoop(ts, minPrec, left, j)
  }

  function BinaryLoop(ts: seq<Token>, minPrec: nat, left: Expr, i: nat): (r: (Expr, nat))
    requires i <= |ts|
    ensures i <= r.1 <= |ts|
    decreases |ts| - i, 4
  {
    if i < |ts| && ts[i].Op? && Prec(ts[i].p) > 0 && Prec(ts[i].p) >= minPrec then
      var (right, j) := ParseBinary(ts, Prec(ts[i].p) + 1, i + 1);
      BinaryLoop(ts, minPrec, Bin(ts[i].p, left, right), j)
    else (left, i)
  }

  function ParseUnary(ts: seq<Token>, i: nat): (r: (Expr, nat))
    requires i <= |ts|
    ensures i <= r.1 <= |ts|
    decreases |ts| - i, 3
  {
    if i == |ts| then (Unknown("eof"), i)
    else if ts[i].Op? && IsUnary(ts[i].p) then
      var (e, j) := ParseUnary(ts, i + 1);
      (Un(ts[i].p, e), j)
    else if ts[i].Id? && IsNamedCast(ts[i].name) then
      var j := SkipTemplateArgs(ts, i + 1);
      if At(ts, j, LParen) then
        var (e, k) := ParseTernary(ts, j + 1);
        (e, Accept(ts, k, RParen))
      else (Unknown("malformed_named_cast"), j)
    else ParsePostfix(ts, i)
  }

  function ParsePostfix(ts: seq<Token>, i: nat): (r: (Expr, nat))
    requires i <= |ts|
    ensures i <= r.1 <= |ts|
    decreases |ts| - i, 2
  {
    var (e, j) := ParsePrimary(ts, i);
    PostfixLoop(ts, e, j)
  }

  /** A call, or the operand of a C-style cast written as one. */
  function CallOrCast(e: Expr, args: seq<Expr>): Expr
  {
    var name := if e.Ref? then e.symbol else "?";
    if IsIntCast(name) && |args| == 1 then args[0] else Call(name, args)
  }

  function PostfixLoop(ts: seq<Token>, e: Expr, i: nat): (r: (Expr, nat))
    requires i <= |ts|
    ensures i <= r.1 <= |ts|
    decreases |ts| - i, 1
  {
    if At(ts, i, Arrow) || At(ts, i, Dot) then
      match ParseMember(ts, e, i)
      case (None, j) => (Unknown("dangling_member"), j)
      case (Some(m), j) => PostfixLoop(ts, m, j)
    else if At(ts, i, LParen) then
      var (args, j) := ParseArgs(ts, RParen, i + 1);
      PostfixLoop(ts, CallOrCast(e, args), j)
    else if At(ts, i, LBracket) then
      var (index, j) := ParseTernary(ts, i + 1);
      PostfixLoop(ts, Select(e, index), Accept(ts, j, RBracket))
    else (e, i)
  }

  /** A member name, and the arguments if it is called; nothing when the name is missing. */
  function ParseMember(ts: seq<Token>, e: Expr, i: nat): (r: (Option<Expr>, nat))
    requires i < |ts|
    ensures i < r.1 <= |ts|
    decreases |ts| - i, 0
  {
    if i + 1 == |ts| then (None, i + 1)
    else
      var name := TokenText(ts[i + 1]);
      var j := SkipTemplateArgs(ts, i + 2);
      if At(ts, j, LParen) then
        var (args, k) := ParseArgs(ts, RParen, j + 1);
        (Some(Call(name, [e] + args)), k)
      else (Some(Call("field:" + name, [e])), j)
  }

  /** A comma-separated list up to its closing token, which may be missing. */
  function ParseArgs(ts: seq<Token>, close: Punct, i: nat): (r: (seq<Expr>, nat))
    requires i <= |ts|
    ensures i <= r.1 <= |ts|
    decreases |ts| - i, 8
  {
    if At(ts, i, close) then ([], i + 1) else ArgsLoop(ts, close, [], i)
  }

  function ArgsLoop(ts: seq<Token>, close: Punct, args: seq<Expr>, i: nat): (r: (seq<Expr>, nat))
    requires i <= |ts|
    ensures i <= r.1 <= |ts|
    decreases |ts| - i, 7
  {
    var (e, j) := ParseTernary(ts, i);
    if At(ts, j, Comma) then ArgsLoop(ts, close, args + [e], j + 1)
    else (args + [e], Accept(ts, j, close))
  }

  /** The tree a single token stands for. */
  function Atom(t: Token): Expr
  {
    match t
    case Str(body) => Const(StrV(body), true)
    case Chr(body) => Const(StrV(body), false)
    case Num(_, Whole(n)) => Const(IntV(n), false)
    case Num(_, Fraction(r)) => Const(RealV(r), false)
    case Num(text, NotANumber) => Unknown("bad_number:" + text)
    case Id(name) =>
      if name == "nullptr" || name == "NULL" then Const(NullV, false)
      else if name == "true" then Const(BoolV(true), false)
      else if name == "false" then Const(BoolV(false), false)
      else Ref(name)
    case Op(p) => Unknown("unexpected_token:" + PunctText(p))
  }

  function ParsePrimary(ts: seq<Token>, i: nat): (r: (Expr, nat))
    requires i <= |ts|
    ensures i <= r.1 <= |ts|
    decreases |ts| - i, 0
  {
    if i == |ts| then (Unknown("eof"), i)
    else if ts[i] == Op(LParen) then
      var (e, j) := ParseTernary(ts, i + 1);
      (e, Accept(ts, j, RParen))
    else if ts[i] == Op(LBrace) then
      var (items, j) := ParseArgs(ts, RBrace, i + 1);
      (Call("__init_list", items), j)
    else (Atom(ts[i]), i + 1)
  }

  // ----- the parser object -----

  class Parser {
    const toks: seq<Token>
    var i: nat

    ghost predicate Valid()
      reads this
    {
      i <= |toks|
    }

    constructor (toks: seq<Token>)
      ensures Valid() && this.toks == toks && i == 0
    {
      this.toks := toks;
      i := 0;
    }

    method Peek() returns (t: Option<Token>)
      requires Valid()
      ensures t == if i < |toks| then Some(toks[i]) else None
    {
      t := if i < |toks| then Some(toks[i]) else None;
    }

    method Next() returns (t: Option<Token>)
      requires Valid()
      modifies this
      ensures Valid()
      ensures t == if old(i) < |toks| then Some(toks[old(i)]) else None
      ensures i == if old(i) < |toks| then old(i) + 1 else old(i)
    {
      t := Peek();
      if t.Some? { i := i + 1; }
    }

    method AcceptToken(p: Punct) returns (ok: bool)
      requires Valid()
      modifies this
      ensures Valid() && ok == At(toks, old(i), p) && i == Accept(toks, old(i), p)
    {
      var t := Peek();
      ok := t == Some(Op(p));
      if ok { i := i + 1; }
    }

    method Parse() returns (e: Expr)
      requires Valid()
      modifies this
      ensures Valid() && (e, i) == ParseTernary(toks, old(i))
    {
      e := Ternary();
    }

    method Ternary() returns (e: Expr)
      requires Valid()
      modifies this
      ensures Valid() && (e, i) == ParseTernary(toks, old(i))
      decreases |toks| - i, 6
    {
      var cond := Binary(0);
      var ok := AcceptToken(Question);
      if !ok { return cond; }
      var thn := Ternary();
      ok := AcceptToken(Colon);
      if !ok { return Unknown("malformed_ternary"); }
      var alt := Ternary();
      e := Ite(cond, thn, alt);
    }

    method Binary(minPrec: nat) returns (e: Expr)
      requires Valid()
      modifies this
      ensures Valid() && (e, i) == ParseBinary(toks, minPrec, old(i))
      decreases |toks| - i, 5
    {
      e := Unary();
      while true
        invariant Valid() && old(i) <= i
        invariant BinaryLoop(toks, minPrec, e, i) == ParseBinary(toks, minPrec, old(i))
        decreases |toks| - i
      {
        var t := Peek();
        if t.None? || !t.value.Op? || Prec(t.value.p) == 0 { return; }
        var prec := Prec(t.value.p);
        if prec < minPrec { return; }
        var _ := Next();
        var right := Binary(prec + 1);
        e := Bin(t.value.p, e, right);
      }
    }

    method Unary() returns (e: Expr)
      requires Valid()
      modifies this
      ensures Valid() && (e, i) == ParseUnary(toks, old(i))
      decreases |toks| - i, 3
    {
      var t := Peek();
      if t.None? { return Unknown("eof"); }
      if t.value.Op? && IsUnary(t.value.p) {
        var _ := Next();
        var arg := Unary();
        return Un(t.value.p, arg);
      }
      if t.value.Id? && IsNamedCast(t.value.name) {
        var _ := Next();
        SkipTemplate();
        var ok := AcceptToken(LParen);
        if ok {
          e := Ternary();
          var _ := AcceptToken(RParen);
          return;
        }
        return Unknown("malformed_named_cast");
      }
      e := Postfix();
    }

    /** Just past `<...>` when it balances and call parentheses follow. */
    method TemplateArgsEnd() returns (end: Option<nat>)
      requires Valid()
      ensures end == if SkipTemplateArgs(toks, i) == i then None else Some(SkipTemplateArgs(toks, i))
    {
      if i == |toks| || toks[i] != Op(Lt) { return None; }
      var depth, j := 0, i;
      while j < |toks|
        invariant i <= j <= |toks|
        invariant depth >= 0 && (j > i ==> depth > 0)
        invariant TemplateClose(toks, j, depth) == TemplateClose(toks, i, 0)
      {
        if toks[j] == Op(Lt) {
          depth := depth + 1;
        } else if toks[j] == Op(Gt) {
          depth := depth - 1;
          if depth == 0 { break; }
        } else if EndsTemplateScan(toks[j]) {
          return None;
        }
        j := j + 1;
      }
      if depth != 0 || j + 1 >= |toks| { return None; }
      end := if toks[j + 1] == Op(LParen) then Some(j + 1) else None;
    }

    method SkipTemplate()
      requires Valid()
      modifies this
      ensures Valid() && i == SkipTemplateArgs(toks, old(i))
    {
      var end := TemplateArgsEnd();
      if end.Some? { i := end.value; }
    }

    method Postfix() returns (e: Expr)
      requires Valid()
      modifies this
      ensures Valid() && (e, i) == ParsePostfix(toks, old(i))
      decreases |toks| - i, 2
    {
      e := Primary();
      while true
        invariant Valid() && old(i) <= i
        invariant PostfixLoop(toks, e, i) == ParsePostfix(toks, old(i))
        decreases |toks| - i
      {
        var t := Peek();
        if t.None? { return; }
        if t.value == Op(Arrow) || t.value == Op(Dot) {
          var member := Member(e);
          if member.None? { return Unknown("dangling_member"); }
          e := member.value;
        } else if t.value == Op(LParen) {
          e := Called(e);
        } else if t.value == Op(LBracket) {
          e := Subscripted(e);
        } else {
          return;
        }
      }
    }

    method Member(e: Expr) returns (r: Option<Expr>)
      requires Valid() && (At(toks, i, Arrow) || At(toks, i, Dot))
      modifies this
      ensures Valid() && (r, i) == ParseMember(toks, e, old(i))
      decreases |toks| - i, 1
    {
      var _ := Next();
      var nameTok := Next();
      if nameTok.None? { return None; }
      var name := TokenText(nameTok.value);
      SkipTemplate();
      var ok := AcceptToken(LParen);
      if ok {
        var args := Args(RParen);
        r := Some(Call(name, [e] + args));
      } else {
        r := Some(Call("field:" + name, [e]));
      }
    }

    method Called(e: Expr) returns (r: Expr)
      requires Valid() && At(toks, i, LParen)
      modifies this
      ensures Valid() && i > old(i) && PostfixLoop(toks, e, old(i)) == PostfixLoop(toks, r, i)
      decreases |toks| - i, 1
    {
      var _ := Next();
      var args := Args(RParen);
      r := CallOrCast(e, args);
    }

    method Subscripted(e: Expr) returns (r: Expr)
      requires Valid() && At(toks, i, LBracket)
      modifies this
      ensures Valid() && i > old(i) && PostfixLoop(toks, e, old(i)) == PostfixLoop(toks, r, i)
      decreases |toks| - i, 1
    {
      var _ := Next();
      var index := Ternary();
      var _ := AcceptToken(RBracket);
      r := Select(e, index);
    }

    method Args(close: Punct) returns (args: seq<Expr>)
      requires Valid()
      modifies this
      ensures Valid() && (args, i) == ParseArgs(toks, close, old(i))
      decreases |toks| - i, 8
    {
      args := [];
      var ok := AcceptToken(close);
      if ok { return; }
      while true
        invariant Valid() && old(i) <= i
        invariant ArgsLoop(toks, close, args, i) == ParseArgs(toks, close, old(i))
        decreases |toks| - i
      {
        var e := Ternary();
        args := args + [e];
        var more := AcceptToken(Comma);
        if !more {
          var _ := AcceptToken(close);
          return;
        }
      }
    }

    method Primary() returns (e: Expr)
      requires Valid()
      modifies this
      ensures Valid() && (e, i) == ParsePrimary(toks, old(i))
      decreases |toks| - i, 0
    {
      var t := Next();
      if t.None? { return Unknown("eof"); }
      if t.value == Op(LParen) {
        e := Ternary();
        var _ := AcceptToken(RParen);
        return;
      }
      if t.value == Op(LBrace) {
        var items := Args(RBrace);
        return Call("__init_list", items);
      }
      e := Atom(t.value);
    }
  }
}
