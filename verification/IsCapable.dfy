/** The interpreter of `IsCapable` bodies: initialisers are kept as text and evaluated at each use.

    What values are and what the primitive operations do with them is left open (`Prims`): the
    results hold whatever they do. */
module IsCapable {
  import opened Wrappers
  import opened ExprIr

  /** A value, a missing binding or unsupported operation, or any other exception. */
  datatype Result<+V> = Val(value: V) | Missing(reason: string) | Raised(what: string)

  /** What the interpreter leaves to the language and to the call hook. */
  datatype Prims<!V> = Prims(
    constant: Value -> V,
    truthy: V -> bool,
    ofBool: bool -> V,
    unary: (Punct, V) -> Result<V>,
    binary: (Punct, V, V) -> Result<V>,
    select: (V, V) -> Result<V>,
    /** A scoped enumerator, such as `NpuArch::DAV_3510`. */
    enumerator: string -> V,
    /** What a name stands for that is bound nowhere. */
    unbound: (string, map<string, V>) -> Result<V>,
    /** The text a call is looked up under. */
    pretty: Expr -> string,
    /** How many leading arguments the hook evaluates for a function. */
    evaluated: string -> nat,
    /** The hook itself: the call, its evaluated arguments, and the environment. */
    hook: (Expr, seq<V>, map<string, V>) -> Result<V>)

  predicate IsScoped(name: string)
  {
    exists k :: 0 <= k && k + 1 < |name| && name[k] == ':' && name[k + 1] == ':'
  }

  datatype Stmt =
    | Decl(name: string, init: Expr)
    | If(cond: Expr, thn: seq<Stmt>, otherwise: seq<Stmt>)
    | Return(result: Expr)
    | ExprStmt(expr: Expr)

  /** How a list of statements ends. */
  datatype End<+V> = Returned(verdict: bool) | FellThrough | Failed(failure: Result<V>) | TooDeep

  // ----- evaluation at each use -----

  /** `Deep` stands for the exception raised when the interpreter's recursion limit is hit. */
  datatype Outcome<+V> = Done(result: Result<V>) | Deep

  type Bindings = map<string, Expr>

  /** Evaluates an expression; `fuel` bounds how deep look-ups of initialisers may nest. */
  function Lazy<V>(p: Prims<V>, e: Expr, env: map<string, V>, b: Bindings, fuel: nat): Outcome<V>
    decreases fuel, e, 1
  {
    match e
    case Const(v, _) => Done(Val(p.constant(v)))
    case Unknown(reason) => Done(Missing(reason))
    case Ref(s) =>
      if s in env then Done(Val(env[s]))
      else if IsScoped(s) then Done(Val(p.enumerator(s)))
      else if s in b then (if fuel == 0 then Deep else Lazy(p, b[s], env, b, fuel - 1))
      else Done(p.unbound(s, env))
    case Un(op, a) => Then(Lazy(p, a, env, b, fuel), v => p.unary(op, v))
    case Bin(op, l, r) =>
      var left := Lazy(p, l, env, b, fuel);
      if !IsVal(left) then left
      else if op == AndAnd && !p.truthy(left.result.value) then Done(Val(p.ofBool(false)))
      else if op == OrOr && p.truthy(left.result.value) then Done(Val(p.ofBool(true)))
      else if op == AndAnd || op == OrOr then
        Then(Lazy(p, r, env, b, fuel), v => Val(p.ofBool(p.truthy(v))))
      else Then(Lazy(p, r, env, b, fuel), v => p.binary(op, left.result.value, v))
    case Ite(c, t, a) =>
      var cond := Lazy(p, c, env, b, fuel);
      if !IsVal(cond) then cond
      else if p.truthy(cond.result.value) then Lazy(p, t, env, b, fuel) else Lazy(p, a, env, b, fuel)
    case Select(a, i) =>
      var arr := Lazy(p, a, env, b, fuel);
      if !IsVal(arr) then arr
      else Then(Lazy(p, i, env, b, fuel), v => p.select(arr.result.value, v))
    case Call(f, args) =>
      if p.pretty(e) in env then Done(Val(env[p.pretty(e)]))
      else
        var n := if p.evaluated(f) < |args| then p.evaluated(f) else |args|;
        match LazyArgs(p, args, n, env, b, fuel)
        case Vals(vs) => Done(p.hook(e, vs, env))
        case Stopped(o) => o
  }

  predicate IsVal<V>(o: Outcome<V>) { o.Done? && o.result.Val? }

  function Then<V>(o: Outcome<V>, f: V -> Result<V>): Outcome<V>
  {
    if IsVal(o) then Done(f(o.result.value)) else o
  }

  datatype Args<+V> = Vals(values: seq<V>) | Stopped(outcome: Outcome<V>)

  /** The first `n` arguments, in order, up to the first that fails. */
  function LazyArgs<V>(p: Prims<V>, args: seq<Expr>, n: nat, env: map<string, V>, b: Bindings, fuel: nat): Args<V>
    requires n <= |args|
    decreases fuel, args, 0, n
  {
    if n == 0 then Vals([])
    else match LazyArgs(p, args, n - 1, env, b, fuel)
      case Stopped(o) => Stopped(o)
      case Vals(vs) =>
        var o := Lazy(p, args[n - 1], env, b, fuel);
        if IsVal(o) then Vals(vs + [o.result.value]) else Stopped(o)
  }

  /** Runs statements; a declaration only stores its initialiser. */
  function Exec<V>(p: Prims<V>, stmts: seq<Stmt>, env: map<string, V>, b: Bindings, fuel: nat): (End<V>, Bindings)
  {
    if stmts == [] then (FellThrough, b)
    else match stmts[0]
      case Decl(name, init) => Exec(p, stmts[1..], env, b[name := init], fuel)
      case ExprStmt(_) => Exec(p, stmts[1..], env, b, fuel)
      case Return(e) =>
        (match Lazy(p, e, env, b, fuel)
         case Deep => (TooDeep, b)
         case Done(Val(v)) => (Returned(p.truthy(v)), b)
         case Done(failure) => (Failed(failure), b))
      case If(c, t, o) =>
        match Lazy(p, c, env, b, fuel)
        case Deep => (TooDeep, b)
        case Done(Val(v)) =>
          var (end, b') := Exec(p, if p.truthy(v) then t else o, env, b, fuel);
          if end.FellThrough? then Exec(p, stmts[1..], env, b', fuel) else (end, b')
        case Done(failure) => (Failed(failure), b)
  }

  // ----- evaluation once, at the declaration -----

  type Store<V> = map<string, Result<V>>

  /** Evaluates an expression over values already computed; a stored failure counts where it is used. */
  function Eager<V>(p: Prims<V>, e: Expr, env: map<string, V>, st: Store<V>): Result<V>
    decreases e, 1
  {
    match e
    case Const(v, _) => Val(p.constant(v))
    case Unknown(reason) => Missing(reason)
    case Ref(s) =>
      if s in env then Val(env[s])
      else if IsScoped(s) then Val(p.enumerator(s))
      else if s in st then st[s]
      else p.unbound(s, env)
    case Un(op, a) =>
      var v := Eager(p, a, env, st);
      if v.Val? then p.unary(op, v.value) else v
    case Bin(op, l, r) =>
      var left := Eager(p, l, env, st);
      if !left.Val? then left
      else if op == AndAnd && !p.truthy(left.value) then Val(p.ofBool(false))
      else if op == OrOr && p.truthy(left.value) then Val(p.ofBool(true))
      else
        var right := Eager(p, r, env, st);
        if !right.Val? then right
        else if op == AndAnd || op == OrOr then Val(p.ofBool(p.truthy(right.value)))
        else p.binary(op, left.value, right.value)
    case Ite(c, t, a) =>
      var cond := Eager(p, c, env, st);
      if !cond.Val? then cond
      else if p.truthy(cond.value) then Eager(p, t, env, st) else Eager(p, a, env, st)
    case Select(a, i) =>
      var arr := Eager(p, a, env, st);
      if !arr.Val? then arr
      else
        var index := Eager(p, i, env, st);
        if index.Val? then p.select(arr.value, index.value) else index
    case Call(f, args) =>
      if p.pretty(e) in env then Val(env[p.pretty(e)])
      else
        var n := if p.evaluated(f) < |args| then p.evaluated(f) else |args|;
        match EagerArgs(p, args, n, env, st)
        case Vals(vs) => p.hook(e, vs, env)
        case Stopped(o) => if o.Done? then o.result else Missing("")
  }

  function EagerArgs<V>(p: Prims<V>, args: seq<Expr>, n: nat, env: map<string, V>, st: Store<V>): (r: Args<V>)
    requires n <= |args|
    ensures r.Stopped? ==> r.outcome.Done?
    decreases args, 0, n
  {
    if n == 0 then Vals([])
    else match EagerArgs(p, args, n - 1, env, st)
      case Stopped(o) => Stopped(o)
      case Vals(vs) =>
        var v := Eager(p, args[n - 1], env, st);
        if v.Val? then Vals(vs + [v.value]) else Stopped(Done(v))
  }

  /** The ordinary meaning of the body: a declaration computes its value. */
  function ExecEager<V>(p: Prims<V>, stmts: seq<Stmt>, env: map<string, V>, st: Store<V>): (r: (End<V>, Store<V>))
    ensures !r.0.TooDeep?
  {
    if stmts == [] then (FellThrough, st)
    else match stmts[0]
      case Decl(name, init) => ExecEager(p, stmts[1..], env, st[name := Eager(p, init, env, st)])
      case ExprStmt(_) => ExecEager(p, stmts[1..], env, st)
      case Return(e) =>
        (match Eager(p, e, env, st)
         case Val(v) => (Returned(p.truthy(v)), st)
         case failure => (Failed(failure), st))
      case If(c, t, o) =>
        match Eager(p, c, env, st)
        case Val(v) =>
          var (end, st') := ExecEager(p, if p.truthy(v) then t else o, env, st);
          if end.FellThrough? then ExecEager(p, stmts[1..], env, st') else (end, st')
        case failure => (Failed(failure), st)
  }

  // ----- what connectives and names mean -----

  /** Whether `&&` and `||` have a value, and whether it counts as true: the left operand alone decides where it can. */
  lemma {:induction false} Connectives<V(!new)>(p: Prims<V>, l: Expr, r: Expr, env: map<string, V>, st: Store<V>)
    requires forall x: bool :: p.truthy(p.ofBool(x)) == x
    ensures var a, b := Eager(p, l, env, st), Eager(p, r, env, st);
            var both, either := Eager(p, Bin(AndAnd, l, r), env, st), Eager(p, Bin(OrOr, l, r), env, st);
            && (!a.Val? ==> both == a == either)
            && (a.Val? && !p.truthy(a.value) ==> both.Val? && !p.truthy(both.value))
            && (a.Val? && p.truthy(a.value) ==> either.Val? && p.truthy(either.value))
            && (a.Val? && !b.Val? ==> (if p.truthy(a.value) then both else either) == b)
            && (a.Val? && b.Val? ==> both.Val? && either.Val?)
            && (a.Val? && b.Val? ==> p.truthy(both.value) == (p.truthy(a.value) && p.truthy(b.value)))
            && (a.Val? && b.Val? ==> p.truthy(either.value) == (p.truthy(a.value) || p.truthy(b.value)))
  {
  }

  /** What the environment gives a name is what it has, declared or not; a declared name is what was declared. */
  lemma {:induction false} NamesMean<V(!new)>(
    p: Prims<V>, name: string, env: map<string, V>, st: Store<V>, v: Result<V>)
    ensures name in env ==> Eager(p, Ref(name), env, st[name := v]) == Val(env[name])
    ensures name !in env && !IsScoped(name) ==> Eager(p, Ref(name), env, st[name := v]) == v
  {
  }

  // ----- declared before any mention -----

  /** The names an expression mentions. */
  function FreeSymbols(e: Expr): set<string>
    decreases e, 0
  {
    match e
    case Ref(s) => {s}
    case Un(_, a) => FreeSymbols(a)
    case Bin(_, l, r) => FreeSymbols(l) + FreeSymbols(r)
    case Ite(c, t, a) => FreeSymbols(c) + FreeSymbols(t) + FreeSymbols(a)
    case Call(_, args) => FreeSymbolsAll(args)
    case Select(a, i) => FreeSymbols(a) + FreeSymbols(i)
    case _ => {}
  }

  function FreeSymbolsAll(es: seq<Expr>): set<string>
    decreases es, 0
  {
    if es == [] then {} else FreeSymbols(es[0]) + FreeSymbolsAll(es[1..])
  }

  /** Names some initialiser mentions. */
  function Mentioned(stmts: seq<Stmt>): set<string>
  {
    if stmts == [] then {}
    else
      (match stmts[0]
       case Decl(_, init) => FreeSymbols(init)
       case If(_, t, o) => Mentioned(t) + Mentioned(o)
       case _ => {})
      + Mentioned(stmts[1..])
  }

  /** No name is declared after an initialiser mentioned it, nor mentioned by its own. */
  ghost predicate DeclaredBeforeMention(stmts: seq<Stmt>, mentioned: set<string>)
  {
    stmts == [] ||
    match stmts[0]
    case Decl(n, init) =>
      && n !in mentioned && n !in FreeSymbols(init)
      && DeclaredBeforeMention(stmts[1..], mentioned + FreeSymbols(init))
    case If(_, t, o) =>
      && DeclaredBeforeMention(t, mentioned) && DeclaredBeforeMention(o, mentioned)
      && DeclaredBeforeMention(stmts[1..], mentioned + Mentioned(t) + Mentioned(o))
    case _ => DeclaredBeforeMention(stmts[1..], mentioned)
  }

  function Count(stmts: seq<Stmt>): nat
  {
    if stmts == [] then 0
    else
      (match stmts[0]
       case Decl(_, _) => 1
       case If(_, t, o) => Count(t) + Count(o)
       case _ => 0)
      + Count(stmts[1..])
  }

  // ----- both agree -----

  /** The initialisers mention only names in `mentioned`. */
  ghost predicate MentionsWithin(b: Bindings, mentioned: set<string>)
  {
    forall n | n in b :: FreeSymbols(b[n]) <= mentioned
  }

  /** Evaluated anew with fuel `k` or more, each initialiser gives the stored result. */
  ghost predicate Agree<V(!new)>(p: Prims<V>, env: map<string, V>, b: Bindings, st: Store<V>, k: nat)
  {
    && b.Keys == st.Keys
    && forall n, f: nat | n in b && f >= k :: Lazy(p, b[n], env, b, f) == Done(st[n])
  }

  lemma {:induction false} FreeOfArg(es: seq<Expr>, k: nat)
    requires k < |es|
    ensures FreeSymbols(es[k]) <= FreeSymbolsAll(es)
    decreases es
  {
    if k > 0 { FreeOfArg(es[1..], k - 1); }
  }

  /** A binding nothing mentions makes no difference. */
  lemma {:induction false} Irrelevant<V(!new)>(
    p: Prims<V>, e: Expr, env: map<string, V>, b: Bindings, n: string, x: Expr, fuel: nat)
    requires n !in FreeSymbols(e) && forall m | m in b :: n !in FreeSymbols(b[m])
    ensures Lazy(p, e, env, b[n := x], fuel) == Lazy(p, e, env, b, fuel)
    decreases fuel, e, 2
  {
    match e
    case Const(_, _) =>
    case Unknown(_) =>
    case Ref(s) =>
      if s in b && fuel > 0 { Irrelevant(p, b[s], env, b, n, x, fuel - 1); }
    case Un(_, a) => Irrelevant(p, a, env, b, n, x, fuel);
    case Bin(_, _, _) => IrrelevantBin(p, e, env, b, n, x, fuel);
    case Ite(c, t, a) =>
      Irrelevant(p, c, env, b, n, x, fuel);
      Irrelevant(p, t, env, b, n, x, fuel);
      Irrelevant(p, a, env, b, n, x, fuel);
    case Select(a, i) =>
      Irrelevant(p, a, env, b, n, x, fuel);
      Irrelevant(p, i, env, b, n, x, fuel);
    case Call(f, args) =>
      IrrelevantArgs(p, args, if p.evaluated(f) < |args| then p.evaluated(f) else |args|, env, b, n, x, fuel);
  }

  lemma {:induction false} IrrelevantBin<V(!new)>(
    p: Prims<V>, e: Expr, env: map<string, V>, b: Bindings, n: string, x: Expr, fuel: nat)
    requires e.Bin? && n !in FreeSymbols(e) && forall m | m in b :: n !in FreeSymbols(b[m])
    ensures Lazy(p, e, env, b[n := x], fuel) == Lazy(p, e, env, b, fuel)
    decreases fuel, e, 1
  {
    Irrelevant(p, e.left, env, b, n, x, fuel);
    Irrelevant(p, e.right, env, b, n, x, fuel);
  }

  lemma {:induction false} IrrelevantArgs<V(!new)>(
    p: Prims<V>, args: seq<Expr>, k: nat, env: map<string, V>, b: Bindings, n: string, x: Expr, fuel: nat)
    requires k <= |args| && n !in FreeSymbolsAll(args) && forall m | m in b :: n !in FreeSymbols(b[m])
    ensures LazyArgs(p, args, k, env, b[n := x], fuel) == LazyArgs(p, args, k, env, b, fuel)
    decreases fuel, args, 0, k
  {
    if k > 0 {
      IrrelevantArgs(p, args, k - 1, env, b, n, x, fuel);
      FreeOfArg(args, k - 1);
      Irrelevant(p, args[k - 1], env, b, n, x, fuel);
    }
  }

  /** With agreeing bindings, evaluating anew and evaluating over stored results is the same. */
  lemma {:induction false} LazyIsEager<V(!new)>(
    p: Prims<V>, e: Expr, env: map<string, V>, b: Bindings, st: Store<V>, k: nat, fuel: nat)
    requires Agree(p, env, b, st, k) && fuel > k
    ensures Lazy(p, e, env, b, fuel) == Done(Eager(p, e, env, st))
    decreases e, 2
  {
    match e
    case Const(_, _) =>
    case Unknown(_) =>
    case Ref(s) =>
      if s in b { assert Lazy(p, b[s], env, b, fuel - 1) == Done(st[s]); }
    case Un(_, a) => LazyIsEager(p, a, env, b, st, k, fuel);
    case Bin(_, _, _) => BinIsEager(p, e, env, b, st, k, fuel);
    case Ite(c, t, a) =>
      LazyIsEager(p, c, env, b, st, k, fuel);
      LazyIsEager(p, t, env, b, st, k, fuel);
      LazyIsEager(p, a, env, b, st, k, fuel);
    case Select(a, i) =>
      LazyIsEager(p, a, env, b, st, k, fuel);
      LazyIsEager(p, i, env, b, st, k, fuel);
    case Call(f, args) =>
      LazyIsEagerArgs(p, args, if p.evaluated(f) < |args| then p.evaluated(f) else |args|, env, b, st, k, fuel);
  }

  lemma {:induction false} BinIsEager<V(!new)>(
    p: Prims<V>, e: Expr, env: map<string, V>, b: Bindings, st: Store<V>, k: nat, fuel: nat)
    requires e.Bin? && Agree(p, env, b, st, k) && fuel > k
    ensures Lazy(p, e, env, b, fuel) == Done(Eager(p, e, env, st))
    decreases e, 1
  {
    LazyIsEager(p, e.left, env, b, st, k, fuel);
    LazyIsEager(p, e.right, env, b, st, k, fuel);
  }

  lemma {:induction false} LazyIsEagerArgs<V(!new)>(
    p: Prims<V>, args: seq<Expr>, n: nat, env: map<string, V>, b: Bindings, st: Store<V>, k: nat, fuel: nat)
    requires n <= |args| && Agree(p, env, b, st, k) && fuel > k
    ensures LazyArgs(p, args, n, env, b, fuel) == EagerArgs(p, args, n, env, st)
    decreases args, 0, n
  {
    if n > 0 {
      LazyIsEagerArgs(p, args, n - 1, env, b, st, k, fuel);
      LazyIsEager(p, args[n - 1], env, b, st, k, fuel);
    }
  }

  /** Declaring a name no initialiser mentions, anew or again, keeps both in agreement. */
  lemma {:induction false} DeclareAgrees<V(!new)>(
    p: Prims<V>, env: map<string, V>, b: Bindings, st: Store<V>, k: nat, n: string, init: Expr, mentioned: set<string>)
    requires Agree(p, env, b, st, k) && MentionsWithin(b, mentioned)
    requires n !in mentioned && n !in FreeSymbols(init)
    ensures Agree(p, env, b[n := init], st[n := Eager(p, init, env, st)], k + 1)
    ensures MentionsWithin(b[n := init], mentioned + FreeSymbols(init))
  {
    var b', st' := b[n := init], st[n := Eager(p, init, env, st)];
    forall m, f: nat | m in b' && f >= k + 1 ensures Lazy(p, b'[m], env, b', f) == Done(st'[m]) {
      Irrelevant(p, b'[m], env, b, n, init, f);
      if m == n { LazyIsEager(p, init, env, b, st, k, f); }
    }
  }

  lemma {:induction false} AgreeLater<V(!new)>(
    p: Prims<V>, env: map<string, V>, b: Bindings, st: Store<V>, k: nat, k': nat)
    requires Agree(p, env, b, st, k) && k <= k'
    ensures Agree(p, env, b, st, k')
  {
  }

  /** Re-evaluating initialisers at each use ends as computing each one at its declaration does. */
  lemma {:induction false} ExecAgrees<V(!new)>(
    p: Prims<V>, stmts: seq<Stmt>, env: map<string, V>, b: Bindings, st: Store<V>, k: nat, mentioned: set<string>,
    fuel: nat)
    requires DeclaredBeforeMention(stmts, mentioned)
    requires Agree(p, env, b, st, k) && MentionsWithin(b, mentioned)
    requires fuel > k + Count(stmts)
    ensures var (end, b') := Exec(p, stmts, env, b, fuel); var (end', st') := ExecEager(p, stmts, env, st);
            && end == end'
            && Agree(p, env, b', st', k + Count(stmts))
            && MentionsWithin(b', mentioned + Mentioned(stmts))
    decreases stmts
  {
    if stmts != [] {
      match stmts[0]
      case Decl(n, init) =>
        DeclareAgrees(p, env, b, st, k, n, init, mentioned);
        ExecAgrees(p, stmts[1..], env, b[n := init], st[n := Eager(p, init, env, st)], k + 1,
                   mentioned + FreeSymbols(init), fuel);
      case ExprStmt(_) =>
        ExecAgrees(p, stmts[1..], env, b, st, k, mentioned, fuel);
      case Return(e) =>
        LazyIsEager(p, e, env, b, st, k, fuel);
        AgreeLater(p, env, b, st, k, k + Count(stmts));
      case If(c, t, o) => IfAgrees(p, stmts, env, b, st, k, mentioned, fuel);
    }
  }

  lemma {:induction false} IfAgrees<V(!new)>(
    p: Prims<V>, stmts: seq<Stmt>, env: map<string, V>, b: Bindings, st: Store<V>, k: nat, mentioned: set<string>,
    fuel: nat)
    requires stmts != [] && stmts[0].If? && DeclaredBeforeMention(stmts, mentioned)
    requires Agree(p, env, b, st, k) && MentionsWithin(b, mentioned)
    requires fuel > k + Count(stmts)
    ensures var (end, b') := Exec(p, stmts, env, b, fuel); var (end', st') := ExecEager(p, stmts, env, st);
            && end == end'
            && Agree(p, env, b', st', k + Count(stmts))
            && MentionsWithin(b', mentioned + Mentioned(stmts))
    decreases stmts, 0
  {
    var If(c, t, o) := stmts[0];
    LazyIsEager(p, c, env, b, st, k, fuel);
    var cond := Eager(p, c, env, st);
    if cond.Val? {
      var branch := if p.truthy(cond.value) then t else o;
      ExecAgrees(p, branch, env, b, st, k, mentioned, fuel);
      var (end, b') := Exec(p, branch, env, b, fuel);
      var (_, st') := ExecEager(p, branch, env, st);
      var k' := k + Count(t) + Count(o);
      AgreeLater(p, env, b', st', k + Count(branch), k');
      AgreeLater(p, env, b', st', k', k + Count(stmts));
      if end.FellThrough? {
        ExecAgrees(p, stmts[1..], env, b', st', k',
                   mentioned + Mentioned(t) + Mentioned(o), fuel);
      }
    } else {
      AgreeLater(p, env, b, st, k, k + Count(stmts));
    }
  }

  // ----- the predicate -----

  /** What `evaluate_env` gives: true, false, nothing because something is unbound, or an exception. */
  datatype Answer = Known(verdict: bool) | Unresolved | Exception

  function AnswerOf<V>(end: End<V>): Answer
  {
    match end
    case Returned(v) => Known(v)
    case FellThrough => Known(false)
    case Failed(f) => if f.Missing? then Unresolved else Exception
    case TooDeep => Exception
  }

  /** For bodies that declare no name after an initialiser mentioned it the verdict is that of ordinary evaluation,
      and the look-ups come to an end: `fuel` need only exceed the number of declarations. */
  lemma {:induction false} LazyVerdictIsEager<V(!new)>(p: Prims<V>, stmts: seq<Stmt>, env: map<string, V>, fuel: nat)
    requires DeclaredBeforeMention(stmts, {}) && fuel > Count(stmts)
    ensures Exec(p, stmts, env, map[], fuel).0 == ExecEager(p, stmts, env, map[]).0
    ensures !Exec(p, stmts, env, map[], fuel).0.TooDeep?
  {
    ExecAgrees(p, stmts, env, map[], map[], 0, {}, fuel);
  }

  // ----- look-ups that come to an end -----

  ghost predicate Below(names: set<string>, rank: string -> nat, top: nat)
  {
    forall m | m in names :: rank(m) < top
  }

  /** Each initialiser mentions only names of lower rank than its own. */
  ghost predicate Ranked(b: Bindings, rank: string -> nat, top: nat)
  {
    forall n | n in b :: rank(n) < top && Below(FreeSymbols(b[n]), rank, rank(n))
  }

  /** Evaluation ends when what an expression mentions is ranked and there is fuel for the ranks. */
  lemma {:induction false} RankedEnds<V(!new)>(
    p: Prims<V>, e: Expr, env: map<string, V>, b: Bindings, rank: string -> nat, top: nat, fuel: nat)
    requires Ranked(b, rank, top) && Below(FreeSymbols(e) * b.Keys, rank, fuel)
    ensures !Lazy(p, e, env, b, fuel).Deep?
    decreases fuel, e, 2
  {
    match e
    case Const(_, _) =>
    case Unknown(_) =>
    case Ref(s) =>
      if s in b {
        assert rank(s) < fuel;
        RankedEnds(p, b[s], env, b, rank, top, fuel - 1);
      }
    case Un(_, a) => RankedEnds(p, a, env, b, rank, top, fuel);
    case Bin(_, _, _) => RankedBinEnds(p, e, env, b, rank, top, fuel);
    case Ite(c, t, a) =>
      RankedEnds(p, c, env, b, rank, top, fuel);
      RankedEnds(p, t, env, b, rank, top, fuel);
      RankedEnds(p, a, env, b, rank, top, fuel);
    case Select(a, i) =>
      RankedEnds(p, a, env, b, rank, top, fuel);
      RankedEnds(p, i, env, b, rank, top, fuel);
    case Call(f, args) =>
      RankedArgsEnd(p, args, if p.evaluated(f) < |args| then p.evaluated(f) else |args|, env, b, rank, top, fuel);
  }

  lemma {:induction false} RankedBinEnds<V(!new)>(
    p: Prims<V>, e: Expr, env: map<string, V>, b: Bindings, rank: string -> nat, top: nat, fuel: nat)
    requires e.Bin? && Ranked(b, rank, top) && Below(FreeSymbols(e) * b.Keys, rank, fuel)
    ensures !Lazy(p, e, env, b, fuel).Deep?
    decreases fuel, e, 1
  {
    RankedEnds(p, e.left, env, b, rank, top, fuel);
    RankedEnds(p, e.right, env, b, rank, top, fuel);
  }

  lemma {:induction false} RankedArgsEnd<V(!new)>(
    p: Prims<V>, args: seq<Expr>, n: nat, env: map<string, V>, b: Bindings, rank: string -> nat, top: nat, fuel: nat)
    requires n <= |args| && Ranked(b, rank, top) && Below(FreeSymbolsAll(args) * b.Keys, rank, fuel)
    ensures var r := LazyArgs(p, args, n, env, b, fuel); r.Stopped? ==> !r.outcome.Deep?
    decreases fuel, args, 0, n
  {
    if n > 0 {
      RankedArgsEnd(p, args, n - 1, env, b, rank, top, fuel);
      FreeOfArg(args, n - 1);
      RankedEnds(p, args[n - 1], env, b, rank, top, fuel);
    }
  }

  /** Each declaration mentions only names of lower rank. */
  ghost predicate RankedBody(stmts: seq<Stmt>, rank: string -> nat, top: nat)
  {
    stmts == [] ||
    ((match stmts[0]
      case Decl(n, init) => rank(n) < top && Below(FreeSymbols(init), rank, rank(n))
      case If(_, t, o) => RankedBody(t, rank, top) && RankedBody(o, rank, top)
      case _ => true)
     && RankedBody(stmts[1..], rank, top))
  }

  /** However often names are declared again, the look-ups of a body come to an end when no declaration can
      lead back to its own name. */
  lemma {:induction false} RankedBodyEnds<V(!new)>(
    p: Prims<V>, stmts: seq<Stmt>, env: map<string, V>, b: Bindings, rank: string -> nat, top: nat, fuel: nat)
    requires RankedBody(stmts, rank, top) && Ranked(b, rank, top) && fuel >= top
    ensures var (end, b') := Exec(p, stmts, env, b, fuel); !end.TooDeep? && Ranked(b', rank, top)
    decreases stmts
  {
    if stmts != [] {
      match stmts[0]
      case Decl(n, init) => RankedBodyEnds(p, stmts[1..], env, b[n := init], rank, top, fuel);
      case ExprStmt(_) => RankedBodyEnds(p, stmts[1..], env, b, rank, top, fuel);
      case Return(e) => RankedEnds(p, e, env, b, rank, top, fuel);
      case If(c, t, o) =>
        RankedEnds(p, c, env, b, rank, top, fuel);
        var cond := Lazy(p, c, env, b, fuel);
        if IsVal(cond) {
          var branch := if p.truthy(cond.result.value) then t else o;
          RankedBodyEnds(p, branch, env, b, rank, top, fuel);
          RankedBodyEnds(p, stmts[1..], env, Exec(p, branch, env, b, fuel).1, rank, top, fuel);
        }
    }
  }

  // ----- runs, statement by statement -----

  /** How a kind of evaluation works on its state: what an expression gives, and what a declaration does. */
  datatype Machine<!S, !V> = Machine(
    eval: (Expr, S) -> Outcome<V>,
    declare: (string, Expr, S) -> S,
    truthy: V -> bool)

  /** The initialisers as they stand, evaluated anew at each use. */
  function AtUse<V>(p: Prims<V>, env: map<string, V>, fuel: nat): Machine<Bindings, V>
  {
    Machine((e, b) => Lazy(p, e, env, b, fuel), (n, init, b: Bindings) => b[n := init], p.truthy)
  }

  /** The ordinary one: a declaration computes its value. */
  function AtDeclaration<V>(p: Prims<V>, env: map<string, V>): Machine<Store<V>, V>
  {
    Machine((e, st) => Done(Eager(p, e, env, st)), (n, init, st: Store<V>) => st[n := Eager(p, init, env, st)],
        p.truthy)
  }

  /** The statements still to be run. */
  datatype Config<+S> = Todo(stmts: seq<Stmt>, state: S)

  /** One statement: a declaration declares, a condition that has a value picks its branch, and a call is passed over.
      */
  ghost predicate Follows<S, V>(m: Machine<S, V>, c: Config<S>, c': Config<S>)
  {
    && c.stmts != []
    && match c.stmts[0]
       case Decl(n, init) => c' == Todo(c.stmts[1..], m.declare(n, init, c.state))
       case ExprStmt(_) => c' == Todo(c.stmts[1..], c.state)
       case Return(_) => false
       case If(cond, t, o) =>
         var v := m.eval(cond, c.state);
         IsVal(v) && c' == Todo((if m.truthy(v.result.value) then t else o) + c.stmts[1..], c.state)
  }

  ghost predicate Steps<S, V>(m: Machine<S, V>, cs: seq<Config<S>>)
  {
    cs != [] && forall i | 0 < i < |cs| :: Follows(m, cs[i - 1], cs[i])
  }

  ghost predicate Reaches<S(!new), V>(m: Machine<S, V>, c: Config<S>, d: Config<S>)
  {
    exists cs: seq<Config<S>> :: Steps(m, cs) && cs[0] == c && cs[|cs| - 1] == d
  }

  /** Here stands a `return` whose value counts as `verdict`. */
  ghost predicate Returns<S, V>(m: Machine<S, V>, d: Config<S>, verdict: bool)
  {
    && d.stmts != [] && d.stmts[0].Return?
    && var v := m.eval(d.stmts[0].result, d.state); IsVal(v) && m.truthy(v.result.value) == verdict
  }

  /** Here the value of a `return` or of a condition is asked for. */
  ghost predicate Asks(d: Config, e: Expr)
  {
    d.stmts != [] && (d.stmts[0] == Return(e) || (d.stmts[0].If? && d.stmts[0].cond == e))
  }

  /** Here what is asked for comes to nothing because something is unbound. */
  ghost predicate MeetsMissing<S, V>(m: Machine<S, V>, d: Config<S>)
  {
    exists e :: Asks(d, e) && m.eval(e, d.state).Done? && m.eval(e, d.state).result.Missing?
  }

  /** Here it raises another exception, the one for too deep a recursion included. */
  ghost predicate MeetsException<S, V>(m: Machine<S, V>, d: Config<S>)
  {
    exists e :: Asks(d, e) && (m.eval(e, d.state).Deep? || m.eval(e, d.state).result.Raised?)
  }

  /** No statement is run from here. */
  ghost predicate Stops<S, V>(m: Machine<S, V>, d: Config<S>)
  {
    d.stmts == [] || Returns(m, d, true) || Returns(m, d, false) || MeetsMissing(m, d) || MeetsException(m, d)
  }

  lemma {:induction false} NothingFollows<S(!new), V>(m: Machine<S, V>, d: Config<S>)
    requires Stops(m, d)
    ensures forall c :: !Follows(m, d, c)
  {
  }

  lemma {:induction false} StepsAgree<S(!new), V>(m: Machine<S, V>, cs: seq<Config<S>>, cs': seq<Config<S>>, i: nat)
    requires Steps(m, cs) && Steps(m, cs') && cs[0] == cs'[0] && i < |cs| && i < |cs'|
    ensures cs[i] == cs'[i]
    decreases i
  {
    if i > 0 {
      StepsAgree(m, cs, cs', i - 1);
      assert Follows(m, cs[i - 1], cs[i]) && Follows(m, cs'[i - 1], cs'[i]);
    }
  }

  lemma {:induction false} GoesOn<S(!new), V>(m: Machine<S, V>, cs: seq<Config<S>>, i: nat)
    requires Steps(m, cs) && i + 1 < |cs|
    ensures !Stops(m, cs[i])
  {
    assert Follows(m, cs[i + 1 - 1], cs[i + 1]);
    if Stops(m, cs[i]) { NothingFollows(m, cs[i]); }
  }

  lemma {:induction false} NoLonger<S(!new), V>(m: Machine<S, V>, cs: seq<Config<S>>, cs': seq<Config<S>>)
    requires Steps(m, cs) && Steps(m, cs') && cs[0] == cs'[0] && Stops(m, cs[|cs| - 1])
    ensures |cs'| <= |cs|
  {
    if |cs| < |cs'| {
      StepsAgree(m, cs, cs', |cs| - 1);
      GoesOn(m, cs', |cs| - 1);
    }
  }

  /** A run stops in one place. */
  lemma {:induction false} StopsOnce<S(!new), V>(m: Machine<S, V>, c: Config<S>, d: Config<S>, d': Config<S>)
    requires Reaches(m, c, d) && Stops(m, d) && Reaches(m, c, d') && Stops(m, d')
    ensures d == d'
  {
    var cs: seq<Config<S>> :| Steps(m, cs) && cs[0] == c && cs[|cs| - 1] == d;
    var cs': seq<Config<S>> :| Steps(m, cs') && cs'[0] == c && cs'[|cs'| - 1] == d';
    NoLonger(m, cs, cs');
    NoLonger(m, cs', cs);
    StepsAgree(m, cs, cs', |cs| - 1);
  }

  lemma {:induction false} ReachesSelf<S(!new), V>(m: Machine<S, V>, c: Config<S>)
    ensures Reaches(m, c, c)
  {
    assert Steps(m, [c]);
  }

  lemma {:induction false} ReachesFirst<S(!new), V>(m: Machine<S, V>, c: Config<S>, next: Config<S>, d: Config<S>)
    requires Follows(m, c, next) && Reaches(m, next, d)
    ensures Reaches(m, c, d)
  {
    var cs: seq<Config<S>> :| Steps(m, cs) && cs[0] == next && cs[|cs| - 1] == d;
    var all := [c] + cs;
    forall i | 0 < i < |all| ensures Follows(m, all[i - 1], all[i]) {
      if i > 1 { assert all[i] == cs[i - 1] && all[i - 1] == cs[i - 2]; }
    }
    assert Steps(m, all) && all[|all| - 1] == d;
  }

  lemma {:induction false} ReachesThen<S(!new), V>(m: Machine<S, V>, c: Config<S>, d: Config<S>, d': Config<S>)
    requires Reaches(m, c, d) && Reaches(m, d, d')
    ensures Reaches(m, c, d')
  {
    var cs: seq<Config<S>> :| Steps(m, cs) && cs[0] == c && cs[|cs| - 1] == d;
    ReachesAlong(m, cs, d');
  }

  lemma {:induction false} ReachesAlong<S(!new), V>(m: Machine<S, V>, cs: seq<Config<S>>, d: Config<S>)
    requires Steps(m, cs) && Reaches(m, cs[|cs| - 1], d)
    ensures Reaches(m, cs[0], d)
    decreases |cs|
  {
    if |cs| > 1 {
      var rest := cs[1..];
      forall i | 0 < i < |rest| ensures Follows(m, rest[i - 1], rest[i]) {
        assert rest[i] == cs[i + 1] && rest[i - 1] == cs[i];
      }
      ReachesAlong(m, rest, d);
      assert Follows(m, cs[0], cs[1]);
      ReachesFirst(m, cs[0], rest[0], d);
    }
  }

  /** Where a list of statements that ends so, with others behind it, comes to. */
  ghost predicate EndsAt<S(!new), V>(m: Machine<S, V>, rest: seq<Stmt>, end: End<V>, state: S, d: Config<S>)
  {
    match end
    case FellThrough => d == Todo(rest, state)
    case Returned(verdict) => Returns(m, d, verdict)
    case Failed(f) => if f.Missing? then MeetsMissing(m, d) else MeetsException(m, d)
    case TooDeep => MeetsException(m, d)
  }

  ghost predicate LeadsTo<S(!new), V>(
    m: Machine<S, V>, c: Config<S>, rest: seq<Stmt>, end: End<V>, state: S)
  {
    exists d :: Reaches(m, c, d) && EndsAt(m, rest, end, state, d)
  }

  lemma {:induction false} LeadsFirst<S(!new), V>(
    m: Machine<S, V>, c: Config<S>, next: Config<S>, rest: seq<Stmt>, end: End<V>, state: S)
    requires Follows(m, c, next) && LeadsTo(m, next, rest, end, state)
    ensures LeadsTo(m, c, rest, end, state)
  {
    var d :| Reaches(m, next, d) && EndsAt(m, rest, end, state, d);
    ReachesFirst(m, c, next, d);
  }

  lemma {:induction false} LeadsThen<S(!new), V>(
    m: Machine<S, V>, c: Config<S>, rest: seq<Stmt>, state: S, rest': seq<Stmt>, end: End<V>, state': S)
    requires LeadsTo(m, c, rest, FellThrough, state) && LeadsTo(m, Todo(rest, state), rest', end, state')
    ensures LeadsTo(m, c, rest', end, state')
  {
    var d :| Reaches(m, Todo(rest, state), d) && EndsAt(m, rest', end, state', d);
    ReachesThen(m, c, Todo(rest, state), d);
  }

  /** What is asked for here decides how the run ends. */
  lemma {:induction false} AskedEnds<S(!new), V>(m: Machine<S, V>, d: Config<S>, e: Expr, rest: seq<Stmt>, state: S)
    requires Asks(d, e)
    ensures match m.eval(e, d.state)
            case Deep => LeadsTo(m, d, rest, TooDeep, state)
            case Done(Val(v)) => d.stmts[0].Return? ==> LeadsTo(m, d, rest, Returned(m.truthy(v)), state)
            case Done(failure) => LeadsTo(m, d, rest, Failed(failure), state)
  {
    ReachesSelf(m, d);
    match m.eval(e, d.state)
    case Deep => assert EndsAt(m, rest, TooDeep, state, d);
    case Done(Val(v)) =>
      if d.stmts[0].Return? { assert EndsAt(m, rest, Returned(m.truthy(v)), state, d); }
    case Done(failure) => assert EndsAt(m, rest, Failed(failure), state, d);
  }

  /** The interpreter comes to where the run leads. */
  lemma {:induction false} ExecLeads<V(!new)>(
    p: Prims<V>, stmts: seq<Stmt>, env: map<string, V>, b: Bindings, fuel: nat, rest: seq<Stmt>)
    ensures var (end, b') := Exec(p, stmts, env, b, fuel);
            LeadsTo(AtUse(p, env, fuel), Todo(stmts + rest, b), rest, end, b')
    decreases stmts
  {
    var m, c := AtUse(p, env, fuel), Todo(stmts + rest, b);
    if stmts == [] {
      assert stmts + rest == rest;
      ReachesSelf(m, c);
      assert EndsAt(m, rest, FellThrough, b, c);
    } else {
      var (end, b') := Exec(p, stmts, env, b, fuel);
      assert (stmts + rest)[0] == stmts[0] && (stmts + rest)[1..] == stmts[1..] + rest;
      match stmts[0]
      case Decl(n, init) =>
        ExecLeads(p, stmts[1..], env, b[n := init], fuel, rest);
        LeadsFirst(m, c, Todo(stmts[1..] + rest, b[n := init]), rest, end, b');
      case ExprStmt(_) =>
        ExecLeads(p, stmts[1..], env, b, fuel, rest);
        LeadsFirst(m, c, Todo(stmts[1..] + rest, b), rest, end, b');
      case Return(e) => AskedEnds(m, c, e, rest, b);
      case If(cond, t, o) =>
        AskedEnds(m, c, cond, rest, b);
        var v := Lazy(p, cond, env, b, fuel);
        if IsVal(v) {
          var branch := if p.truthy(v.result.value) then t else o;
          ExecLeads(p, branch, env, b, fuel, stmts[1..] + rest);
          var (inner, b'') := Exec(p, branch, env, b, fuel);
          LeadsFirst(m, c, Todo(branch + (stmts[1..] + rest), b), stmts[1..] + rest, inner, b'');
          if inner.FellThrough? {
            ExecLeads(p, stmts[1..], env, b'', fuel, rest);
            LeadsThen(m, c, stmts[1..] + rest, b'', rest, end, b');
          }
        }
    }
  }

  /** So does the ordinary meaning. */
  lemma {:induction false} ExecEagerLeads<V(!new)>(
    p: Prims<V>, stmts: seq<Stmt>, env: map<string, V>, st: Store<V>, rest: seq<Stmt>)
    ensures var (end, st') := ExecEager(p, stmts, env, st);
            LeadsTo(AtDeclaration(p, env), Todo(stmts + rest, st), rest, end, st')
    decreases stmts
  {
    var m, c := AtDeclaration(p, env), Todo(stmts + rest, st);
    if stmts == [] {
      assert stmts + rest == rest;
      ReachesSelf(m, c);
      assert EndsAt(m, rest, FellThrough, st, c);
    } else {
      var (end, st') := ExecEager(p, stmts, env, st);
      assert (stmts + rest)[0] == stmts[0] && (stmts + rest)[1..] == stmts[1..] + rest;
      match stmts[0]
      case Decl(n, init) =>
        var next := st[n := Eager(p, init, env, st)];
        ExecEagerLeads(p, stmts[1..], env, next, rest);
        LeadsFirst(m, c, Todo(stmts[1..] + rest, next), rest, end, st');
      case ExprStmt(_) =>
        ExecEagerLeads(p, stmts[1..], env, st, rest);
        LeadsFirst(m, c, Todo(stmts[1..] + rest, st), rest, end, st');
      case Return(e) => AskedEnds(m, c, e, rest, st);
      case If(cond, t, o) =>
        AskedEnds(m, c, cond, rest, st);
        var v := Eager(p, cond, env, st);
        if v.Val? {
          var branch := if p.truthy(v.value) then t else o;
          ExecEagerLeads(p, branch, env, st, stmts[1..] + rest);
          var (inner, st'') := ExecEager(p, branch, env, st);
          LeadsFirst(m, c, Todo(branch + (stmts[1..] + rest), st), stmts[1..] + rest, inner, st'');
          if inner.FellThrough? {
            ExecEagerLeads(p, stmts[1..], env, st'', rest);
            LeadsThen(m, c, stmts[1..] + rest, st'', rest, end, st');
          }
        }
    }
  }

  // ----- what the answer says of the run -----

  /** The run comes to a `return` of that verdict; to the end of the body; to something unbound; to another exception.
      */
  ghost predicate RunReturns<S(!new), V>(m: Machine<S, V>, c: Config<S>, verdict: bool)
  {
    exists d :: Reaches(m, c, d) && Returns(m, d, verdict)
  }

  ghost predicate RunEnds<S(!new), V>(m: Machine<S, V>, c: Config<S>)
  {
    exists d :: Reaches(m, c, d) && d.stmts == []
  }

  ghost predicate RunMisses<S(!new), V>(m: Machine<S, V>, c: Config<S>)
  {
    exists d :: Reaches(m, c, d) && MeetsMissing(m, d)
  }

  ghost predicate RunRaises<S(!new), V>(m: Machine<S, V>, c: Config<S>)
  {
    exists d :: Reaches(m, c, d) && MeetsException(m, d)
  }

  /** The answer is true exactly when the run returns something true, false exactly when it returns something false
      or nothing, unresolved exactly when it asks for something unbound, and an exception exactly when it raises one. */
  ghost predicate Answers<S(!new), V>(m: Machine<S, V>, c: Config<S>, answer: Answer)
  {
    && (answer == Known(true) <==> RunReturns(m, c, true))
    && (answer == Known(false) <==> RunReturns(m, c, false) || RunEnds(m, c))
    && (answer == Unresolved <==> RunMisses(m, c))
    && (answer == Exception <==> RunRaises(m, c))
  }

  lemma {:induction false} AnswerFits<S(!new), V>(m: Machine<S, V>, c: Config<S>, end: End<V>, state: S)
    requires LeadsTo(m, c, [], end, state) && (end.Failed? ==> !end.failure.Val?)
    ensures Answers(m, c, AnswerOf(end))
  {
    var d :| Reaches(m, c, d) && EndsAt(m, [], end, state, d);
    forall d' | Reaches(m, c, d') && Stops(m, d') ensures d' == d { StopsOnce(m, c, d, d'); }
    StopsOneWay(m, d);
    match end
    case FellThrough => assert RunEnds(m, c);
    case Returned(verdict) => assert RunReturns(m, c, verdict);
    case Failed(f) => if f.Missing? { assert RunMisses(m, c); } else { assert RunRaises(m, c); }
    case TooDeep => assert RunRaises(m, c);
  }

  lemma {:induction false} StopsOneWay<S(!new), V>(m: Machine<S, V>, d: Config<S>)
    ensures Returns(m, d, true) ==>
              d.stmts != [] && !Returns(m, d, false) && !MeetsMissing(m, d) && !MeetsException(m, d)
    ensures Returns(m, d, false) ==> d.stmts != [] && !MeetsMissing(m, d) && !MeetsException(m, d)
    ensures MeetsMissing(m, d) ==> d.stmts != [] && !MeetsException(m, d)
    ensures MeetsException(m, d) ==> d.stmts != []
  {
  }

  lemma {:induction false} FailuresAreNoValues<V(!new)>(
    p: Prims<V>, stmts: seq<Stmt>, env: map<string, V>, b: Bindings, fuel: nat)
    ensures var end := Exec(p, stmts, env, b, fuel).0; end.Failed? ==> !end.failure.Val?
    decreases stmts
  {
    if stmts != [] {
      match stmts[0]
      case Decl(n, init) => FailuresAreNoValues(p, stmts[1..], env, b[n := init], fuel);
      case ExprStmt(_) => FailuresAreNoValues(p, stmts[1..], env, b, fuel);
      case Return(_) =>
      case If(c, t, o) =>
        FailuresAreNoValues(p, t, env, b, fuel);
        FailuresAreNoValues(p, o, env, b, fuel);
        FailuresAreNoValues(p, stmts[1..], env, Exec(p, t, env, b, fuel).1, fuel);
        FailuresAreNoValues(p, stmts[1..], env, Exec(p, o, env, b, fuel).1, fuel);
    }
  }

  /** What is answered, told by the run that evaluates each initialiser anew where it is used. */
  lemma {:induction false} AnswerByUse<V(!new)>(p: Prims<V>, stmts: seq<Stmt>, env: map<string, V>, fuel: nat)
    ensures Answers(AtUse(p, env, fuel), Todo(stmts, map[]), AnswerOf(Exec(p, stmts, env, map[], fuel).0))
  {
    var (end, b') := Exec(p, stmts, env, map[], fuel);
    ExecLeads(p, stmts, env, map[], fuel, []);
    assert stmts + [] == stmts;
    FailuresAreNoValues(p, stmts, env, map[], fuel);
    AnswerFits(AtUse(p, env, fuel), Todo(stmts, map[]), end, b');
  }

  /** The same by the ordinary run, for bodies that declare no name after an initialiser mentioned it. */
  lemma {:induction false} AnswerByDeclaration<V(!new)>(p: Prims<V>, stmts: seq<Stmt>, env: map<string, V>, fuel: nat)
    requires DeclaredBeforeMention(stmts, {}) && fuel > Count(stmts)
    ensures Answers(AtDeclaration(p, env), Todo(stmts, map[]), AnswerOf(Exec(p, stmts, env, map[], fuel).0))
  {
    var (end, st') := ExecEager(p, stmts, env, map[]);
    LazyVerdictIsEager(p, stmts, env, fuel);
    ExecEagerLeads(p, stmts, env, map[], []);
    assert stmts + [] == stmts;
    FailuresAreNoValues(p, stmts, env, map[], fuel);
    AnswerFits(AtDeclaration(p, env), Todo(stmts, map[]), end, st');
  }

  class CapablePred<V(!new)> {
    const p: Prims<V>
    const statements: seq<Stmt>
    var bindings: Bindings

    constructor (p: Prims<V>, statements: seq<Stmt>)
      ensures this.p == p && this.statements == statements
    {
      this.p, this.statements := p, statements;
      bindings := map[];
    }

    /** Runs statements in order, updating the bindings. */
    method Run(stmts: seq<Stmt>, env: map<string, V>, fuel: nat) returns (end: End<V>)
      modifies this
      ensures (end, bindings) == Exec(p, stmts, env, old(bindings), fuel)
      decreases stmts
    {
      ghost var rest := stmts;
      ghost var start := bindings;
      assert stmts[0..] == stmts;
      for i := 0 to |stmts|
        invariant Exec(p, stmts, env, start, fuel) == Exec(p, stmts[i..], env, bindings, fuel)
      {
        assert stmts[i..][0] == stmts[i] && stmts[i..][1..] == stmts[i + 1..];
        match stmts[i]
        case Decl(name, init) =>
          bindings := bindings[name := init];
        case ExprStmt(_) =>
        case Return(e) =>
          match Lazy(p, e, env, bindings, fuel) {
            case Deep => return TooDeep;
            case Done(Val(v)) => return Returned(p.truthy(v));
            case Done(failure) => return Failed(failure);
          }
        case If(c, t, o) =>
          var cond := Lazy(p, c, env, bindings, fuel);
          if cond.Deep? { return TooDeep; }
          if !cond.result.Val? { return Failed(cond.result); }
          assert stmts[i] in stmts;
          if p.truthy(cond.result.value) { end := Run(t, env, fuel); } else { end := Run(o, env, fuel); }
          if !end.FellThrough? { return; }
      }
      assert stmts[|stmts|..] == [];
      return FellThrough;
    }

    method EvaluateEnv(env: map<string, V>, fuel: nat) returns (answer: Answer)
      modifies this
      ensures answer == AnswerOf(Exec(p, statements, env, map[], fuel).0)
      ensures Answers(AtUse(p, env, fuel), Todo(statements, map[]), answer)
      ensures DeclaredBeforeMention(statements, {}) && fuel > Count(statements) ==>
                Answers(AtDeclaration(p, env), Todo(statements, map[]), answer)
    {
      bindings := map[];
      var end := Run(statements, env, fuel);
      AnswerByUse(p, statements, env, fuel);
      if DeclaredBeforeMention(statements, {}) && fuel > Count(statements) {
        AnswerByDeclaration(p, statements, env, fuel);
      }
      answer := AnswerOf(end);
    }
  }

  // ----- where they agree and differ -----

  lemma {:induction false} DeclarationFirst(x: string, init: Expr, rest: seq<Stmt>, mentioned: set<string>)
    ensures var stmts := [Decl(x, init)] + rest;
            && Count(stmts) == 1 + Count(rest)
            && (DeclaredBeforeMention(stmts, mentioned) <==>
                  && x !in mentioned && x !in FreeSymbols(init)
                  && DeclaredBeforeMention(rest, mentioned + FreeSymbols(init)))
  {
    var stmts := [Decl(x, init)] + rest;
    assert stmts[0] == Decl(x, init) && stmts[1..] == rest;
  }

  /** Declaring a name again is harmless while no initialiser mentions it. */
  lemma {:induction false} RedeclarationAgrees<V(!new)>(
    p: Prims<V>, env: map<string, V>, x: string, a: Expr, b: Expr, fuel: nat)
    requires x !in FreeSymbols(a) && x !in FreeSymbols(b) && fuel > 2
    ensures var body := [Decl(x, a), Decl(x, b), Return(Ref(x))];
            Exec(p, body, env, map[], fuel).0 == ExecEager(p, body, env, map[]).0
  {
    var last := [Return(Ref(x))];
    var rest, body := [Decl(x, b)] + last, [Decl(x, a)] + ([Decl(x, b)] + last);
    assert [Decl(x, a), Decl(x, b), Return(Ref(x))] == body;
    assert last[1..] == [] && Count(last) == 0;
    DeclarationFirst(x, b, last, FreeSymbols(a));
    DeclarationFirst(x, a, rest, {});
    assert {} + FreeSymbols(a) == FreeSymbols(a);
    assert DeclaredBeforeMention(last, FreeSymbols(a) + FreeSymbols(b));
    LazyVerdictIsEager(p, body, env, fuel);
  }

  /** A name declared again after an initialiser mentioned it changes what that initialiser meant. */
  lemma {:induction false} RedeclarationDiffers<V(!new)>(p: Prims<V>, fuel: nat)
    requires fuel >= 2 && p.truthy(p.constant(BoolV(true))) && !p.truthy(p.constant(BoolV(false)))
    ensures var yes, no := Const(BoolV(true), false), Const(BoolV(false), false);
            var body := [Decl("x", yes), Decl("y", Ref("x")), Decl("x", no), Return(Ref("y"))];
            && Exec(p, body, map[], map[], fuel).0 == Returned(false)
            && ExecEager(p, body, map[], map[]).0 == Returned(true)
  {
    var yes, no := Const(BoolV(true), false), Const(BoolV(false), false);
    var d, e, f, r := Decl("x", yes), Decl("y", Ref("x")), Decl("x", no), Return(Ref("y"));
    assert !IsScoped("x") && !IsScoped("y") && "x" != "y";
    assert [d, e, f, r][1..] == [e, f, r] && [e, f, r][1..] == [f, r] && [f, r][1..] == [r];
    var b: Bindings := map[]["x" := yes]["y" := Ref("x")]["x" := no];
    assert Lazy(p, no, map[], b, fuel - 2) == Done(Val(p.constant(BoolV(false))));
    assert Lazy(p, Ref("x"), map[], b, fuel - 1) == Done(Val(p.constant(BoolV(false))));
    assert Lazy(p, Ref("y"), map[], b, fuel) == Done(Val(p.constant(BoolV(false))));
    assert Exec(p, [r], map[], b, fuel).0 == Returned(false);
    assert Exec(p, [f, r], map[], map[]["x" := yes]["y" := Ref("x")], fuel).0 == Returned(false);
    assert Exec(p, [e, f, r], map[], map[]["x" := yes], fuel).0 == Returned(false);
    var v := Val(p.constant(BoolV(true)));
    var st: Store<V> := map[]["x" := v]["y" := v]["x" := Val(p.constant(BoolV(false)))];
    assert ExecEager(p, [r], map[], st).0 == Returned(true);
    assert ExecEager(p, [f, r], map[], map[]["x" := v]["y" := v]).0 == Returned(true);
    assert ExecEager(p, [e, f, r], map[], map[]["x" := v]).0 == Returned(true);
  }

  /** An initialiser that mentions its own name is looked up without end, however much fuel there is. */
  lemma {:induction false} SelfReferenceNeverEnds<V(!new)>(p: Prims<V>, fuel: nat)
    ensures var init := Un(Not, Ref("x"));
            Lazy(p, init, map[], map["x" := init], fuel) == Deep
    decreases fuel
  {
    assert !IsScoped("x");
    if fuel > 0 { SelfReferenceNeverEnds(p, fuel - 1); }
  }

  // ----- the competition -----

  datatype Choice = Chosen(index: nat) | NoneCapable | Propagated

  /** The first class whose predicate holds; classes without predicate, or with an unresolved one, are
      passed over, and an exception ends the search. */
  function FirstCapable(ordered: seq<string>, answers: map<string, Answer>): Choice
  {
    if ordered == [] then NoneCapable
    else if ordered[0] in answers && answers[ordered[0]] == Exception then Propagated
    else if ordered[0] in answers && answers[ordered[0]] == Known(true) then Chosen(0)
    else match FirstCapable(ordered[1..], answers)
      case Chosen(k) => Chosen(k + 1)
      case other => other
  }

  function Shifted(c: Choice, n: nat): Choice
  {
    match c
    case Chosen(k) => Chosen(k + n)
    case other => other
  }

  method Choose(ordered: seq<string>, answers: map<string, Answer>) returns (choice: Choice)
    ensures choice == FirstCapable(ordered, answers)
  {
    assert ordered[0..] == ordered;
    for i := 0 to |ordered|
      invariant FirstCapable(ordered, answers) == Shifted(FirstCapable(ordered[i..], answers), i)
    {
      assert ordered[i..][0] == ordered[i] && ordered[i..][1..] == ordered[i + 1..];
      if ordered[i] !in answers { continue; }
      if answers[ordered[i]] == Exception { return Propagated; }
      if answers[ordered[i]] == Known(true) { return Chosen(i); }
    }
    return NoneCapable;
  }

  /** Passed over: without a predicate, or with one that is false or unresolved. */
  predicate PassedOver(answers: map<string, Answer>, name: string)
  {
    name in answers ==> answers[name] in {Known(false), Unresolved}
  }

  predicate AllPassedOver(ordered: seq<string>, answers: map<string, Answer>, k: nat)
  {
    k <= |ordered| && forall i | 0 <= i < k :: PassedOver(answers, ordered[i])
  }

  lemma {:induction false} PassedOverTail(ordered: seq<string>, answers: map<string, Answer>, k: nat)
    requires ordered != [] && k > 0
    ensures AllPassedOver(ordered, answers, k) <==>
            PassedOver(answers, ordered[0]) && AllPassedOver(ordered[1..], answers, k - 1)
  {
    if PassedOver(answers, ordered[0]) && AllPassedOver(ordered[1..], answers, k - 1) {
      forall i | 0 <= i < k ensures PassedOver(answers, ordered[i]) {
        if i > 0 { assert ordered[1..][i - 1] == ordered[i]; }
      }
    }
    if AllPassedOver(ordered, answers, k) {
      forall i | 0 <= i < k - 1 ensures PassedOver(answers, ordered[1..][i]) {
        assert ordered[1..][i] == ordered[i + 1];
      }
    }
  }

  /** A class is chosen if and only if it is capable and all before it are passed over. */
  lemma {:induction false} ChosenIff(ordered: seq<string>, answers: map<string, Answer>, k: nat)
    ensures FirstCapable(ordered, answers) == Chosen(k) <==>
            && k < |ordered| && AllPassedOver(ordered, answers, k)
            && ordered[k] in answers && answers[ordered[k]] == Known(true)
    decreases |ordered|
  {
    if ordered != [] && k > 0 {
      ChosenIff(ordered[1..], answers, k - 1);
      PassedOverTail(ordered, answers, k);
    }
  }

  /** The search ends in an exception if and only if some predicate raises one and all before it are passed over;
      none is chosen if and only if all are passed over. */
  lemma {:induction false} NoneChosenIff(ordered: seq<string>, answers: map<string, Answer>)
    ensures FirstCapable(ordered, answers) == NoneCapable <==> AllPassedOver(ordered, answers, |ordered|)
    ensures FirstCapable(ordered, answers) == Propagated <==>
            exists k: nat :: RaisesAt(ordered, answers, k)
    decreases |ordered|
  {
    if ordered != [] {
      NoneChosenIff(ordered[1..], answers);
      PassedOverTail(ordered, answers, |ordered|);
      RaisesTail(ordered, answers);
    }
  }

  lemma {:induction false} RaisesTail(ordered: seq<string>, answers: map<string, Answer>)
    requires ordered != []
    ensures (exists k: nat :: RaisesAt(ordered, answers, k)) <==>
            || (ordered[0] in answers && answers[ordered[0]] == Exception)
            || (PassedOver(answers, ordered[0]) && exists k: nat :: RaisesAt(ordered[1..], answers, k))
  {
    if k: nat :| RaisesAt(ordered, answers, k) {
      if k > 0 {
        PassedOverTail(ordered, answers, k);
        assert RaisesAt(ordered[1..], answers, k - 1);
      }
    }
    if ordered[0] in answers && answers[ordered[0]] == Exception { assert RaisesAt(ordered, answers, 0); }
    if k: nat :| PassedOver(answers, ordered[0]) && RaisesAt(ordered[1..], answers, k) {
      PassedOverTail(ordered, answers, k + 1);
      assert RaisesAt(ordered, answers, k + 1);
    }
  }

  predicate RaisesAt(ordered: seq<string>, answers: map<string, Answer>, k: nat)
  {
    && k < |ordered| && AllPassedOver(ordered, answers, k)
    && ordered[k] in answers && answers[ordered[k]] == Exception
  }

  /** What `selection_lineage` states of a choice: it is capable, and no class before it is. */
  ghost predicate Lineage(ordered: seq<string>, answers: map<string, Answer>, k: nat)
    requires k < |ordered|
  {
    && (forall i | 0 <= i < k :: ordered[i] in answers && answers[ordered[i]] == Known(false))
    && ordered[k] in answers && answers[ordered[k]] == Known(true)
  }

  /** The lineage of the class chosen is true if and only if every class before it had a predicate that was decided. */
  lemma {:induction false} LineageHoldsIff(ordered: seq<string>, answers: map<string, Answer>, k: nat)
    requires FirstCapable(ordered, answers) == Chosen(k)
    ensures k < |ordered|
    ensures Lineage(ordered, answers, k) <==>
            forall i | 0 <= i < k :: ordered[i] in answers && answers[ordered[i]].Known?
    decreases k
  {
    if k > 0 {
      LineageHoldsIff(ordered[1..], answers, k - 1);
      assert forall i | 0 < i <= k :: ordered[1..][i - 1] == ordered[i];
      if forall i | 0 <= i < k :: ordered[i] in answers && answers[ordered[i]].Known? {
        assert forall i | 0 <= i < k - 1 :: ordered[1..][i] == ordered[i + 1];
        assert ordered[0] in answers && answers[ordered[0]] == Known(false);
        forall i | 0 <= i < k ensures ordered[i] in answers && answers[ordered[i]] == Known(false) {
          if i > 0 { assert ordered[1..][i - 1] == ordered[i]; }
        }
      }
    }
  }
}
