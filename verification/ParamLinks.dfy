/** What is reported for an argument, told from the tables: who calls, what is defined there, and what is passed on. */
module ParamLinks {
  import opened Sequences
  import opened ParamBindings

  // ----- one step, from the tables -----

  /** Among the locals of the caller the name is defined as this text, which is another one. */
  ghost predicate DefinedAs(p: Program, c: string, name: string, text: string)
  {
    c in p.locals && name in p.locals[c] && p.locals[c][name] == text && text != "" && text != name
  }

  /** The caller is itself called with this text for a parameter of that name. */
  ghost predicate IsPassed(p: Program, c: string, name: string, text: string)
  {
    c in p.raw && name in p.raw[c] && text in p.raw[c][name]
  }

  /** A caller has a text for what is looked up: its own definition, or what it is passed, which counts for another
      name than the formal only if it is a parameter of the caller. */
  ghost predicate Supplies(p: Program, k: Key, c: string, text: string)
  {
    && k.callee in p.callers && c in p.callers[k.callee]
    && (k.actual == k.pname || IsIdentifier(k.actual))
    && (|| DefinedAs(p, c, k.actual, text)
        || (IsPassed(p, c, k.actual, text) && (k.actual == k.pname || (c in p.params && k.actual in p.params[c]))))
  }

  /** Where a text of a caller is looked up. */
  function LinkTo(k: Key, c: string, text: string): Key { Key(c, k.actual, Norm(text)) }

  lemma {:induction false} ThroughIff(p: Program, k: Key, c: string, n: Key)
    ensures n in Through(p, k, c) <==>
            exists text :: text in LocalOf(p, c, k.actual) + PassedOf(p, c, k.actual, k.actual == k.pname)
                           && n == LinkTo(k, c, text)
  {
    var next := LocalOf(p, c, k.actual) + PassedOf(p, c, k.actual, k.actual == k.pname);
    if n in Through(p, k, c) {
      var i :| 0 <= i < |next| && n == Key(c, k.actual, Norm(next[i]));
      assert next[i] in next;
    }
    if text :| text in next && n == LinkTo(k, c, text) {
      var i :| 0 <= i < |next| && next[i] == text;
      assert Through(p, k, c)[i] == n;
    }
  }

  lemma {:induction false} ThroughAllIff(p: Program, k: Key, callers: seq<string>, n: Key)
    ensures n in ThroughAll(p, k, callers) <==> exists c :: c in callers && n in Through(p, k, c)
    decreases callers
  {
    if callers != [] {
      ThroughAllIff(p, k, callers[1..], n);
      HeadTail(callers);
    }
  }

  lemma {:induction false} SuppliesIff(p: Program, k: Key, c: string, text: string)
    requires k.callee in p.callers && c in p.callers[k.callee] && (k.actual == k.pname || IsIdentifier(k.actual))
    ensures Supplies(p, k, c, text) <==>
            text in LocalOf(p, c, k.actual) + PassedOf(p, c, k.actual, k.actual == k.pname)
  {
  }

  /** A triple leads to exactly the texts its callers have for it. */
  lemma {:induction false} NextIff(p: Program, k: Key, n: Key)
    ensures n in Next(p, k) <==> exists c, text :: Supplies(p, k, c, text) && n == LinkTo(k, c, text)
  {
    if k.actual == k.pname || IsIdentifier(k.actual) {
      ThroughAllIff(p, k, CallersOf(p, k.callee), n);
      if n in Next(p, k) {
        var c :| c in CallersOf(p, k.callee) && n in Through(p, k, c);
        ThroughIff(p, k, c, n);
        var text :| text in LocalOf(p, c, k.actual) + PassedOf(p, c, k.actual, k.actual == k.pname)
                    && n == LinkTo(k, c, text);
        SuppliesIff(p, k, c, text);
      }
      if c, text :| Supplies(p, k, c, text) && n == LinkTo(k, c, text) {
        SuppliesIff(p, k, c, text);
        ThroughIff(p, k, c, n);
      }
    }
  }

  // ----- in which order -----

  /** The program when only these call the function. */
  function CalledBy(p: Program, f: string, callers: seq<string>): Program
  {
    p.(callers := p.callers[f := callers])
  }

  lemma {:induction false} ThroughAllJoin(p: Program, k: Key, a: seq<string>, b: seq<string>)
    ensures ThroughAll(p, k, a + b) == ThroughAll(p, k, a) + ThroughAll(p, k, b)
    decreases a
  {
    if a == [] {
      NothingInFront(b);
      NothingInFront(ThroughAll(p, k, b));
    } else {
      assert (a + b)[0] == a[0] && (a + b)[1..] == a[1..] + b;
      ThroughAllJoin(p, k, a[1..], b);
      Regroup(Through(p, k, a[0]), ThroughAll(p, k, a[1..]), ThroughAll(p, k, b));
    }
  }

  lemma {:induction false} SameLinks(p: Program, q: Program, k: Key, callers: seq<string>)
    requires q.locals == p.locals && q.raw == p.raw && q.params == p.params
    ensures ThroughAll(q, k, callers) == ThroughAll(p, k, callers)
    decreases callers
  {
    if callers != [] { SameLinks(p, q, k, callers[1..]); }
  }

  /** What earlier callers have comes before what later ones have. */
  lemma {:induction false} CallersInOrder(p: Program, k: Key, a: seq<string>, b: seq<string>)
    requires k.callee in p.callers && p.callers[k.callee] == a + b
    ensures Next(p, k) == Next(CalledBy(p, k.callee, a), k) + Next(CalledBy(p, k.callee, b), k)
  {
    ThroughAllJoin(p, k, a, b);
    SameLinks(p, CalledBy(p, k.callee, a), k, a);
    SameLinks(p, CalledBy(p, k.callee, b), k, b);
  }

  /** What a single caller defines comes before what it is passed, and that in the order of the table. */
  lemma {:induction false} DefinitionFirst(p: Program, k: Key, c: string, i: nat)
    requires k.callee in p.callers && p.callers[k.callee] == [c]
    requires k.actual == k.pname || (IsIdentifier(k.actual) && c in p.params && k.actual in p.params[c])
    requires c in p.raw && k.actual in p.raw[c] && i < |p.raw[c][k.actual]|
    ensures var links, passed := Next(p, k), LinkTo(k, c, p.raw[c][k.actual][i]);
            if exists text :: DefinedAs(p, c, k.actual, text) then
              && |links| == |p.raw[c][k.actual]| + 1 && links[i + 1] == passed
              && links[0] == LinkTo(k, c, p.locals[c][k.actual])
            else |links| == |p.raw[c][k.actual]| && links[i] == passed
  {
    OneCaller(p, k, c);
    DefinedIff(p, c, k.actual);
  }

  lemma {:induction false} OneCaller(p: Program, k: Key, c: string)
    requires k.callee in p.callers && p.callers[k.callee] == [c]
    requires k.actual == k.pname || IsIdentifier(k.actual)
    ensures Next(p, k) == Through(p, k, c)
  {
    assert [c][1..] == [];
    assert ThroughAll(p, k, [c]) == Through(p, k, c) + ThroughAll(p, k, []);
  }

  lemma {:induction false} DefinedIff(p: Program, c: string, name: string)
    ensures (exists text :: DefinedAs(p, c, name, text)) <==> LocalOf(p, c, name) != []
    ensures LocalOf(p, c, name) != [] ==>
              c in p.locals && name in p.locals[c] && LocalOf(p, c, name) == [p.locals[c][name]]
  {
    if LocalOf(p, c, name) != [] { assert DefinedAs(p, c, name, p.locals[c][name]); }
  }

  // ----- what the plain recursion reports -----

  lemma {:induction false} RankedLink(p: Program, rank: map<Key, nat>, k: Key, c: string, text: string)
    requires Ranked(p, rank) && k in rank && Supplies(p, k, c, text)
    ensures LinkTo(k, c, text) in Next(p, k) && LinkTo(k, c, text) in rank
  {
    NextIff(p, k, LinkTo(k, c, text));
  }

  /** Some caller's text, looked up there, reports it. */
  ghost predicate SomeCallerReports(p: Program, rank: map<Key, nat>, k: Key, x: string)
    requires Ranked(p, rank) && k in rank
  {
    exists c, text :: Supplies(p, k, c, text) && Reports(p, rank, LinkTo(k, c, text), x)
  }

  ghost predicate Reports(p: Program, rank: map<Key, nat>, k: Key, x: string)
    requires Ranked(p, rank)
  {
    k in rank && x in Plain(p, rank, k)
  }

  lemma {:induction false} PlainAllIff(p: Program, rank: map<Key, nat>, k: Key, ks: seq<Key>, x: string)
    requires Ranked(p, rank) && k in rank && forall n | n in ks :: n in Next(p, k)
    ensures x in PlainAll(p, rank, k, ks) <==> exists n :: n in ks && Reports(p, rank, n, x)
    decreases ks
  {
    if ks != [] {
      var last := ks[|ks| - 1];
      assert last in ks && ks == ks[..|ks| - 1] + [last];
      PlainAllIff(p, rank, k, ks[..|ks| - 1], x);
    }
  }

  lemma {:induction false} CallersReportIff(p: Program, rank: map<Key, nat>, k: Key, x: string)
    requires Ranked(p, rank) && k in rank
    ensures x in PlainAll(p, rank, k, Next(p, k)) <==> SomeCallerReports(p, rank, k, x)
  {
    PlainAllIff(p, rank, k, Next(p, k), x);
    if n :| n in Next(p, k) && Reports(p, rank, n, x) {
      NextIff(p, k, n);
    }
    if c, text :| Supplies(p, k, c, text) && Reports(p, rank, LinkTo(k, c, text), x) {
      RankedLink(p, rank, k, c, text);
    }
  }

  /** A text is reported if and only if some caller's text reports it; or it is what is looked up, other than the
      formal,
      and no caller's text reports anything. */
  lemma {:induction false} ReportedIff(p: Program, rank: map<Key, nat>, k: Key, x: string)
    requires Ranked(p, rank) && k in rank && k.actual != ""
    ensures x in Plain(p, rank, k) <==>
            || SomeCallerReports(p, rank, k, x)
            || (x == k.actual != k.pname && forall y :: !SomeCallerReports(p, rank, k, y))
  {
    var out := PlainAll(p, rank, k, Next(p, k));
    DistinctKeepsElements(out);
    forall y ensures y in out <==> SomeCallerReports(p, rank, k, y) { CallersReportIff(p, rank, k, y); }
    if out != [] { assert out[0] in out; }
  }

  /** Text that is no identifier stands for itself. */
  lemma {:induction false} ExpressionsStand(p: Program, rank: map<Key, nat>, k: Key)
    requires Ranked(p, rank) && k in rank && k.actual != "" && k.actual != k.pname && !IsIdentifier(k.actual)
    ensures Plain(p, rank, k) == [k.actual]
  {
  }

  /** With or without cycles: a text is derived if and only if it is what is looked up, other than the formal, or is
      derived from some caller's text. */
  lemma {:induction false} DerivedIff(p: Program, k: Key, x: string)
    ensures Derived(p, k, x) <==>
            || (x == k.actual && x != k.pname && x != "")
            || exists c, text :: Supplies(p, k, c, text) && Derived(p, LinkTo(k, c, text), x)
  {
    if Derived(p, k, x) {
      var ks: seq<Key> :| Chain(p, ks) && ks[0] == k && ks[|ks| - 1].actual == x && x != ks[|ks| - 1].pname && x != "";
      if |ks| > 1 {
        NextIff(p, k, ks[1]);
        ChainTail(p, ks);
        assert Derived(p, ks[1], x) by { assert ks[1..][0] == ks[1] && ks[1..][|ks| - 2] == ks[|ks| - 1]; }
      }
    }
    if x == k.actual && x != k.pname && x != "" { DerivedSelf(p, k); }
    if c, text :| Supplies(p, k, c, text) && Derived(p, LinkTo(k, c, text), x) {
      NextIff(p, k, LinkTo(k, c, text));
      DerivedStep(p, k, LinkTo(k, c, text), x);
    }
  }

  lemma {:induction false} ChainTail(p: Program, ks: seq<Key>)
    requires Chain(p, ks) && |ks| > 1
    ensures Chain(p, ks[1..])
  {
    var rest := ks[1..];
    forall i | 0 < i < |rest| ensures rest[i] in Next(p, rest[i - 1]) {
      assert rest[i] == ks[i + 1] && rest[i - 1] == ks[i];
    }
  }

  // ----- what is reported for a parameter -----

  /** Some argument's expansion reports it, and it is not the parameter's own name. */
  ghost predicate SomeArgumentReports(
    p: Program, rank: map<Key, nat>, f: string, pname: string, actuals: seq<string>, x: string)
    requires Ranked(p, rank)
  {
    x != "" && x != pname && exists a :: a in actuals && Reports(p, rank, Key(f, pname, Norm(a)), x)
  }

  lemma {:induction false} PlainForIff(
    p: Program, rank: map<Key, nat>, f: string, pname: string, actuals: seq<string>, x: string)
    requires Ranked(p, rank) && forall a | a in actuals :: Key(f, pname, Norm(a)) in rank
    ensures x in PlainFor(p, rank, f, pname, actuals) <==>
            exists a :: a in actuals && Reports(p, rank, Key(f, pname, Norm(a)), x)
    decreases actuals
  {
    if actuals != [] {
      var last := actuals[|actuals| - 1];
      assert last in actuals && actuals == actuals[..|actuals| - 1] + [last];
      PlainForIff(p, rank, f, pname, actuals[..|actuals| - 1], x);
    }
  }

  /** A parameter is reported as exactly what its arguments' expansions report, its own name left out; if that is
      nothing, as its arguments. */
  lemma {:induction false} ParameterReportedIff(
    p: Program, rank: map<Key, nat>, f: string, pname: string, actuals: seq<string>, x: string)
    requires Ranked(p, rank) && forall a | a in actuals :: Key(f, pname, Norm(a)) in rank
    ensures x in Settled(PlainFor(p, rank, f, pname, actuals), pname, actuals) <==>
            || SomeArgumentReports(p, rank, f, pname, actuals, x)
            || (x in actuals && forall y :: !SomeArgumentReports(p, rank, f, pname, actuals, y))
  {
    var expanded := PlainFor(p, rank, f, pname, actuals);
    var kept := Without(expanded, pname);
    WithoutKeeps(expanded, pname);
    DistinctKeepsElements(kept);
    forall y ensures y in kept <==> SomeArgumentReports(p, rank, f, pname, actuals, y) {
      PlainForIff(p, rank, f, pname, actuals, y);
    }
    if kept != [] { assert kept[0] in kept; }
  }

  // ----- what an argument is stripped to -----

  ghost predicate AllAmps(s: string) { forall c | c in s :: c == '&' }

  ghost predicate AllSpaces(s: string) { forall c | c in s :: c in " \t\n\r" }

  /** The stripped text `r` of `s`: all leading ampersands go, then all spaces at either end. */
  ghost predicate Stripped(s: string, r: string, amps: string, left: string, right: string)
  {
    && s == amps + (left + r + right) && AllAmps(amps) && AllSpaces(left) && AllSpaces(right)
    && (left + r + right != "" ==> (left + r + right)[0] != '&')
    && (r != "" ==> r[0] !in " \t\n\r" && r[|r| - 1] !in " \t\n\r")
  }

  lemma {:induction false} AmpsDropped(s: string) returns (amps: string)
    ensures s == amps + DropAmps(s) && AllAmps(amps) && (DropAmps(s) != "" ==> DropAmps(s)[0] != '&')
    decreases s
  {
    amps := [];
    if s != "" && s[0] == '&' {
      var rest := AmpsDropped(s[1..]);
      amps := "&" + rest;
      HeadTail(s);
      Regroup("&", rest, DropAmps(s));
    } else {
      NothingInFront(s);
    }
  }

  lemma {:induction false} LeftDropped(s: string) returns (left: string)
    ensures s == left + DropSpacesLeft(s) && AllSpaces(left)
    ensures DropSpacesLeft(s) != "" ==> DropSpacesLeft(s)[0] !in " \t\n\r"
    decreases s
  {
    left := [];
    if s != "" && IsSpace(s[0]) {
      var rest := LeftDropped(s[1..]);
      left := [s[0]] + rest;
      HeadTail(s);
      Regroup([s[0]], rest, DropSpacesLeft(s));
    } else {
      NothingInFront(s);
    }
  }

  lemma {:induction false} RightDropped(s: string) returns (right: string)
    ensures s == DropSpacesRight(s) + right && AllSpaces(right)
    ensures DropSpacesRight(s) != "" ==> DropSpacesRight(s)[0] == s[0]
    ensures DropSpacesRight(s) != "" ==> DropSpacesRight(s)[|DropSpacesRight(s)| - 1] !in " \t\n\r"
    decreases s
  {
    right := [];
    if s != "" && IsSpace(s[|s| - 1]) {
      var n := |s| - 1;
      var rest := RightDropped(s[..n]);
      right := rest + [s[n]];
      Regroup(DropSpacesRight(s), rest, [s[n]]);
    }
  }

  /** An argument is looked up without its leading ampersands and without the spaces around what is left. */
  lemma {:induction false} NormStrips(s: string) returns (amps: string, left: string, right: string)
    ensures Stripped(s, Norm(s), amps, left, right)
  {
    amps := AmpsDropped(s);
    var t := DropAmps(s);
    left := LeftDropped(t);
    right := RightDropped(DropSpacesLeft(t));
    Regroup(left, Norm(s), right);
  }
}
