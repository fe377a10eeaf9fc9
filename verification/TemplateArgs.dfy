/** Erasing template arguments before parsing, `_drop_template_arguments` of `cpp_expr.py`. */
module TemplateArgs {
  import opened Wrappers
  import opened ExprIr
  import opened CppExpr
  import opened CppExprRoundTrip
  import opened TemplateLists
  import opened LessThanCount
  import opened Sequences

  predicate IsDigits(s: string)
  {
    s != [] && forall k | 0 <= k < |s| :: '0' <= s[k] <= '9'
  }

  /** Marks no template argument list runs across. */
  predicate Stops(t: Token)
  {
    t in {Op(Semicolon), Op(LBrace), Op(RBrace), Op(AndAnd), Op(OrOr)}
  }

  /** What is left after the `>` that closes `depth` open angle brackets, if it comes before any mark that stops the
      search. */
  function AfterClose(s: seq<Token>, depth: int): Option<seq<Token>>
    decreases |s|
  {
    if s == [] then None
    else if s[0] == Op(Lt) then AfterClose(s[1..], depth + 1)
    else if s[0] == Op(Gt) then
      if depth == 1 then Some(s[1..]) else AfterClose(s[1..], depth - 1)
    else if Stops(s[0]) then None
    else AfterClose(s[1..], depth)
  }

  predicate StartsWith(s: seq<Token>, p: Punct) { s != [] && s[0] == Op(p) }

  /** `name<...>(` */
  predicate Opens(s: seq<Token>)
  {
    && |s| > 1 && s[0].Id? && s[1] == Op(Lt)
    && var after := AfterClose(s[1..], 0);
    after.Some? && StartsWith(after.value, LParen)
  }

  /** The name of the call: a single number between the angle brackets becomes part of it. */
  function Folded(s: seq<Token>, args: seq<Token>): Token
    requires s != [] && s[0].Id?
  {
    if |args| == 1 && IsDigits(TokenText(args[0])) then Id(s[0].name + "<" + TokenText(args[0]) + ">") else s[0]
  }

  lemma {:induction false} AfterCloseIsSuffix(s: seq<Token>, depth: int)
    requires AfterClose(s, depth).Some?
    ensures |AfterClose(s, depth).value| < |s| && AfterClose(s, depth).value == s[|s| - |AfterClose(s, depth).value|..]
    decreases |s|
  {
    if s[0] == Op(Gt) && depth == 1 {
    } else {
      AfterCloseIsSuffix(s[1..], if s[0] == Op(Lt) then depth + 1 else if s[0] == Op(Gt) then depth - 1 else depth);
    }
  }

  lemma {:induction false} OpensLeaves(s: seq<Token>)
    requires Opens(s)
    ensures var after := AfterClose(s[1..], 0).value;
            |after| + 3 <= |s| && after == s[|s| - |after|..]
  {
    AfterCloseIsSuffix(s[1..], 0);
    assert s[1..][1..] == s[2..];
    AfterCloseIsSuffix(s[2..], 1);
  }

  /** The tokens with the template arguments of calls erased. */
  function Drop(s: seq<Token>): (r: seq<Token>)
    decreases |s|
  {
    if s == [] then []
    else if Opens(s) then
      OpensLeaves(s);
      var after := AfterClose(s[1..], 0).value;
      [Folded(s, s[2..|s| - |after| - 1])] + Drop(after)
    else [s[0]] + Drop(s[1..])
  }

  /** A name followed by `<`, where an argument list may start. */
  predicate MayOpen(toks: seq<Token>, i: nat)
  {
    i + 1 < |toks| && toks[i].Id? && toks[i + 1] == Op(Lt)
  }

  lemma {:induction false} Kept(out: seq<Token>, toks: seq<Token>, i: nat)
    requires i < |toks|
    requires MayOpen(toks, i) ==>
               var after := AfterClose(toks[i + 1..], 0); after.None? || !StartsWith(after.value, LParen)
    ensures out + Drop(toks[i..]) == out + [toks[i]] + Drop(toks[i + 1..])
  {
    assert toks[i..][1..] == toks[i + 1..];
    Regroup(out, [toks[i]], Drop(toks[i + 1..]));
  }

  lemma {:induction false} Erased(out: seq<Token>, toks: seq<Token>, i: nat, j: nat)
    requires MayOpen(toks, i) && i + 1 < j < |toks| && At(toks, j + 1, LParen)
    requires AfterClose(toks[i + 1..], 0) == Some(toks[j + 1..])
    ensures out + Drop(toks[i..]) == out + [Folded(toks[i..], toks[i + 2..j])] + Drop(toks[j + 1..])
  {
    var s := toks[i..];
    assert s[1..] == toks[i + 1..];
    assert Opens(s);
    OpensLeaves(s);
    assert s[2..|s| - |toks[j + 1..]| - 1] == toks[i + 2..j];
    Regroup(out, [Folded(s, toks[i + 2..j])], Drop(toks[j + 1..]));
  }

  method DropTemplateArguments(toks: seq<Token>) returns (out: seq<Token>)
    ensures out == Drop(toks)
  {
    out := [];
    var i := 0;
    while i < |toks|
      invariant 0 <= i <= |toks|
      invariant out + Drop(toks[i..]) == Drop(toks)
    {
      ghost var before := out;
      out := out + [toks[i]];
      if !toks[i].Id? || i + 1 >= |toks| || toks[i + 1] != Op(Lt) {
        Kept(before, toks, i);
        i := i + 1;
        continue;
      }
      var j := CloseIndex(toks, i + 1);
      if j < |toks| && j + 1 < |toks| && toks[j + 1] == Op(LParen) {
        var inner := toks[i + 2..j];
        Erased(before, toks, i, j);
        if |inner| == 1 && IsDigits(TokenText(inner[0])) {
          out := out[..|out| - 1] + [Id(toks[i].name + "<" + TokenText(inner[0]) + ">")];
        }
        i := j + 1;
      } else {
        Kept(before, toks, i);
        i := i + 1;
      }
    }
  }

  /** The place of the closing `>`, or the end of the tokens. */
  method CloseIndex(toks: seq<Token>, start: nat) returns (j: nat)
    requires start < |toks| && toks[start] == Op(Lt)
    ensures start < j <= |toks|
    ensures match AfterClose(toks[start..], 0)
            case None => j == |toks|
            case Some(after) => j < |toks| && after == toks[j + 1..]
  {
    var depth := 0;
    j := start;
    while j < |toks|
      invariant start <= j <= |toks| && (j == start || depth >= 1)
      invariant j == start ==> depth == 0
      invariant AfterClose(toks[j..], depth) == AfterClose(toks[start..], 0)
    {
      assert toks[j..][1..] == toks[j + 1..];
      var t := toks[j];
      if t == Op(Lt) {
        depth := depth + 1;
      } else if t == Op(Gt) {
        depth := depth - 1;
        if depth == 0 {
          break;
        }
      } else if Stops(t) {
        j := |toks|;
        break;
      }
      j := j + 1;
    }
  }

  // ----- nothing is left to erase -----

  /** Balanced angle brackets do not matter to the ones around them. */
  lemma {:induction false} AroundBalanced(s: seq<Token>, inner: nat, outer: nat)
    requires inner >= 1 && outer >= 1 && AfterClose(s, inner).Some?
    ensures AfterClose(s, inner + outer) == AfterClose(AfterClose(s, inner).value, outer)
    decreases |s|
  {
    if s[0] == Op(Gt) && inner == 1 {
    } else {
      AroundBalanced(s[1..], if s[0] == Op(Lt) then inner + 1 else if s[0] == Op(Gt) then inner - 1 else inner, outer);
    }
  }

  lemma {:induction false} DropHead(s: seq<Token>, p: Punct)
    ensures StartsWith(Drop(s), p) <==> StartsWith(s, p)
  {
  }

  /** Erasing does not move the closing bracket of what stands around it. */
  lemma {:induction false} DropKeepsClosing(s: seq<Token>, depth: nat)
    requires depth >= 1
    ensures match AfterClose(s, depth)
            case None => AfterClose(Drop(s), depth).None?
            case Some(after) => AfterClose(Drop(s), depth) == Some(Drop(after))
    decreases |s|
  {
    if s == [] {
    } else if Opens(s) {
      AfterCloseIsSuffix(s[1..], 0);
      var after := AfterClose(s[1..], 0).value;
      var rest := s[2..];
      assert s[1..][1..] == rest && AfterClose(rest, 1) == Some(after);
      AroundBalanced(rest, 1, depth);
      assert AfterClose(s, depth) == AfterClose(after, depth);
      DropKeepsClosing(after, depth);
      assert Drop(s)[1..] == Drop(after);
    } else {
      assert Drop(s) == [s[0]] + Drop(s[1..]);
      assert Drop(s)[1..] == Drop(s[1..]);
      var next: int := if s[0] == Op(Lt) then depth + 1 else if s[0] == Op(Gt) then depth - 1 else depth;
      if next >= 1 { DropKeepsClosing(s[1..], next); }
    }
  }

  /** Nothing that stays turns into a call with template arguments. */
  lemma {:induction false} DropOpensNothing(s: seq<Token>)
    requires s != [] && !Opens(s)
    ensures !Opens(Drop(s))
  {
    var d := Drop(s);
    assert d[1..] == Drop(s[1..]);
    if Opens(d) {
      DropHead(s[1..], Lt);
      assert s[1] == Op(Lt);
      var rest := s[1..][1..];
      assert Drop(s[1..]) == [Op(Lt)] + Drop(rest);
      assert d[1..][1..] == Drop(rest);
      DropKeepsClosing(rest, 1);
      assert AfterClose(s[1..], 0) == AfterClose(rest, 1);
      DropHead(AfterClose(rest, 1).value, LParen);
      assert false;
    }
  }

  /** Erasing twice is erasing once. */
  lemma {:induction false} DropIsIdempotent(s: seq<Token>)
    ensures Drop(Drop(s)) == Drop(s)
    decreases |s|
  {
    if s == [] {
    } else if Opens(s) {
      AfterCloseIsSuffix(s[1..], 0);
      var after := AfterClose(s[1..], 0).value;
      DropHead(after, LParen);
      assert Drop(s)[1..] == Drop(after);
      DropIsIdempotent(after);
    } else {
      DropOpensNothing(s);
      assert Drop(s)[1..] == Drop(s[1..]);
      DropIsIdempotent(s[1..]);
    }
  }

  // ----- when nothing is erased -----

  /** Nowhere does a call with template arguments start. */
  predicate NothingOpens(s: seq<Token>)
  {
    s == [] || (!Opens(s) && NothingOpens(s[1..]))
  }

  lemma {:induction false} DropLength(s: seq<Token>)
    ensures |Drop(s)| <= |s|
    decreases |s|
  {
    if s == [] {
    } else if Opens(s) {
      AfterCloseIsSuffix(s[1..], 0);
      DropLength(AfterClose(s[1..], 0).value);
    } else {
      DropLength(s[1..]);
    }
  }

  /** The tokens stay as they are exactly when no call with template arguments starts anywhere. */
  lemma {:induction false} KeptIffNothingOpens(s: seq<Token>)
    ensures Drop(s) == s <==> NothingOpens(s)
    decreases |s|
  {
    if s == [] {
    } else if Opens(s) {
      AfterCloseIsSuffix(s[1..], 0);
      DropLength(AfterClose(s[1..], 0).value);
      assert |Drop(s)| < |s|;
    } else {
      KeptIffNothingOpens(s[1..]);
      assert s == [s[0]] + s[1..] && Drop(s)[1..] == Drop(s[1..]);
    }
  }

  lemma {:induction false} SuffixCount(s: seq<Token>, k: nat)
    requires k <= |s|
    ensures Lts(s[k..]) <= Lts(s)
  {
    assert s == s[..k] + s[k..];
    LtsJoin(s[..k], s[k..]);
  }

  /** Erasing takes a `<` away wherever a call with template arguments starts. */
  lemma {:induction false} DropCount(s: seq<Token>)
    ensures Lts(Drop(s)) <= Lts(s)
    ensures !NothingOpens(s) ==> Lts(Drop(s)) < Lts(s)
    decreases |s|
  {
    if s == [] {
    } else if Opens(s) {
      OpensLeaves(s);
      var after := AfterClose(s[1..], 0).value;
      DropCount(after);
      assert s[1..][1..] == s[2..];
      SuffixCount(s[2..], |s[2..]| - |after|);
      assert after == s[2..][|s[2..]| - |after|..];
      assert Drop(s)[1..] == Drop(after);
    } else {
      DropCount(s[1..]);
      assert Drop(s)[1..] == Drop(s[1..]);
    }
  }

  // ----- lists, by the balance of their brackets -----

  /** `name<...>(` at `i`, with the last `>` at `c`. */
  ghost predicate OpensAt(ts: seq<Token>, i: nat, c: nat)
  {
    && i < |ts| && ts[i].Id? && Balances(ts, i + 1, c) && At(ts, c + 1, LParen)
    && Unbroken(ts, i + 1, c, {Semicolon, LBrace, RBrace, AndAnd, OrOr})
  }

  /** The search stands at `j`, inside what was opened at `i`. */
  ghost predicate Within(ts: seq<Token>, i: nat, j: nat)
  {
    && i <= j <= |ts| && At(ts, i, Lt)
    && (forall k | i < k <= j :: Depth(ts, i, k) > 0) && (forall k | i <= k < j :: !Stops(ts[k]))
  }

  /** Where a search from `j` at the given depth ends. */
  function CloseFrom(ts: seq<Token>, j: nat, depth: int): (r: Option<nat>)
    requires j <= |ts|
    ensures r.Some? ==> j <= r.value < |ts|
    decreases |ts| - j
  {
    if j == |ts| then None
    else if ts[j] == Op(Lt) then CloseFrom(ts, j + 1, depth + 1)
    else if ts[j] == Op(Gt) then (if depth == 1 then Some(j) else CloseFrom(ts, j + 1, depth - 1))
    else if Stops(ts[j]) then None
    else CloseFrom(ts, j + 1, depth)
  }

  lemma {:induction false} AfterCloseFrom(ts: seq<Token>, j: nat, depth: int)
    requires j <= |ts|
    ensures AfterClose(ts[j..], depth) ==
            match CloseFrom(ts, j, depth) case Some(c) => Some(ts[c + 1..]) case None => None
    decreases |ts| - j
  {
    if j < |ts| {
      assert ts[j..][1..] == ts[j + 1..];
      AfterCloseFrom(
        ts, j + 1, if ts[j] == Op(Lt) then depth + 1 else if ts[j] == Op(Gt) then depth - 1 else depth);
    }
  }

  lemma {:induction false} SearchFinds(ts: seq<Token>, i: nat, j: nat)
    requires Within(ts, i, j)
    ensures match CloseFrom(ts, j, Depth(ts, i, j))
            case Some(c) => j <= c && Balances(ts, i, c) && forall k | i <= k < c :: !Stops(ts[k])
            case None => forall c | j <= c && Balances(ts, i, c) :: exists k :: i <= k < c && Stops(ts[k])
    decreases |ts| - j
  {
    if j < |ts| {
      assert Depth(ts, i, j + 1) == Depth(ts, i, j) + Angle(ts[j]);
      assert j == i || Depth(ts, i, j) > 0;
      if ts[j] == Op(Gt) && Depth(ts, i, j) == 1 {
      } else if Stops(ts[j]) {
        forall c | j <= c && Balances(ts, i, c) ensures exists k :: i <= k < c && Stops(ts[k]) {
          assert Depth(ts, i, c + 1) == Depth(ts, i, c) + Angle(ts[c]);
          assert c != j;
        }
      } else {
        SearchFinds(ts, i, j + 1);
      }
    }
  }

  lemma {:induction false} StopsByName(ts: seq<Token>, i: nat, c: nat)
    requires c <= |ts|
    ensures Unbroken(ts, i, c, {Semicolon, LBrace, RBrace, AndAnd, OrOr}) <==> forall k | i <= k < c :: !Stops(ts[k])
  {
  }

  /** A call with template arguments starts exactly where a name is followed by angle brackets that balance across no
      mark that stops the search, and by a parenthesis. */
  lemma {:induction false} OpensIff(ts: seq<Token>, i: nat)
    requires i <= |ts|
    ensures Opens(ts[i..]) <==> exists c: nat :: OpensAt(ts, i, c)
    ensures forall c: nat | OpensAt(ts, i, c) :: AfterClose(ts[i..][1..], 0) == Some(ts[c + 1..])
  {
    var s := ts[i..];
    if |s| > 1 && s[1] == Op(Lt) {
      assert s[1..] == ts[i + 1..];
      SearchFinds(ts, i + 1, i + 1);
      AfterCloseFrom(ts, i + 1, 0);
      var found := CloseFrom(ts, i + 1, 0);
      forall c: nat | OpensAt(ts, i, c) ensures AfterClose(s[1..], 0) == Some(ts[c + 1..]) {
        StopsByName(ts, i + 1, c);
        if found.Some? { ClosesOnce(ts, i + 1, c, found.value); }
      }
      if Opens(s) {
        StopsByName(ts, i + 1, found.value);
        assert OpensAt(ts, i, found.value);
      }
    }
  }

  lemma {:induction false} NothingOpensAt(s: seq<Token>, i: nat)
    requires NothingOpens(s) && i < |s|
    ensures !Opens(s[i..])
    decreases s
  {
    if i > 0 {
      NothingOpensAt(s[1..], i - 1);
      assert s[1..][i - 1..] == s[i..];
    }
  }

  lemma {:induction false} NoListWithoutCall(s: seq<Token>, i: nat, j: nat)
    requires i < |s| && s[i].Id? && j == i + 1 && forall c: nat :: !OpensAt(s, i, c)
    ensures NoListAt(s, j)
  {
    assert forall c: nat :: ListAt(s, j, c) ==> OpensAt(s, i, c);
  }

  /** Where no call with template arguments starts, no list stands behind a name. */
  lemma {:induction false} NothingToSkip(s: seq<Token>)
    requires NothingOpens(s)
    ensures forall i: nat | i < |s| && s[i].Id? :: NoListAt(s, i + 1)
    ensures NoMemberList(s)
  {
    forall i: nat | i < |s| && s[i].Id? ensures NoListAt(s, i + 1) {
      NothingOpensAt(s, i);
      OpensIff(s, i);
      NoListWithoutCall(s, i, i + 1);
    }
    forall i: nat | MemberAt(s, i) ensures NoListAt(s, i + 2) { assert NoListAt(s, (i + 1) + 1); }
  }

  /** After erasing, the parser finds no template argument list to skip behind any name. */
  lemma {:induction false} ErasedTextHasNoLists(s: seq<Token>)
    ensures forall i: nat | i < |Drop(s)| && Drop(s)[i].Id? :: SkipTemplateArgs(Drop(s), i + 1) == i + 1
    ensures NoMemberList(Drop(s))
  {
    var d := Drop(s);
    DropIsIdempotent(s);
    KeptIffNothingOpens(d);
    NothingToSkip(d);
    forall i: nat | i < |d| && d[i].Id? ensures SkipTemplateArgs(d, i + 1) == i + 1 {
      assert NoListAt(d, i + 1);
      SkipIff(d, i + 1);
    }
  }

  /** Where a call with template arguments starts, the name and the arguments make one token, and what is behind the
      last `>` follows: the name itself, or for a single number the name with it. */
  lemma {:induction false} ErasedCall(ts: seq<Token>, c: nat)
    requires OpensAt(ts, 0, c)
    ensures Drop(ts) == [Id(if c == 3 && IsDigits(TokenText(ts[2])) then ts[0].name + "<" + TokenText(ts[2]) + ">"
                            else ts[0].name)] + Drop(ts[c + 1..])
  {
    OpensIff(ts, 0);
    assert ts[0..] == ts;
    OpensLeaves(ts);
    var after := AfterClose(ts[1..], 0).value;
    assert |ts| - |after| - 1 == c;
    assert c == 3 ==> ts[2..c] == [ts[2]];
  }

  /** A token at which none starts stays, and erasing goes on behind it. */
  lemma {:induction false} TokenKept(ts: seq<Token>)
    requires ts != [] && forall c: nat :: !OpensAt(ts, 0, c)
    ensures Drop(ts) == [ts[0]] + Drop(ts[1..])
  {
    OpensIff(ts, 0);
    assert ts[0..] == ts;
  }

  /** A written expression survives erasing before parsing if and only if no name in it is followed by `<`,
      a matching `>` and `(`. */
  lemma {:induction false} TreeSurvivesIff(w: Written)
    requires WellWritten(w)
    ensures ParseTernary(Drop(Tokens(w)), 0).0 == Tree(w) <==> NothingOpens(Tokens(w))
    ensures NothingOpens(Tokens(w)) ==> ParseTernary(Drop(Tokens(w)), 0).1 == |Drop(Tokens(w))|
  {
    if NothingOpens(Tokens(w)) {
      KeptIffNothingOpens(Tokens(w));
      NothingToSkip(Tokens(w));
      ParseInvertsWriting(w);
    } else {
      DropCount(Tokens(w));
      WrittenCount(w);
      ParseMakesNoComparison(Drop(Tokens(w)));
    }
  }

  /** `a < b > (c)` */
  function Comparisons(): Written
  {
    Binary(Gt, Binary(Lt, Leaf(Ref("a")), Leaf(Ref("b"))), Paren(Leaf(Ref("c"))))
  }

  /** Two comparisons are parsed as the call `a(c)`. */
  lemma {:induction false} ComparisonsReadAsCall()
    ensures WellWritten(Comparisons())
    ensures ParseTernary(Drop(Tokens(Comparisons())), 0).0 == Call("a", [Ref("c")]) != Tree(Comparisons())
  {
    var end := [Op(LParen), Id("c"), Op(RParen)];
    ComparisonsAreWritten(end);
    ErasedExample(end);
    CallIsWritten(end);
    NoMemberNoList([Id("a")] + end);
    ParseInvertsWriting(CallOf("a", [Leaf(Ref("c"))]));
  }

  lemma {:induction false} ComparisonsAreWritten(end: seq<Token>)
    requires end == [Op(LParen), Id("c"), Op(RParen)]
    ensures WellWritten(Comparisons()) && Tokens(Comparisons()) == [Id("a"), Op(Lt), Id("b"), Op(Gt)] + end
  {
    SmallNames();
    var less := Binary(Lt, Leaf(Ref("a")), Leaf(Ref("b")));
    assert Tokens(less) == [Id("a"), Op(Lt), Id("b")] && WellWritten(less);
    assert Tokens(Paren(Leaf(Ref("c")))) == end && WellWritten(Paren(Leaf(Ref("c"))));
    assert Tokens(Comparisons()) == Tokens(less) + [Op(Gt)] + end;
  }

  lemma {:induction false} CallIsWritten(end: seq<Token>)
    requires end == [Op(LParen), Id("c"), Op(RParen)]
    ensures var call := CallOf("a", [Leaf(Ref("c"))]);
            WellWritten(call) && Tokens(call) == [Id("a")] + end && Tree(call) == Call("a", [Ref("c")])
  {
    SmallNames();
    var args := [Leaf(Ref("c"))];
    assert ArgTokens(args) == [Id("c")] && Trees(args) == [Ref("c")];
    assert WellWritten(args[0]) && WellWrittenAll(args[1..]);
  }

  lemma {:induction false} SmallNames()
    ensures PlainName("a") && PlainName("b") && PlainName("c") && !IsIntCast("a")
  {
    assert |"a"| == 1 && |"b"| == 1 && |"c"| == 1;
  }

  lemma {:induction false} ErasedExample(end: seq<Token>)
    requires end == [Op(LParen), Id("c"), Op(RParen)]
    ensures Drop([Id("a"), Op(Lt), Id("b"), Op(Gt)] + end) == [Id("a")] + end
  {
    var s := [Id("a"), Op(Lt), Id("b"), Op(Gt)] + end;
    assert s[1..][1..][1..][1..] == end;
    assert AfterClose(s[1..], 0) == AfterClose(s[1..][1..], 1) == AfterClose(s[1..][1..][1..], 1) == Some(end);
    assert s[2..|s| - |end| - 1] == [Id("b")];
    assert TokenText(Id("b"))[0] == 'b';
    assert end[1..] == [Id("c"), Op(RParen)] && end[1..][1..] == [Op(RParen)] && end[1..][1..][1..] == [];
    assert Drop(end[1..][1..]) == [Op(RParen)] + Drop([]);
    assert Drop(end[1..]) == [Id("c")] + Drop(end[1..][1..]);
    assert Drop(end) == [Op(LParen)] + Drop(end[1..]) == end;
  }
}
