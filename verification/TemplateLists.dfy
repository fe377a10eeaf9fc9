/** Where a template argument list stands in a text, told by the balance of its angle brackets. */
module TemplateLists {
  import opened Wrappers
  import opened ExprIr
  import opened CppExpr

  function Angle(t: Token): int
  {
    if t == Op(Lt) then 1 else if t == Op(Gt) then -1 else 0
  }

  /** How many `<` more than `>` stand between two positions. */
  function Depth(ts: seq<Token>, i: nat, k: nat): int
    requires i <= k <= |ts|
  {
    if k == i then 0 else Depth(ts, i, k - 1) + Angle(ts[k - 1])
  }

  /** The `<` at `i` is closed at `c` and no earlier. */
  ghost predicate Balances(ts: seq<Token>, i: nat, c: nat)
  {
    i < c < |ts| && At(ts, i, Lt) && Depth(ts, i, c + 1) == 0 && forall k | i < k <= c :: Depth(ts, i, k) > 0
  }

  /** None of the marks stands between two positions. */
  ghost predicate Unbroken(ts: seq<Token>, i: nat, c: nat, marks: set<Punct>)
  {
    c <= |ts| && forall k | i <= k < c :: ts[k].Op? ==> ts[k].p !in marks
  }

  /** `<...>` from `i` to `c`, with a parenthesis behind it. */
  ghost predicate ListAt(ts: seq<Token>, i: nat, c: nat)
  {
    && Balances(ts, i, c) && At(ts, c + 1, LParen)
    && Unbroken(ts, i, c, {Semicolon, LBrace, RBrace, AndAnd, OrOr, Question, Colon, Comma})
  }

  /** A list closes in one place. */
  lemma {:induction false} ClosesOnce(ts: seq<Token>, i: nat, c: nat, c': nat)
    requires Balances(ts, i, c) && Balances(ts, i, c')
    ensures c == c'
  {
    var here, there := Depth(ts, i, c + 1), Depth(ts, i, c' + 1);
    assert here == 0 == there;
  }

  /** The scan stands at `j`, inside what was opened at `i`. */
  ghost predicate Inside(ts: seq<Token>, i: nat, j: nat)
  {
    && i <= j <= |ts| && At(ts, i, Lt)
    && (forall k | i < k <= j :: Depth(ts, i, k) > 0) && (forall k | i <= k < j :: !EndsTemplateScan(ts[k]))
  }

  lemma {:induction false} ScanFinds(ts: seq<Token>, i: nat, j: nat)
    requires Inside(ts, i, j)
    ensures match TemplateClose(ts, j, Depth(ts, i, j))
            case Some(c) => j <= c && Balances(ts, i, c) && forall k | i <= k < c :: !EndsTemplateScan(ts[k])
            case None => forall c | j <= c && Balances(ts, i, c) :: exists k :: i <= k < c && EndsTemplateScan(ts[k])
    decreases |ts| - j
  {
    if j == |ts| {
    } else {
      assert Depth(ts, i, j + 1) == Depth(ts, i, j) + Angle(ts[j]);
      assert j == i || Depth(ts, i, j) > 0;
      if ts[j] == Op(Gt) && Depth(ts, i, j) == 1 {
      } else if EndsTemplateScan(ts[j]) {
        forall c | j <= c && Balances(ts, i, c) ensures exists k :: i <= k < c && EndsTemplateScan(ts[k]) {
          assert Depth(ts, i, c + 1) == Depth(ts, i, c) + Angle(ts[c]);
          assert c != j;
        }
      } else {
        ScanFinds(ts, i, j + 1);
      }
    }
  }

  /** The marks that end the scan, by name. */
  lemma {:induction false} UnbrokenIff(ts: seq<Token>, i: nat, c: nat)
    requires c <= |ts|
    ensures Unbroken(ts, i, c, {Semicolon, LBrace, RBrace, AndAnd, OrOr, Question, Colon, Comma}) <==>
            forall k | i <= k < c :: !EndsTemplateScan(ts[k])
  {
  }

  /** A list is skipped exactly where one stands, and to its end. */
  lemma {:induction false} SkipIff(ts: seq<Token>, i: nat)
    requires i <= |ts|
    ensures forall c: nat | ListAt(ts, i, c) :: SkipTemplateArgs(ts, i) == c + 1
    ensures SkipTemplateArgs(ts, i) != i ==> ListAt(ts, i, SkipTemplateArgs(ts, i) - 1)
  {
    if At(ts, i, Lt) {
      ScanFinds(ts, i, i);
      forall c: nat | ListAt(ts, i, c) ensures SkipTemplateArgs(ts, i) == c + 1 {
        UnbrokenIff(ts, i, c);
        match TemplateClose(ts, i, 0)
        case Some(c') => ClosesOnce(ts, i, c, c');
        case None =>
      }
      var found := TemplateClose(ts, i, 0);
      if found.Some? { UnbrokenIff(ts, i, found.value); }
    }
  }

  ghost predicate NoListAt(ts: seq<Token>, i: nat) { forall c: nat :: !ListAt(ts, i, c) }

  /** A member name, behind its mark. */
  predicate MemberAt(ts: seq<Token>, i: nat)
  {
    i + 1 < |ts| && ts[i] in {Op(Dot), Op(Arrow)} && ts[i + 1].Id?
  }

  /** No template argument list stands behind a member name. */
  ghost predicate NoMemberList(ts: seq<Token>)
  {
    forall i: nat | MemberAt(ts, i) :: NoListAt(ts, i + 2)
  }

  lemma {:induction false} NoSkip(ts: seq<Token>, i: nat)
    requires MemberAt(ts, i) && NoMemberList(ts)
    ensures SkipTemplateArgs(ts, i + 2) == i + 2
  {
    SkipIff(ts, i + 2);
  }

  // ----- lists in parts of a text -----

  lemma {:induction false} DepthWithin(a: seq<Token>, s: seq<Token>, r: seq<Token>, i: nat, k: nat)
    requires i <= k <= |s|
    ensures Depth(a + s + r, |a| + i, |a| + k) == Depth(s, i, k)
    decreases k
  {
    if k > i {
      DepthWithin(a, s, r, i, k - 1);
      assert (a + s + r)[|a| + k - 1] == s[k - 1];
    }
  }

  lemma {:induction false} BalanceWithin(a: seq<Token>, s: seq<Token>, r: seq<Token>, i: nat, c: nat, m: nat)
    requires i < c && c < |s| && m == |a| + i
    ensures Balances(a + s + r, m, |a| + c) <==> Balances(s, i, c)
  {
    var ts, n := a + s + r, |a|;
    assert ts[m] == s[i];
    DepthWithin(a, s, r, i, c + 1);
    if Balances(s, i, c) {
      forall k | m < k <= n + c ensures Depth(ts, m, k) > 0 { DepthWithin(a, s, r, i, k - n); }
    }
    if Balances(ts, m, n + c) {
      forall k | i < k <= c ensures Depth(s, i, k) > 0 { DepthWithin(a, s, r, i, k); }
    }
  }

  lemma {:induction false} UnbrokenWithin(
    a: seq<Token>, s: seq<Token>, r: seq<Token>, i: nat, c: nat, marks: set<Punct>)
    requires c <= |s|
    ensures Unbroken(a + s + r, |a| + i, |a| + c, marks) <==> Unbroken(s, i, c, marks)
  {
    var ts := a + s + r;
    assert forall k | 0 <= k < |s| :: ts[|a| + k] == s[k];
    assert forall k | |a| <= k < |a| + |s| :: ts[k] == s[k - |a|];
  }

  lemma {:induction false} ListWithin(a: seq<Token>, s: seq<Token>, r: seq<Token>, i: nat, c: nat)
    requires i < c && c + 1 < |s|
    ensures ListAt(a + s + r, |a| + i, |a| + c) <==> ListAt(s, i, c)
  {
    BalanceWithin(a, s, r, i, c, |a| + i);
    UnbrokenWithin(a, s, r, i, c, {Semicolon, LBrace, RBrace, AndAnd, OrOr, Question, Colon, Comma});
    assert (a + s + r)[|a| + c + 1] == s[c + 1];
  }

  lemma {:induction false} NoListWithin(a: seq<Token>, s: seq<Token>, r: seq<Token>)
    requires NoMemberList(a + s + r)
    ensures NoMemberList(s)
  {
    var ts := a + s + r;
    forall i: nat | MemberAt(s, i) ensures NoListAt(s, i + 2) {
      assert ts[|a| + i] == s[i] && ts[|a| + i + 1] == s[i + 1];
      assert MemberAt(ts, |a| + i) && NoListAt(ts, |a| + i + 2);
      var j := i + 2;
      forall c: nat ensures !ListAt(s, j, c) {
        if j < c && c + 1 < |s| { ListWithin(a, s, r, j, c); }
      }
    }
  }

  /** What stands between a part of an expression and whatever follows: no list runs across it. */
  predicate Parts(r: seq<Token>)
  {
    r == [Op(RParen)] || (r != [] && r[0] in {Op(AndAnd), Op(OrOr)})
  }

  lemma {:induction false} EndsWithAngle(ts: seq<Token>, i: nat, c: nat)
    requires Balances(ts, i, c)
    ensures ts[c] == Op(Gt)
  {
    assert Depth(ts, i, c + 1) == Depth(ts, i, c) + Angle(ts[c]);
  }

  lemma {:induction false} ListEndsBefore(s: seq<Token>, r: seq<Token>, i: nat, c: nat)
    requires Parts(r) && i <= |s| && ListAt(s + r, i, c)
    ensures c + 1 < |s|
  {
    var ts := s + r;
    EndsWithAngle(ts, i, c);
    assert ts[|s|] == r[0];
  }

  /** Parts without such lists have none together. */
  lemma {:induction false} NoListJoin(s: seq<Token>, r: seq<Token>)
    requires NoMemberList(s) && NoMemberList(r) && Parts(r)
    ensures NoMemberList(s + r)
  {
    var ts := s + r;
    forall i: nat | MemberAt(ts, i) ensures NoListAt(ts, i + 2) {
      assert ts[|s|] == r[0] && !r[0].Id?;
      assert i + 1 != |s|;
      if i + 1 < |s| { NoListBefore(s, r, i); } else { NoListBehind(s, r, i - |s|); }
    }
  }

  lemma {:induction false} NoListBefore(s: seq<Token>, r: seq<Token>, i: nat)
    requires NoMemberList(s) && Parts(r) && MemberAt(s + r, i) && i + 1 < |s|
    ensures NoListAt(s + r, i + 2)
  {
    var j := i + 2;
    assert MemberAt(s, i) && [] + s + r == s + r;
    forall c: nat ensures !ListAt(s + r, j, c) {
      if ListAt(s + r, j, c) {
        ListEndsBefore(s, r, j, c);
        ListWithin([], s, r, j, c);
      }
    }
  }

  lemma {:induction false} NoListBehind(s: seq<Token>, r: seq<Token>, i: nat)
    requires NoMemberList(r) && MemberAt(s + r, |s| + i)
    ensures NoListAt(s + r, |s| + i + 2)
  {
    var j, ts, m := i + 2, s + r, |s| + i + 2;
    assert ts[|s| + i] == r[i] && ts[|s| + i + 1] == r[i + 1];
    assert MemberAt(r, i) && s + r + [] == ts;
    forall c: nat ensures !ListAt(ts, m, c) {
      if m < c < |ts| - 1 { ListWithin(s, r, [], j, c - |s|); }
    }
  }

  lemma {:induction false} NoListBehindOne(t: Token, s: seq<Token>)
    requires NoMemberList(s) && t !in {Op(Dot), Op(Arrow)}
    ensures NoMemberList([t] + s)
  {
    var ts := [t] + s;
    forall i: nat | MemberAt(ts, i) ensures NoListAt(ts, i + 2) {
      assert ts[0] == t;
      NoListBehind([t], s, i - 1);
    }
  }

  lemma {:induction false} NoMemberNoList(ts: seq<Token>)
    requires Op(Dot) !in ts && Op(Arrow) !in ts
    ensures NoMemberList(ts)
  {
  }
}
