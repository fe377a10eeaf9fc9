/** What the bracket scans of `cpp_lex.py` see of a text with quotes, and when they are inverse on it. */
module QuotedBrackets {
  import opened CppLex

  /** What a scan remembers: the quote it is inside of, or a blank, and whether the last character escapes the next. */
  datatype Mark = Mark(quote: char, escape: bool)

  const OUTSIDE: Mark := Mark(' ', false)

  function Next(m: Mark, ch: char): Mark
  {
    if m.quote == ' ' then Mark(if IsQuote(ch) then ch else ' ', m.escape)
    else if m.escape then Mark(m.quote, false)
    else if ch == '\\' then Mark(m.quote, true)
    else Mark(if ch == m.quote then ' ' else m.quote, false)
  }

  /** After reading forwards from `o` up to `i`. */
  function Reading(t: seq<char>, o: nat, i: nat): Mark
    requires o <= i <= |t|
    decreases i
  {
    if i == o then OUTSIDE else Next(Reading(t, o, i - 1), t[i - 1])
  }

  /** After reading backwards from `end` down to `i`. */
  function ReadingBack(t: seq<char>, i: nat, end: nat): Mark
    requires i <= end <= |t|
    decreases end - i
  {
    if i == end then OUTSIDE else Next(ReadingBack(t, i + 1, end), t[i])
  }

  /** Quotes and what stands inside them are as good as blank. */
  function Shown(m: Mark, ch: char): char { if m.quote != ' ' || IsQuote(ch) then ' ' else ch }

  /** The text as the forward scan from `o` sees it. */
  function Seen(t: seq<char>, o: nat): (u: seq<char>)
    requires o <= |t|
    ensures |u| == |t| && QuoteFree(u)
  {
    seq(|t|, k requires 0 <= k < |t| => if k < o then ' ' else Shown(Reading(t, o, k), t[k]))
  }

  /** The text as the backward scan from `end` sees it. */
  function SeenBack(t: seq<char>, end: nat): (u: seq<char>)
    requires end <= |t|
    ensures |u| == |t| && QuoteFree(u)
  {
    seq(|t|, k requires 0 <= k < |t| => if k >= end then ' ' else Shown(ReadingBack(t, k + 1, end), t[k]))
  }

  predicate Brackets(open: char, close: char)
  {
    open != close && !IsQuote(open) && !IsQuote(close) && open != ' ' && close != ' '
  }

  lemma {:induction false} NothingEscapedOutside(t: seq<char>, o: nat, i: nat)
    requires o <= i <= |t|
    ensures Reading(t, o, i).quote == ' ' ==> !Reading(t, o, i).escape
    decreases i
  {
    if i > o { NothingEscapedOutside(t, o, i - 1); }
  }

  lemma {:induction false} NothingEscapedOutsideBack(t: seq<char>, i: nat, end: nat)
    requires i <= end <= |t|
    ensures ReadingBack(t, i, end).quote == ' ' ==> !ReadingBack(t, i, end).escape
    decreases end - i
  {
    if i < end { NothingEscapedOutsideBack(t, i + 1, end); }
  }

  lemma {:induction false} ForwardSees(t: seq<char>, open: char, close: char, o: nat, i: nat, depth: int)
    requires o <= i <= |t| && Brackets(open, close)
    ensures var m := Reading(t, o, i);
            Forward(t, open, close, i, depth, m.quote, m.escape) ==
                Forward(Seen(t, o), open, close, i, depth, ' ', false)
    decreases |t| - i
  {
    if i < |t| {
      NothingEscapedOutside(t, o, i);
      var ch := Seen(t, o)[i];
      assert ch == Shown(Reading(t, o, i), t[i]);
      assert Reading(t, o, i + 1) == Next(Reading(t, o, i), t[i]);
      var depth' := if ch == open then depth + 1 else if ch == close then depth - 1 else depth;
      ForwardSees(t, open, close, o, i + 1, depth');
    }
  }

  lemma {:induction false} BackwardSees(t: seq<char>, open: char, close: char, n: nat, end: nat, depth: int)
    requires n <= end <= |t| && Brackets(open, close)
    ensures var m := ReadingBack(t, n, end);
            Backward(t, open, close, n, depth, m.quote, m.escape)
            == Backward(SeenBack(t, end), open, close, n, depth, ' ', false)
    decreases n
  {
    if n > 0 {
      NothingEscapedOutsideBack(t, n, end);
      var ch := SeenBack(t, end)[n - 1];
      assert ch == Shown(ReadingBack(t, n, end), t[n - 1]);
      assert ReadingBack(t, n - 1, end) == Next(ReadingBack(t, n, end), t[n - 1]);
      var depth' := if ch == close then depth + 1 else if ch == open then depth - 1 else depth;
      BackwardSees(t, open, close, n - 1, end, depth');
    }
  }

  // ----- what each scan finds, on every text -----

  /** The forward scan reports exactly the close that matches in the text as it sees it. */
  lemma {:induction false} ForwardFindsMatch(t: seq<char>, open: char, close: char, o: nat, c: nat)
    requires Brackets(open, close) && o <= c < |t| && t[o] == open
    ensures Forward(t, open, close, o, 0, ' ', false) == c <==> Matched(Seen(t, o), open, close, o, c)
  {
    ForwardSees(t, open, close, o, o, 0);
    assert Seen(t, o)[o] == open;
    ForwardIsMatch(Seen(t, o), open, close, o, c);
  }

  /** The backward scan reports exactly the open that matches in the text as it sees it. */
  lemma {:induction false} BackwardFindsMatch(t: seq<char>, open: char, close: char, o: nat, c: nat)
    requires Brackets(open, close) && o <= c < |t| && t[c] == close
    ensures Backward(t, open, close, c + 1, 0, ' ', false) == o <==> Matched(SeenBack(t, c + 1), open, close, o, c)
  {
    BackwardSees(t, open, close, c + 1, c + 1, 0);
    assert SeenBack(t, c + 1)[c] == close;
    BackwardIsMatch(SeenBack(t, c + 1), open, close, o, c);
  }

  /** Between `o` and `c` both scans see the same. */
  ghost predicate SeenAlike(t: seq<char>, o: nat, c: nat)
    requires o <= c < |t|
  {
    forall k | o <= k <= c :: Seen(t, o)[k] == SeenBack(t, c + 1)[k]
  }

  lemma {:induction false} SameBalance(u: seq<char>, v: seq<char>, open: char, close: char, i: nat, j: nat)
    requires i <= j <= |u| == |v| && forall k | i <= k < j :: u[k] == v[k]
    ensures Balance(u, open, close, i, j) == Balance(v, open, close, i, j)
    decreases j
  {
    if i < j { SameBalance(u, v, open, close, i, j - 1); }
  }

  lemma {:induction false} SameMatch(u: seq<char>, v: seq<char>, open: char, close: char, o: nat, c: nat)
    requires o <= c < |u| == |v| && forall k | o <= k <= c :: u[k] == v[k]
    ensures Matched(u, open, close, o, c) <==> Matched(v, open, close, o, c)
  {
    forall j | o <= j <= c + 1 ensures Balance(u, open, close, o, j) == Balance(v, open, close, o, j) {
      SameBalance(u, v, open, close, o, j);
    }
  }

  /** Where both scans see the same, each finds the other's start, or neither does. */
  lemma {:induction false} ScansAgreeWhereSeenAlike(t: seq<char>, open: char, close: char, o: nat, c: nat)
    requires Brackets(open, close) && o <= c < |t| && t[o] == open && t[c] == close && SeenAlike(t, o, c)
    ensures Forward(t, open, close, o, 0, ' ', false) == c <==> Backward(t, open, close, c + 1, 0, ' ', false) == o
  {
    ForwardFindsMatch(t, open, close, o, c);
    BackwardFindsMatch(t, open, close, o, c);
    SameMatch(Seen(t, o), SeenBack(t, c + 1), open, close, o, c);
  }

  // ----- one kind of quote and no backslash -----

  ghost predicate OneKind(t: seq<char>, q: char)
  {
    IsQuote(q) && forall k | 0 <= k < |t| :: t[k] == q || (!IsQuote(t[k]) && t[k] != '\\')
  }

  /** An odd number of quotes stands from `i` up to `j`. */
  predicate Odd(t: seq<char>, q: char, i: nat, j: nat)
    requires i <= j <= |t|
    decreases j - i
  {
    i < j && Odd(t, q, i, j - 1) != (t[j - 1] == q)
  }

  lemma {:induction false} OddSplit(t: seq<char>, q: char, i: nat, k: nat, j: nat)
    requires i <= k < j <= |t|
    ensures Odd(t, q, i, j) == (Odd(t, q, i, k) != ((t[k] == q) != Odd(t, q, k + 1, j)))
    decreases j
  {
    if k + 1 < j { OddSplit(t, q, i, k, j - 1); }
  }

  lemma {:induction false} ReadingCounts(t: seq<char>, q: char, o: nat, i: nat)
    requires OneKind(t, q) && o <= i <= |t|
    ensures Reading(t, o, i) == if Odd(t, q, o, i) then Mark(q, false) else OUTSIDE
    decreases i
  {
    if o < i { ReadingCounts(t, q, o, i - 1); }
  }

  lemma {:induction false} ReadingBackCounts(t: seq<char>, q: char, i: nat, end: nat)
    requires OneKind(t, q) && i <= end <= |t|
    ensures ReadingBack(t, i, end) == if Odd(t, q, i, end) then Mark(q, false) else OUTSIDE
    decreases end - i
  {
    if i < end {
      ReadingBackCounts(t, q, i + 1, end);
      OddSplit(t, q, i, i, end);
    }
  }

  /** Where it stands behind an even number of quotes, a character is seen. */
  lemma {:induction false} SeenAt(t: seq<char>, q: char, o: nat, k: nat)
    requires OneKind(t, q) && o <= k < |t|
    ensures Seen(t, o)[k] == if t[k] == q || Odd(t, q, o, k) then ' ' else t[k]
  {
    ReadingCounts(t, q, o, k);
    assert Seen(t, o)[k] == Shown(Reading(t, o, k), t[k]);
  }

  lemma {:induction false} SeenBackAt(t: seq<char>, q: char, k: nat, end: nat)
    requires OneKind(t, q) && k < end <= |t|
    ensures SeenBack(t, end)[k] == if t[k] == q || Odd(t, q, k + 1, end) then ' ' else t[k]
  {
    ReadingBackCounts(t, q, k + 1, end);
    assert SeenBack(t, end)[k] == Shown(ReadingBack(t, k + 1, end), t[k]);
  }

  lemma {:induction false} PairedQuotesAreSeenAlike(t: seq<char>, q: char, o: nat, c: nat)
    requires OneKind(t, q) && o <= c < |t| && !Odd(t, q, o, c + 1)
    ensures SeenAlike(t, o, c)
  {
    forall k | o <= k <= c ensures Seen(t, o)[k] == SeenBack(t, c + 1)[k] {
      SeenAlikeAt(t, q, o, k, c + 1);
    }
  }

  lemma {:induction false} SeenAlikeAt(t: seq<char>, q: char, o: nat, k: nat, end: nat)
    requires OneKind(t, q) && o <= k < end <= |t| && !Odd(t, q, o, end)
    ensures Seen(t, o)[k] == SeenBack(t, end)[k]
  {
    SeenAt(t, q, o, k);
    SeenBackAt(t, q, k, end);
    OddSplit(t, q, o, k, end);
  }

  /** The close of a match is seen, and so is its open. */
  lemma {:induction false} MatchIsSeen(u: seq<char>, open: char, close: char, o: nat, c: nat)
    requires open != close && o < c < |u| && Matched(u, open, close, o, c)
    ensures u[o] == open && u[c] == close
  {
    assert Balance(u, open, close, o, c) > 0 && Balance(u, open, close, o, o + 1) > 0;
    assert Balance(u, open, close, o, o) == 0;
  }

  /** With one kind of quote and no backslash the scans are inverse, however the quotes stand. */
  lemma {:induction false} ScansAreInverseWithOneKind(t: seq<char>, q: char, open: char, close: char, o: nat, c: nat)
    requires Brackets(open, close) && OneKind(t, q) && o <= c < |t| && t[o] == open && t[c] == close
    ensures Forward(t, open, close, o, 0, ' ', false) == c <==> Backward(t, open, close, c + 1, 0, ' ', false) == o
  {
    if !Odd(t, q, o, c + 1) {
      PairedQuotesAreSeenAlike(t, q, o, c);
      ScansAgreeWhereSeenAlike(t, open, close, o, c);
    } else {
      ForwardFindsMatch(t, open, close, o, c);
      BackwardFindsMatch(t, open, close, o, c);
      OddQuotesHideTheMatch(t, q, open, close, o, c);
    }
  }

  lemma {:induction false} EndsAreHidden(t: seq<char>, q: char, o: nat, c: nat)
    requires OneKind(t, q) && o <= c < |t| && t[o] != q && t[c] != q && Odd(t, q, o, c + 1)
    ensures Seen(t, o)[c] == ' ' && SeenBack(t, c + 1)[o] == ' '
  {
    OddSplit(t, q, o, c, c + 1);
    OddSplit(t, q, o, o, c + 1);
    SeenAt(t, q, o, c);
    SeenBackAt(t, q, o, c + 1);
  }

  lemma {:induction false} OddQuotesHideTheMatch(t: seq<char>, q: char, open: char, close: char, o: nat, c: nat)
    requires Brackets(open, close) && OneKind(t, q) && o <= c < |t| && t[o] == open && t[c] == close
    requires Odd(t, q, o, c + 1)
    ensures !Matched(Seen(t, o), open, close, o, c) && !Matched(SeenBack(t, c + 1), open, close, o, c)
  {
    EndsAreHidden(t, q, o, c);
    if Matched(Seen(t, o), open, close, o, c) { MatchIsSeen(Seen(t, o), open, close, o, c); }
    if Matched(SeenBack(t, c + 1), open, close, o, c) { MatchIsSeen(SeenBack(t, c + 1), open, close, o, c); }
  }
}
