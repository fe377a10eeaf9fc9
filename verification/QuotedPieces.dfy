/** What the bracket scans see of literals: nothing, however quotes are escaped in them. */
module QuotedPieces {
  import opened Sequences
  import opened CppLex
  import opened CppPieces
  import opened QuotedBrackets

  /** What a scan sees of a text when it comes to it with a mark. */
  function SeenIn(m: Mark, s: string): (r: string)
    ensures |r| == |s|
    decreases s
  {
    if s == "" then "" else [Shown(m, s[0])] + SeenIn(QuotedBrackets.Next(m, s[0]), s[1..])
  }

  /** The mark behind a text. */
  function Behind(m: Mark, s: string): Mark
    decreases s
  {
    if s == "" then m else Behind(QuotedBrackets.Next(m, s[0]), s[1..])
  }

  lemma {:induction false} SeenJoin(m: Mark, a: string, b: string)
    ensures SeenIn(m, a + b) == SeenIn(m, a) + SeenIn(Behind(m, a), b)
    decreases a
  {
    if a == "" {
      NothingInFront(b);
      NothingInFront(SeenIn(m, b));
    } else {
      assert (a + b)[0] == a[0] && (a + b)[1..] == a[1..] + b;
      var next := QuotedBrackets.Next(m, a[0]);
      SeenJoin(next, a[1..], b);
      Regroup([Shown(m, a[0])], SeenIn(next, a[1..]), SeenIn(Behind(m, a), b));
    }
  }

  lemma {:induction false} BehindJoin(m: Mark, a: string, b: string)
    ensures Behind(m, a + b) == Behind(Behind(m, a), b)
    decreases a
  {
    if a == "" {
      NothingInFront(b);
    } else {
      assert (a + b)[0] == a[0] && (a + b)[1..] == a[1..] + b;
      BehindJoin(QuotedBrackets.Next(m, a[0]), a[1..], b);
    }
  }

  // ----- pieces, with comments read as any other text -----

  /** A character outside literals, or a literal. */
  ghost predicate FitsQuoted(p: Piece, rest: string)
  {
    match p
    case Other(c) => !IsQuote(c)
    case Literal(q, us) => IsQuote(q) && Inside(us, q, false)
    case OpenLiteral(q, us) => IsQuote(q) && Inside(us, q, true) && rest == ""
    case _ => false
  }

  ghost predicate QuotedTogether(ps: seq<Piece>)
  {
    ps == [] || (FitsQuoted(ps[0], Text(ps[1..])) && QuotedTogether(ps[1..]))
  }

  function Spaces(n: nat): (r: string)
    ensures |r| == n && forall k | 0 <= k < n :: r[k] == ' '
  {
    if n == 0 then "" else [' '] + Spaces(n - 1)
  }

  /** The characters outside literals, where they stand. */
  function Outside(ps: seq<Piece>): string
  {
    if ps == [] then ""
    else (if ps[0].Other? then [ps[0].c] else Spaces(|PieceText(ps[0])|)) + Outside(ps[1..])
  }

  lemma {:induction false} UnitsSeen(us: seq<Unit>, q: char, open: bool)
    requires IsQuote(q) && Inside(us, q, open)
    ensures SeenIn(Mark(q, false), UnitsText(us)) == Spaces(|UnitsText(us)|)
    ensures !open ==> Behind(Mark(q, false), UnitsText(us)) == Mark(q, false)
    decreases us
  {
    if us != [] {
      InsideTail(us, q, open);
      UnitsSeen(us[1..], q, open);
      var first := if us[0].Char? then [us[0].c] else ['\\', us[0].c];
      var m, rest := Mark(q, false), UnitsText(us[1..]);
      UnitSeen(us[0], q);
      SeenJoin(m, first, rest);
      BehindJoin(m, first, rest);
      if us[0].Char? && us[0].c == '\\' {
        assert rest == "" && UnitsText(us) == first;
      }
      assert UnitsText(us) == first + rest;
    }
  }

  lemma {:induction false} UnitSeen(u: Unit, q: char)
    requires IsQuote(q) && (u.Char? ==> u.c != q)
    ensures var s := if u.Char? then [u.c] else ['\\', u.c];
            && SeenIn(Mark(q, false), s) == Spaces(|s|)
            && ((u.Char? && u.c == '\\') || Behind(Mark(q, false), s) == Mark(q, false))
  {
    var m := Mark(q, false);
    if u.Char? {
      OneSeen(m, u.c);
    } else {
      var s := ['\\', u.c];
      assert s[1..] == [u.c];
      OneSeen(QuotedBrackets.Next(m, '\\'), u.c);
      assert Behind(m, s) == Behind(QuotedBrackets.Next(m, '\\'), [u.c]);
    }
  }

  lemma {:induction false} OneSeen(m: Mark, c: char)
    ensures SeenIn(m, [c]) == [Shown(m, c)] && Behind(m, [c]) == QuotedBrackets.Next(m, c)
  {
    assert [c][1..] == "";
  }

  lemma {:induction false} PieceSeen(p: Piece, rest: string)
    requires FitsQuoted(p, rest)
    ensures SeenIn(OUTSIDE, PieceText(p)) == if p.Other? then [p.c] else Spaces(|PieceText(p)|)
    ensures p.OpenLiteral? || Behind(OUTSIDE, PieceText(p)) == OUTSIDE
  {
    match p
    case Other(c) => OneSeen(OUTSIDE, c);
    case Literal(q, us) =>
      UnitsSeen(us, q, false);
      QuotedSeen(q, UnitsText(us) + [q]);
      SeenJoin(Mark(q, false), UnitsText(us), [q]);
      BehindJoin(Mark(q, false), UnitsText(us), [q]);
      OneSeen(Mark(q, false), q);
    case OpenLiteral(q, us) =>
      UnitsSeen(us, q, true);
      QuotedSeen(q, UnitsText(us));
  }

  lemma {:induction false} QuotedSeen(q: char, s: string)
    requires IsQuote(q)
    ensures SeenIn(OUTSIDE, [q] + s) == [' '] + SeenIn(Mark(q, false), s)
    ensures Behind(OUTSIDE, [q] + s) == Behind(Mark(q, false), s)
  {
    assert ([q] + s)[1..] == s;
  }

  /** A scan sees exactly the characters outside literals, wherever these end. */
  lemma {:induction false} LiteralsUnseen(ps: seq<Piece>)
    requires QuotedTogether(ps)
    ensures SeenIn(OUTSIDE, Text(ps)) == Outside(ps)
    decreases ps
  {
    if ps != [] {
      var rest := Text(ps[1..]);
      PieceSeen(ps[0], rest);
      SeenJoin(OUTSIDE, PieceText(ps[0]), rest);
      LiteralsUnseen(ps[1..]);
      if ps[0].OpenLiteral? {
        assert rest == "" && |Outside(ps[1..])| == 0 by { NothingOutside(ps[1..]); }
      }
    }
  }

  lemma {:induction false} NothingOutside(ps: seq<Piece>)
    requires Text(ps) == ""
    ensures ps == []
  {
  }

  lemma {:induction false} EveryTextIsQuoted(s: string) returns (ps: seq<Piece>)
    ensures Text(ps) == s && QuotedTogether(ps)
    decreases |s|
  {
    ps := [];
    if s != "" {
      var p, rest := FirstQuoted(s);
      var more := EveryTextIsQuoted(rest);
      ps := [p] + more;
      assert ps[0] == p && ps[1..] == more;
    }
  }

  lemma {:induction false} FirstQuoted(s: string) returns (p: Piece, rest: string)
    requires s != ""
    ensures s == PieceText(p) + rest && FitsQuoted(p, rest)
  {
    HeadTail(s);
    if IsQuote(s[0]) {
      var us: seq<Unit>, closed: bool;
      us, closed, rest := ReadUnits(s[1..], s[0]);
      p := if closed then Literal(s[0], us) else OpenLiteral(s[0], us);
      Regroup([s[0]], UnitsText(us) + [s[0]], rest);
    } else {
      p, rest := Other(s[0]), s[1..];
    }
  }

  // ----- both scans -----

  lemma {:induction false} SeenFrom(t: string, o: nat, i: nat)
    requires o <= i <= |t|
    ensures Seen(t, o)[i..] == SeenIn(Reading(t, o, i), t[i..])
    decreases |t| - i
  {
    if i < |t| {
      SeenFrom(t, o, i + 1);
      assert t[i..][1..] == t[i + 1..];
      assert Seen(t, o)[i..] == [Seen(t, o)[i]] + Seen(t, o)[i + 1..];
    }
  }

  /** The forward scan sees the characters outside literals, as they follow from where it starts. */
  lemma {:induction false} ForwardSeesOutside(t: string, o: nat, ps: seq<Piece>)
    requires o <= |t| && t[o..] == Text(ps) && QuotedTogether(ps)
    ensures Seen(t, o)[o..] == Outside(ps)
  {
    SeenFrom(t, o, o);
    LiteralsUnseen(ps);
  }

  function Reversed(s: string): (r: string)
    ensures |r| == |s| && forall k | 0 <= k < |s| :: r[k] == s[|s| - 1 - k]
  {
    if s == "" then "" else Reversed(s[1..]) + [s[0]]
  }

  lemma {:induction false} SeenBackFrom(t: string, i: nat, end: nat)
    requires i <= end <= |t|
    ensures Reversed(SeenBack(t, end)[..i]) == SeenIn(ReadingBack(t, i, end), Reversed(t[..i]))
    decreases i
  {
    if i > 0 {
      SeenBackFrom(t, i - 1, end);
      ReversedSnoc(t, i);
      ReversedSnoc(SeenBack(t, end), i);
    }
  }

  lemma {:induction false} ReversedSnoc(s: string, i: nat)
    requires 0 < i <= |s|
    ensures Reversed(s[..i]) == [s[i - 1]] + Reversed(s[..i - 1])
    ensures Reversed(s[..i])[1..] == Reversed(s[..i - 1])
  {
  }

  /** The backward scan sees the characters outside literals of the text read backwards: there a backslash escapes what
      stands in front of it. */
  lemma {:induction false} BackwardSeesOutside(t: string, end: nat, ps: seq<Piece>)
    requires end <= |t| && Reversed(t[..end]) == Text(ps) && QuotedTogether(ps)
    ensures Reversed(SeenBack(t, end)[..end]) == Outside(ps)
  {
    SeenBackFrom(t, end, end);
    LiteralsUnseen(ps);
  }
}
