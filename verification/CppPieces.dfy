/** Masking, told from the pieces a text is made of: comments, literals, and the characters between them. */
module CppPieces {
  import opened Sequences
  import opened CppLex

  // ----- the pieces of a text -----

  /** A character of a literal, as section 5.13.5 of ISO/IEC 14882:2020 writes it. */
  datatype Unit = Char(c: char) | Escape(c: char)

  /** `OpenBlock` and `OpenLiteral` are never closed. */
  datatype Piece =
    | Other(c: char)
    | Line(body: string)
    | Block(body: string)
    | OpenBlock(body: string)
    | Literal(quote: char, units: seq<Unit>)
    | OpenLiteral(quote: char, units: seq<Unit>)

  function UnitsText(us: seq<Unit>): string
  {
    if us == [] then "" else (if us[0].Char? then [us[0].c] else ['\\', us[0].c]) + UnitsText(us[1..])
  }

  function PieceText(p: Piece): (s: string)
    ensures s != ""
  {
    match p
    case Other(c) => [c]
    case Line(b) => "//" + b
    case Block(b) => "/*" + (b + "*/")
    case OpenBlock(b) => "/*" + b
    case Literal(q, us) => [q] + (UnitsText(us) + [q])
    case OpenLiteral(q, us) => [q] + UnitsText(us)
  }

  function Text(ps: seq<Piece>): string
  {
    if ps == [] then "" else PieceText(ps[0]) + Text(ps[1..])
  }

  /** The end of a comment stands nowhere before the end of the body. */
  ghost predicate NoEnd(body: string, end: string)
  {
    forall k | 0 <= k < |body| :: !Pair(body + end, k, '*', '/')
  }

  /** Neither the quote nor a backslash stands unescaped, but for a backslash that ends the text. */
  ghost predicate Inside(us: seq<Unit>, q: char, open: bool)
  {
    forall k | 0 <= k < |us| && us[k].Char? :: us[k].c != q && (us[k].c == '\\' ==> open && k == |us| - 1)
  }

  /** The piece is what it seems when `rest` follows. */
  ghost predicate Fits(p: Piece, rest: string)
  {
    match p
    case Other(c) => !IsQuote(c) && (c == '/' && rest != "" ==> rest[0] != '/' && rest[0] != '*')
    case Line(b) => '\n' !in b && (rest != "" ==> rest[0] == '\n')
    case Block(b) => NoEnd(b, "*/")
    case OpenBlock(b) => NoEnd(b, "") && rest == ""
    case Literal(q, us) => IsQuote(q) && Inside(us, q, false)
    case OpenLiteral(q, us) => IsQuote(q) && Inside(us, q, true) && rest == ""
  }

  ghost predicate FitTogether(ps: seq<Piece>)
  {
    ps == [] || (Fits(ps[0], Text(ps[1..])) && FitTogether(ps[1..]))
  }

  function Blanks(s: string): (r: string)
    ensures |r| == |s| && forall k | 0 <= k < |s| :: r[k] == Blank(s[k])
  {
    if s == "" then "" else [Blank(s[0])] + Blanks(s[1..])
  }

  lemma {:induction false} BlanksJoin(a: string, b: string)
    ensures Blanks(a + b) == Blanks(a) + Blanks(b)
    decreases a
  {
    if a == "" {
      NothingInFront(b);
      NothingInFront(Blanks(b));
    } else {
      assert (a + b)[1..] == a[1..] + b;
      BlanksJoin(a[1..], b);
    }
  }

  /** What is left of a text: characters that are no part of a comment or literal stay, and newlines. */
  function Left(ps: seq<Piece>): string
  {
    if ps == [] then ""
    else (if ps[0].Other? then [ps[0].c] else Blanks(PieceText(ps[0]))) + Left(ps[1..])
  }

  // ----- the scan of a suffix -----

  function MaskIn(s: string, st: State): string { MaskFrom(s, 0, st) }

  lemma {:induction false} MaskShift(t: string, i: nat, k: nat, st: State)
    requires i + k <= |t|
    ensures MaskFrom(t, i + k, st) == MaskFrom(t[i..], k, st)
    decreases |t| - i - k
  {
    if i + k < |t| {
      assert t[i..][k] == t[i + k] && (i + k + 1 < |t| ==> t[i..][k + 1] == t[i + k + 1]);
      assert MaskStep(t, i + k, st) == MaskStep(t[i..], k, st);
      var n := |MaskStep(t, i + k, st).0|;
      MaskShift(t, i, k + n, MaskStep(t, i + k, st).1);
    }
  }

  lemma {:induction false} MaskStepThen(s: string, st: State)
    requires s != ""
    ensures var (written, next) := MaskStep(s, 0, st);
            MaskIn(s, st) == written + MaskIn(s[|written|..], next)
  {
    var (written, next) := MaskStep(s, 0, st);
    MaskShift(s, |written|, 0, next);
  }

  /** Inside a comment or literal one character is blanked. */
  lemma {:induction false} OneBlanked(c: char, s: string, st: State)
    requires MaskStep([c] + s, 0, st) == ([Blank(c)], st)
    ensures MaskIn([c] + s, st) == [Blank(c)] + MaskIn(s, st)
  {
    MaskStepThen([c] + s, st);
    assert ([c] + s)[1..] == s;
  }

  /** Two characters are blanked. */
  lemma {:induction false} TwoBlanked(a: char, b: char, s: string, st: State, next: State)
    requires MaskStep([a, b] + s, 0, st) == ([Blank(a), Blank(b)], next)
    ensures MaskIn([a, b] + s, st) == [Blank(a), Blank(b)] + MaskIn(s, next)
  {
    MaskStepThen([a, b] + s, st);
    assert ([a, b] + s)[2..] == s;
  }

  lemma {:induction false} LineMasked(b: string, rest: string)
    requires '\n' !in b && (rest != "" ==> rest[0] == '\n')
    ensures MaskIn(b + rest, LineComment) == Blanks(b) + MaskIn(rest, Code)
    decreases b
  {
    if b == "" {
      NothingInFront(rest);
      NothingInFront(MaskIn(rest, Code));
      if rest != "" {
        MaskStepThen(rest, LineComment);
        MaskStepThen(rest, Code);
      }
    } else {
      HeadTail(b);
      assert b[0] in b && forall c :: c in b[1..] ==> c in b;
      Regroup([b[0]], b[1..], rest);
      LineMasked(b[1..], rest);
      OneBlanked(b[0], b[1..] + rest, LineComment);
      Regroup([Blank(b[0])], Blanks(b[1..]), MaskIn(rest, Code));
    }
  }

  lemma {:induction false} NoEndTail(b: string, end: string)
    requires b != "" && NoEnd(b, end)
    ensures NoEnd(b[1..], end) && !Pair(b + end, 0, '*', '/')
  {
    assert (b + end)[1..] == b[1..] + end;
    forall k | 0 <= k < |b[1..]| ensures !Pair(b[1..] + end, k, '*', '/') {
      assert !Pair(b + end, k + 1, '*', '/');
      assert (b[1..] + end)[k] == (b + end)[k + 1];
      if k + 1 < |b[1..] + end| { assert (b[1..] + end)[k + 1] == (b + end)[k + 2]; }
    }
  }

  lemma {:induction false} BlockMasked(b: string, end: string, rest: string)
    requires NoEnd(b, end) && (end == "*/" || (end == "" && rest == ""))
    ensures MaskIn(b + end + rest, BlockComment) == Blanks(b + end) + MaskIn(rest, Code)
    decreases b
  {
    if b == "" {
      NothingInFront(end);
      if end == "*/" {
        TwoBlanked('*', '/', rest, BlockComment, Code);
        assert Blanks("*/") == [Blank('*'), Blank('/')];
      } else {
        assert b + end + rest == "" && Blanks("") + MaskIn("", Code) == "";
      }
    } else {
      HeadTail(b);
      NoEndTail(b, end);
      BlockMasked(b[1..], end, rest);
      var s := b[1..] + end + rest;
      assert b + end + rest == [b[0]] + s;
      assert b + end == [b[0]] + (b[1..] + end);
      assert (b + end)[0] == b[0];
      assert |b + end| > 1 ==> (b + end)[1] == s[0];
      OneBlanked(b[0], s, BlockComment);
      BlanksJoin([b[0]], b[1..] + end);
      Regroup([Blank(b[0])], Blanks(b[1..] + end), MaskIn(rest, Code));
    }
  }

  lemma {:induction false} InsideTail(us: seq<Unit>, q: char, open: bool)
    requires us != [] && Inside(us, q, open)
    ensures Inside(us[1..], q, open) && (us[0].Char? ==> us[0].c != q && (us[0].c == '\\' ==> open && us[1..] == []))
  {
    assert forall k | 0 <= k < |us[1..]| :: us[1..][k] == us[k + 1];
  }

  lemma {:induction false} UnitsMasked(us: seq<Unit>, q: char, open: bool, end: string, rest: string)
    requires IsQuote(q) && Inside(us, q, open) && (if open then end == "" && rest == "" else end == [q])
    ensures MaskIn(UnitsText(us) + end + rest, Quoted(q)) == Blanks(UnitsText(us) + end) + MaskIn(rest, Code)
    decreases us
  {
    if us == [] {
      NothingInFront(end);
      if open {
        assert UnitsText(us) + end + rest == "" && Blanks("") + MaskIn("", Code) == "";
      } else {
        QuoteCloses(q, rest);
      }
    } else {
      InsideTail(us, q, open);
      UnitsMasked(us[1..], q, open, end, rest);
      UnitMasked(us[0], q, UnitsText(us[1..]) + end, rest);
      var first, more := UnitsText([us[0]]), UnitsText(us[1..]);
      assert [us[0]][1..] == [];
      assert UnitsText(us) == first + more;
      Regroup(first, more, end);
      Regroup(first, more + end, rest);
    }
  }

  lemma {:induction false} QuoteCloses(q: char, rest: string)
    requires IsQuote(q)
    ensures MaskIn([q] + rest, Quoted(q)) == Blanks([q]) + MaskIn(rest, Code)
  {
    MaskStepThen([q] + rest, Quoted(q));
    assert ([q] + rest)[1..] == rest;
  }

  lemma {:induction false} UnitMasked(u: Unit, q: char, more: string, rest: string)
    requires IsQuote(q) && (u.Char? ==> u.c != q && (u.c == '\\' ==> more + rest == ""))
    requires MaskIn(more + rest, Quoted(q)) == Blanks(more) + MaskIn(rest, Code)
    ensures MaskIn(UnitsText([u]) + (more + rest), Quoted(q)) == Blanks(UnitsText([u]) + more) + MaskIn(rest, Code)
  {
    var first := UnitsText([u]);
    assert [u][1..] == [];
    assert first == (if u.Char? then [u.c] else ['\\', u.c]) + UnitsText([]);
    BlanksJoin(first, more);
    Regroup(Blanks(first), Blanks(more), MaskIn(rest, Code));
    if u.Char? {
      assert first == [u.c];
      OneBlanked(u.c, more + rest, Quoted(q));
    } else {
      assert first == ['\\', u.c];
      TwoBlanked('\\', u.c, more + rest, Quoted(q), Quoted(q));
      assert Blanks(first) == [' ', Blank(u.c)];
    }
  }

  // ----- the whole text -----

  lemma {:induction false} PieceMasked(p: Piece, rest: string)
    requires Fits(p, rest)
    ensures MaskIn(PieceText(p) + rest, Code) == (if p.Other? then [p.c] else Blanks(PieceText(p))) + MaskIn(rest, Code)
  {
    match p
    case Other(c) =>
      MaskStepThen([c] + rest, Code);
      assert ([c] + rest)[1..] == rest;
    case Line(b) => LineMasked(b, rest); CommentOpens('/', b, rest, LineComment);
    case Block(b) => BlockMasked(b, "*/", rest); CommentOpens('*', b + "*/", rest, BlockComment);
    case OpenBlock(b) =>
      BlockMasked(b, "", rest);
      assert b + "" == b;
      CommentOpens('*', b, rest, BlockComment);
    case Literal(q, us) => UnitsMasked(us, q, false, [q], rest); QuoteOpens(q, UnitsText(us) + [q], rest);
    case OpenLiteral(q, us) =>
      UnitsMasked(us, q, true, "", rest);
      assert UnitsText(us) + "" == UnitsText(us);
      QuoteOpens(q, UnitsText(us), rest);
  }

  lemma {:induction false} CommentOpens(c: char, b: string, rest: string, st: State)
    requires (c == '/' && st == LineComment) || (c == '*' && st == BlockComment)
    requires MaskIn(b + rest, st) == Blanks(b) + MaskIn(rest, Code)
    ensures MaskIn(['/', c] + b + rest, Code) == Blanks(['/', c] + b) + MaskIn(rest, Code)
  {
    Regroup(['/', c], b, rest);
    TwoBlanked('/', c, b + rest, Code, st);
    BlanksJoin(['/', c], b);
    assert Blanks(['/', c]) == [Blank('/'), Blank(c)];
    Regroup(Blanks(['/', c]), Blanks(b), MaskIn(rest, Code));
  }

  lemma {:induction false} QuoteOpens(q: char, b: string, rest: string)
    requires IsQuote(q) && MaskIn(b + rest, Quoted(q)) == Blanks(b) + MaskIn(rest, Code)
    ensures MaskIn([q] + b + rest, Code) == Blanks([q] + b) + MaskIn(rest, Code)
  {
    Regroup([q], b, rest);
    MaskStepThen([q] + (b + rest), Code);
    assert ([q] + (b + rest))[1..] == b + rest;
    BlanksJoin([q], b);
    assert Blanks([q]) == [' '];
    Regroup(Blanks([q]), Blanks(b), MaskIn(rest, Code));
  }

  /** However a text is made of pieces: comments and literals become blanks, newlines in them apart, and every other
      character stays, wherever it stands. */
  lemma {:induction false} PiecesMasked(ps: seq<Piece>)
    requires FitTogether(ps)
    ensures Mask(Text(ps)) == Left(ps)
    decreases ps
  {
    if ps != [] {
      PiecesMasked(ps[1..]);
      PieceMasked(ps[0], Text(ps[1..]));
    }
  }

  // ----- every text is made of pieces -----

  lemma {:induction false} ReadLine(s: string) returns (b: string, rest: string)
    ensures s == b + rest && '\n' !in b && (rest != "" ==> rest[0] == '\n')
    decreases s
  {
    b, rest := "", s;
    if s != "" && s[0] != '\n' {
      b, rest := ReadLine(s[1..]);
      HeadTail(s);
      Regroup([s[0]], b, rest);
      b := [s[0]] + b;
    }
  }

  lemma {:induction false} ReadBlock(s: string) returns (b: string, closed: bool, rest: string)
    ensures if closed then s == b + "*/" + rest && NoEnd(b, "*/") else s == b && NoEnd(b, "") && rest == ""
    decreases s
  {
    if s == "" {
      b, closed, rest := "", false, "";
    } else if Pair(s, 0, '*', '/') {
      b, closed, rest := "", true, s[2..];
      assert s == "*/" + rest;
    } else {
      b, closed, rest := ReadBlock(s[1..]);
      HeadTail(s);
      var end := if closed then "*/" else "";
      assert s == [s[0]] + b + end + rest;
      NoEndCons(s[0], b, end, rest);
      b := [s[0]] + b;
    }
  }

  lemma {:induction false} NoEndCons(c: char, b: string, end: string, rest: string)
    requires NoEnd(b, end) && !Pair([c] + b + end + rest, 0, '*', '/')
    ensures NoEnd([c] + b, end)
  {
    var s := [c] + b + end;
    assert s == [c] + (b + end) && [c] + b + end + rest == s + rest;
    forall k | 0 <= k < |[c] + b| ensures !Pair(s, k, '*', '/') {
      if k > 0 {
        assert !Pair(b + end, k - 1, '*', '/');
        assert s[k] == (b + end)[k - 1];
        if k + 1 < |s| { assert s[k + 1] == (b + end)[k]; }
      } else if 1 < |s| {
        assert (s + rest)[0] == s[0] && (s + rest)[1] == s[1];
      }
    }
  }

  lemma {:induction false} ReadUnits(s: string, q: char) returns (us: seq<Unit>, closed: bool, rest: string)
    ensures if closed then s == UnitsText(us) + [q] + rest && Inside(us, q, false)
            else s == UnitsText(us) && Inside(us, q, true) && rest == ""
    decreases |s|
  {
    if s == "" {
      us, closed, rest := [], false, "";
    } else if s[0] == '\\' && |s| > 1 {
      us, closed, rest := ReadUnits(s[2..], q);
      assert s == ['\\', s[1]] + s[2..];
      us := UnitFirst(Escape(s[1]), us, q, closed, rest, s, s[2..]);
    } else if s[0] == q {
      us, closed, rest := [], true, s[1..];
      HeadTail(s);
      assert UnitsText([]) + [q] + rest == s;
    } else {
      us, closed, rest := ReadUnits(s[1..], q);
      HeadTail(s);
      us := UnitFirst(Char(s[0]), us, q, closed, rest, s, s[1..]);
    }
  }

  lemma {:induction false} UnitFirst(
    u: Unit, us: seq<Unit>, q: char, closed: bool, rest: string, s: string, tail: string)
    returns (all: seq<Unit>)
    requires s == (if u.Char? then [u.c] else ['\\', u.c]) + tail
    requires if closed then tail == UnitsText(us) + [q] + rest && Inside(us, q, false)
             else tail == UnitsText(us) && Inside(us, q, true) && rest == ""
    requires u.Char? ==> u.c != q && (u.c == '\\' ==> tail == "")
    ensures if closed then s == UnitsText(all) + [q] + rest && Inside(all, q, false)
            else s == UnitsText(all) && Inside(all, q, true) && rest == ""
  {
    all := [u] + us;
    assert all[0] == u && all[1..] == us;
    var first := if u.Char? then [u.c] else ['\\', u.c];
    assert UnitsText(all) == first + UnitsText(us);
    Regroup(first, UnitsText(us) + [q], rest);
    Regroup(first, UnitsText(us), [q]);
    assert us != [] ==> UnitsText(us) != "";
    forall k | 0 <= k < |all| && all[k].Char? ensures
      all[k].c != q && (all[k].c == '\\' ==> !closed && k == |all| - 1) {
      if k > 0 { assert all[k] == us[k - 1]; }
    }
  }

  lemma {:induction false} FirstPiece(s: string) returns (p: Piece, rest: string)
    requires s != ""
    ensures s == PieceText(p) + rest && Fits(p, rest)
  {
    if Pair(s, 0, '/', '/') {
      var b: string;
      b, rest := ReadLine(s[2..]);
      p := Line(b);
      assert s == "//" + s[2..];
      Regroup("//", b, rest);
    } else if Pair(s, 0, '/', '*') {
      var b: string, closed: bool;
      b, closed, rest := ReadBlock(s[2..]);
      p := if closed then Block(b) else OpenBlock(b);
      assert s == "/*" + s[2..];
      Regroup("/*", b + "*/", rest);
    } else if IsQuote(s[0]) {
      var us: seq<Unit>, closed: bool;
      us, closed, rest := ReadUnits(s[1..], s[0]);
      p := if closed then Literal(s[0], us) else OpenLiteral(s[0], us);
      HeadTail(s);
      Regroup([s[0]], UnitsText(us) + [s[0]], rest);
    } else {
      p, rest := Other(s[0]), s[1..];
      HeadTail(s);
    }
  }

  /** Every text is made of pieces that fit together. */
  lemma {:induction false} EveryTextHasPieces(s: string) returns (ps: seq<Piece>)
    ensures Text(ps) == s && FitTogether(ps)
    decreases |s|
  {
    ps := [];
    if s != "" {
      var p, rest := FirstPiece(s);
      var more := EveryTextHasPieces(rest);
      ps := [p] + more;
      assert ps[0] == p && ps[1..] == more;
    }
  }
}
