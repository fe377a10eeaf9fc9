/** The linear scanners of `cpp_lex.py`: masking what is not code, line numbers, and brackets. */
module CppLex {
  import opened Sequences

  // ----- masking -----

  datatype State = Code | LineComment | BlockComment | Quoted(quote: char)

  predicate IsQuote(c: char) { c == '"' || c == '\'' }

  /** What masking leaves of a character that is not code. */
  function Blank(c: char): char { if c == '\n' then c else ' ' }

  /** The two characters from `i` on are `a` and `b`. */
  predicate Pair(t: seq<char>, i: nat, a: char, b: char)
  {
    i + 1 < |t| && t[i] == a && t[i + 1] == b
  }

  /** What is written at position `i`, one or two characters, and the state behind them. */
  function MaskStep(t: seq<char>, i: nat, st: State): (r: (seq<char>, State))
    requires i < |t|
    ensures 1 <= |r.0| <= 2 && i + |r.0| <= |t|
  {
    match st
    case Code =>
      if Pair(t, i, '/', '/') then ([' ', ' '], LineComment)
      else if Pair(t, i, '/', '*') then ([' ', ' '], BlockComment)
      else if IsQuote(t[i]) then ([' '], Quoted(t[i]))
      else ([t[i]], Code)
    case LineComment =>
      if t[i] == '\n' then ([t[i]], Code) else ([' '], LineComment)
    case BlockComment =>
      if Pair(t, i, '*', '/') then ([' ', ' '], Code) else ([Blank(t[i])], BlockComment)
    case Quoted(q) =>
      if t[i] == '\\' && i + 1 < |t| then ([' ', Blank(t[i + 1])], Quoted(q))
      else if t[i] == q then ([' '], Code)
      else ([Blank(t[i])], Quoted(q))
  }

  /** The masked text from position `i` on, scanning in state `st`. */
  function MaskFrom(t: seq<char>, i: nat, st: State): (r: seq<char>)
    requires i <= |t|
    ensures |r| == |t| - i
    decreases |t| - i
  {
    if i == |t| then []
    else
      var (written, next) := MaskStep(t, i, st);
      written + MaskFrom(t, i + |written|, next)
  }

  function Mask(t: seq<char>): seq<char> { MaskFrom(t, 0, Code) }

  /** The buffer is masked up to `i` and still holds the text from there on. */
  ghost predicate MaskedTo(buffer: seq<char>, text: seq<char>, i: nat, state: State)
  {
    && |buffer| == |text| && i <= |text| && buffer[i..] == text[i..]
    && Mask(text) == buffer[..i] + MaskFrom(text, i, state)
  }

  lemma {:induction false} MaskedStill(buffer: seq<char>, text: seq<char>, i: nat, state: State)
    requires MaskedTo(buffer, text, i, state)
    ensures forall k | i <= k < |text| :: buffer[k] == text[k]
  {
    assert forall k | i <= k < |text| :: buffer[k] == buffer[i..][k - i] == text[i..][k - i];
  }

  lemma {:induction false} MaskedFurther(buffer: seq<char>, buffer': seq<char>, text: seq<char>, i: nat, state: State)
    requires MaskedTo(buffer, text, i, state) && i < |text| && |buffer'| == |text|
    requires var (written, next) := MaskStep(text, i, state);
             && (forall k | i <= k < i + |written| :: buffer'[k] == written[k - i])
             && (forall k | 0 <= k < i || i + |written| <= k < |text| :: buffer'[k] == buffer[k])
    ensures var (written, next) := MaskStep(text, i, state); MaskedTo(buffer', text, i + |written|, next)
  {
    var written := MaskStep(text, i, state).0;
    var j := i + |written|;
    MaskUnfolds(buffer[..i], text, i, state);
    assert buffer'[..i] == buffer[..i] && buffer'[i..j] == written;
    assert buffer'[..j] == buffer'[..i] + buffer'[i..j];
    forall k | j <= k < |text| ensures buffer'[k] == text[k] {
      assert buffer[k] == buffer[i..][k - i] == text[i..][k - i];
    }
  }

  /** One step keeps the buffer masked up to the position. */
  method AdvanceMasked(out: array<char>, text: seq<char>, i: nat, state: State) returns (i': nat, state': State)
    requires i < |text| && MaskedTo(out[..], text, i, state)
    modifies out
    ensures i < i' && MaskedTo(out[..], text, i', state')
  {
    ghost var before := out[..];
    MaskedStill(before, text, i, state);
    i', state' := Advance(out, text, i, state);
    MaskedFurther(before, out[..], text, i, state);
  }

  method MaskNonCode(text: seq<char>) returns (masked: seq<char>)
    ensures masked == Mask(text)
  {
    var n := |text|;
    var out := new char[n](k requires 0 <= k < n => text[k]);
    var i, state := 0, Code;
    assert out[..] == text;
    while i < n
      invariant MaskedTo(out[..], text, i, state)
    {
      i, state := AdvanceMasked(out, text, i, state);
    }
    masked := out[..];
  }

  lemma {:induction false} MaskUnfolds(front: seq<char>, t: seq<char>, i: nat, st: State)
    requires i < |t|
    ensures var (written, next) := MaskStep(t, i, st);
            front + MaskFrom(t, i, st) == (front + written) + MaskFrom(t, i + |written|, next)
  {
    var (written, next) := MaskStep(t, i, st);
    Regroup(front, written, MaskFrom(t, i + |written|, next));
  }

  /** One turn of the scan: writes what `MaskStep` says, and nothing else. */
  method Advance(out: array<char>, text: seq<char>, i: nat, state: State) returns (i': nat, state': State)
    requires out.Length == |text| && i < |text| && forall k | i <= k < |text| :: out[k] == text[k]
    modifies out
    ensures i' == i + |MaskStep(text, i, state).0| && state' == MaskStep(text, i, state).1
    ensures forall k | i <= k < i' :: out[k] == MaskStep(text, i, state).0[k - i]
    ensures forall k | (0 <= k < i || i' <= k < |text|) :: out[k] == old(out[k])
  {
    var ch := text[i];
    i', state' := i + 1, state;
    match state {
      case Code =>
        if Pair(text, i, '/', '/') {
          out[i], out[i + 1] := ' ', ' ';
          i', state' := i + 2, LineComment;
        } else if Pair(text, i, '/', '*') {
          out[i], out[i + 1] := ' ', ' ';
          i', state' := i + 2, BlockComment;
        } else if IsQuote(ch) {
          out[i] := ' ';
          state' := Quoted(ch);
        }
      case LineComment =>
        if ch == '\n' { state' := Code; } else { out[i] := ' '; }
      case BlockComment =>
        if Pair(text, i, '*', '/') {
          out[i], out[i + 1] := ' ', ' ';
          i', state' := i + 2, Code;
        } else if ch != '\n' {
          out[i] := ' ';
        }
      case Quoted(quote) =>
        if ch == '\\' && i + 1 < |text| {
          out[i] := ' ';
          if text[i + 1] != '\n' { out[i + 1] := ' '; }
          i' := i + 2;
        } else if ch == quote {
          out[i] := ' ';
          state' := Code;
        } else if ch != '\n' {
          out[i] := ' ';
        }
    }
  }

  // ----- what masking keeps and removes -----

  /** Each character is unchanged or a blank, and newlines stay where they are. */
  ghost predicate Keeps(t: seq<char>, i: nat, r: seq<char>)
  {
    && i + |r| <= |t|
    && forall k | 0 <= k < |r| :: (r[k] == t[i + k] || r[k] == ' ') && (r[k] == '\n' <==> t[i + k] == '\n')
  }

  /** Only quotes open a quoted text. */
  ghost predicate Proper(st: State)
  {
    st.Quoted? ==> IsQuote(st.quote)
  }

  lemma {:induction false} StepKeeps(t: seq<char>, i: nat, st: State)
    requires i < |t| && Proper(st)
    ensures Keeps(t, i, MaskStep(t, i, st).0) && Proper(MaskStep(t, i, st).1)
  {
  }

  lemma {:induction false} KeepsJoin(t: seq<char>, i: nat, a: seq<char>, b: seq<char>)
    requires Keeps(t, i, a) && Keeps(t, i + |a|, b)
    ensures Keeps(t, i, a + b)
  {
    forall k | 0 <= k < |a + b|
      ensures ((a + b)[k] == t[i + k] || (a + b)[k] == ' ') && ((a + b)[k] == '\n' <==> t[i + k] == '\n')
    {
      if k >= |a| { assert (a + b)[k] == b[k - |a|] && t[i + k] == t[i + |a| + (k - |a|)]; }
    }
  }

  lemma {:induction false} MaskFromKeeps(t: seq<char>, i: nat, st: State)
    requires i <= |t| && Proper(st)
    ensures Keeps(t, i, MaskFrom(t, i, st))
    decreases |t| - i
  {
    if i < |t| {
      var (written, next) := MaskStep(t, i, st);
      StepKeeps(t, i, st);
      MaskFromKeeps(t, i + |written|, next);
      KeepsJoin(t, i, written, MaskFrom(t, i + |written|, next));
    }
  }

  /** Masking keeps the length and every newline, and changes nothing but to blanks. */
  lemma {:induction false} MaskKeeps(t: seq<char>)
    ensures |Mask(t)| == |t|
    ensures forall k | 0 <= k < |t| ::
            (Mask(t)[k] == t[k] || Mask(t)[k] == ' ') && (Mask(t)[k] == '\n' <==> t[k] == '\n')
  {
    MaskFromKeeps(t, 0, Code);
  }

  /** No quote is left, and no two characters that open a comment. */
  ghost predicate NothingOpens(r: seq<char>)
  {
    && (forall k | 0 <= k < |r| :: !IsQuote(r[k]))
    && forall k | 0 <= k < |r| :: !Pair(r, k, '/', '/') && !Pair(r, k, '/', '*')
  }

  lemma {:induction false} OpensJoin(a: seq<char>, b: seq<char>)
    requires NothingOpens(a) && NothingOpens(b)
    requires a != [] && b != [] && a[|a| - 1] == '/' ==> b[0] != '/' && b[0] != '*'
    ensures NothingOpens(a + b)
  {
    var r := a + b;
    forall k | 0 <= k < |r| ensures !IsQuote(r[k]) && !Pair(r, k, '/', '/') && !Pair(r, k, '/', '*') {
      if k + 1 < |a| {
        assert !Pair(a, k, '/', '/') && !Pair(a, k, '/', '*');
      } else if k >= |a| {
        assert !Pair(b, k - |a|, '/', '/') && !Pair(b, k - |a|, '/', '*');
        assert r[k] == b[k - |a|];
      }
    }
  }

  lemma {:induction false} MaskFromOpensNothing(t: seq<char>, i: nat, st: State)
    requires i <= |t| && Proper(st)
    ensures NothingOpens(MaskFrom(t, i, st))
    decreases |t| - i
  {
    if i < |t| {
      var (written, next) := MaskStep(t, i, st);
      var rest := MaskFrom(t, i + |written|, next);
      StepKeeps(t, i, st);
      MaskFromOpensNothing(t, i + |written|, next);
      MaskFromKeeps(t, i + |written|, next);
      assert NothingOpens(written);
      assert rest != [] ==> rest[0] == t[i + |written|] || rest[0] == ' ';
      OpensJoin(written, rest);
    }
  }

  lemma {:induction false} NothingToMask(t: seq<char>, i: nat)
    requires NothingOpens(t) && i <= |t|
    ensures MaskFrom(t, i, Code) == t[i..]
    decreases |t| - i
  {
    if i < |t| {
      assert !Pair(t, i, '/', '/') && !Pair(t, i, '/', '*');
      NothingToMask(t, i + 1);
      assert t[i..] == [t[i]] + t[i + 1..];
    }
  }

  /** Masking a masked text changes nothing; and a text is left alone exactly when nothing in it opens. */
  lemma {:induction false} MaskIsIdempotent(t: seq<char>)
    ensures Mask(Mask(t)) == Mask(t)
    ensures Mask(t) == t <==> NothingOpens(t)
  {
    MaskFromOpensNothing(t, 0, Code);
    NothingToMask(Mask(t), 0);
    if NothingOpens(t) { NothingToMask(t, 0); }
  }

  // ----- line numbers -----

  ghost predicate Ascending(ps: seq<nat>)
  {
    forall i, j | 0 <= i < j < |ps| :: ps[i] < ps[j]
  }

  /** `ps` are the newline positions of `t` below `end`. */
  ghost predicate NewlinesOf(t: seq<char>, end: nat, ps: seq<nat>)
  {
    Ascending(ps) && forall p: nat :: p in ps <==> p < end && p < |t| && t[p] == '\n'
  }

  /** The first newline at or behind `start`, or the length of the text. */
  method FindNewline(t: seq<char>, start: nat) returns (p: nat)
    requires start <= |t|
    ensures start <= p <= |t| && (p < |t| ==> t[p] == '\n')
    ensures forall k | start <= k < p :: t[k] != '\n'
  {
    p := start;
    while p < |t| && t[p] != '\n'
      invariant start <= p <= |t| && forall k | start <= k < p :: t[k] != '\n'
    {
      p := p + 1;
    }
  }

  method LineIndex(t: seq<char>) returns (out: seq<nat>)
    ensures NewlinesOf(t, |t|, out)
  {
    out := [];
    var start := 0;
    while true
      invariant start <= |t| && NewlinesOf(t, start, out)
      decreases |t| - start
    {
      var p := FindNewline(t, start);
      if p == |t| { return; }
      assert forall k | 0 <= k < |out| :: out[k] in out;
      out := out + [p];
      start := p + 1;
    }
  }

  /** How many newlines stand before position `end`. */
  function CountNewlines(t: seq<char>, end: nat): nat
    requires end <= |t|
  {
    if end == 0 then 0 else CountNewlines(t, end - 1) + (if t[end - 1] == '\n' then 1 else 0)
  }

  /** `bisect_right`: how many positions are at most `x`. */
  method BisectRight(ps: seq<nat>, x: nat) returns (lo: nat)
    requires Ascending(ps)
    ensures lo <= |ps| && (forall k | 0 <= k < lo :: ps[k] <= x) && (forall k | lo <= k < |ps| :: ps[k] > x)
  {
    lo := 0;
    var hi := |ps|;
    while lo < hi
      invariant 0 <= lo <= hi <= |ps|
      invariant (forall k | 0 <= k < lo :: ps[k] <= x) && (forall k | hi <= k < |ps| :: ps[k] > x)
    {
      var mid := (lo + hi) / 2;
      if x < ps[mid] {
        forall k | mid <= k < |ps| ensures ps[k] > x { assert ps[mid] <= ps[k]; }
        hi := mid;
      } else {
        forall k | 0 <= k <= mid ensures ps[k] <= x { assert ps[k] <= ps[mid]; }
        lo := mid + 1;
      }
    }
  }

  lemma {:induction false} ElementIsIn(ps: seq<nat>, k: nat)
    ensures k < |ps| ==> ps[k] in ps
  {
  }

  lemma {:induction false} PositionsCount(t: seq<char>, end: nat, ps: seq<nat>)
    requires end <= |t| && NewlinesOf(t, end, ps)
    ensures |ps| == CountNewlines(t, end)
    decreases end
  {
    if end == 0 {
      ElementIsIn(ps, 0);
    } else if t[end - 1] == '\n' {
      assert end - 1 in ps;
      var k :| 0 <= k < |ps| && ps[k] == end - 1;
      ElementIsIn(ps, k + 1);
      var front := ps[..|ps| - 1];
      assert ps == front + [end - 1];
      forall p: nat ensures p in front <==> p < end - 1 && p < |t| && t[p] == '\n' {
        assert p in ps <==> p in front || p == end - 1;
        if p in front { var j :| 0 <= j < |front| && front[j] == p; assert ps[j] < ps[|ps| - 1]; }
      }
      PositionsCount(t, end - 1, front);
    } else {
      forall p: nat ensures p in ps <==> p < end - 1 && p < |t| && t[p] == '\n' {}
      PositionsCount(t, end - 1, ps);
    }
  }

  /** The line of an offset: one more than the newlines up to it. */
  method LineAt(ps: seq<nat>, offset: int, ghost t: seq<char>) returns (line: nat)
    requires NewlinesOf(t, |t|, ps)
    ensures var o := if offset < 0 then 0 else offset;
            line == 1 + CountNewlines(t, if o + 1 <= |t| then o + 1 else |t|)
  {
    var o: nat := if offset < 0 then 0 else offset;
    var k := BisectRight(ps, o);
    line := k + 1;
    ghost var end: nat := if o + 1 <= |t| then o + 1 else |t|;
    forall p: nat ensures p in ps[..k] <==> p < end && p < |t| && t[p] == '\n' {
      if p in ps {
        var j :| 0 <= j < |ps| && ps[j] == p;
        if p <= o { assert j < k && ps[..k][j] == p; }
      }
      if p in ps[..k] { assert p in ps; }
    }
    PositionsCount(t, end, ps[..k]);
  }

  /** Line numbers may be taken from the masked text. */
  lemma {:induction false} MaskKeepsLines(t: seq<char>, end: nat)
    requires end <= |t|
    ensures |Mask(t)| == |t| && CountNewlines(Mask(t), end) == CountNewlines(t, end)
    decreases end
  {
    MaskKeeps(t);
    if end > 0 { MaskKeepsLines(t, end - 1); }
  }

  // ----- brackets -----

  /** The closing position a forward scan reports, or -1. `quote` is blank outside quotes. */
  function Forward(t: seq<char>, open: char, close: char, i: nat, depth: int, quote: char, escape: bool): (r: int)
    requires i <= |t|
    ensures r == -1 || i <= r < |t|
    decreases |t| - i
  {
    if i == |t| then -1
    else if quote != ' ' then
      if escape then Forward(t, open, close, i + 1, depth, quote, false)
      else if t[i] == '\\' then Forward(t, open, close, i + 1, depth, quote, true)
      else if t[i] == quote then Forward(t, open, close, i + 1, depth, ' ', false)
      else Forward(t, open, close, i + 1, depth, quote, false)
    else if IsQuote(t[i]) then Forward(t, open, close, i + 1, depth, t[i], escape)
    else if t[i] == open then Forward(t, open, close, i + 1, depth + 1, quote, escape)
    else if t[i] == close then
      if depth - 1 == 0 then i else Forward(t, open, close, i + 1, depth - 1, quote, escape)
    else Forward(t, open, close, i + 1, depth, quote, escape)
  }

  /** The opening position a backward scan of the first `n` characters reports, or -1. */
  function Backward(t: seq<char>, open: char, close: char, n: nat, depth: int, quote: char, escape: bool): (r: int)
    requires n <= |t|
    ensures r == -1 || 0 <= r < n
    decreases n
  {
    if n == 0 then -1
    else
      var ch := t[n - 1];
      if quote != ' ' then
        if escape then Backward(t, open, close, n - 1, depth, quote, false)
        else if ch == '\\' then Backward(t, open, close, n - 1, depth, quote, true)
        else if ch == quote then Backward(t, open, close, n - 1, depth, ' ', false)
        else Backward(t, open, close, n - 1, depth, quote, false)
      else if IsQuote(ch) then Backward(t, open, close, n - 1, depth, ch, escape)
      else if ch == close then Backward(t, open, close, n - 1, depth + 1, quote, escape)
      else if ch == open then
        if depth - 1 == 0 then n - 1 else Backward(t, open, close, n - 1, depth - 1, quote, escape)
      else Backward(t, open, close, n - 1, depth, quote, escape)
  }

  /** `_matching_paren` of the tiling view: from an opening position forwards. */
  method MatchingParenForward(t: seq<char>, openPos: int) returns (r: int)
    ensures r == if openPos >= |t| then -1 else Forward(t, '(', ')', if openPos < 0 then 0 else openPos, 0, ' ', false)
  {
    if openPos >= |t| { return -1; }
    r := ScanForward(t, '(', ')', if openPos < 0 then 0 else openPos);
  }

  /** `matching_brace`: from an opening brace forwards. */
  method MatchingBrace(t: seq<char>, openPos: int) returns (r: int)
    ensures r == if 0 <= openPos < |t| && t[openPos] == '{' then Forward(t, '{', '}', openPos, 0, ' ', false) else -1
  {
    if openPos < 0 || openPos >= |t| || t[openPos] != '{' { return -1; }
    r := ScanForward(t, '{', '}', openPos);
  }

  method ScanForward(t: seq<char>, open: char, close: char, start: nat) returns (r: int)
    requires start <= |t|
    ensures r == Forward(t, open, close, start, 0, ' ', false)
  {
    var depth, quote, escape := 0, ' ', false;
    for i := start to |t|
      invariant Forward(t, open, close, start, 0, ' ', false) == Forward(t, open, close, i, depth, quote, escape)
    {
      var ch := t[i];
      if quote != ' ' {
        if escape { escape := false; }
        else if ch == '\\' { escape := true; }
        else if ch == quote { quote := ' '; }
      } else if IsQuote(ch) {
        quote := ch;
      } else if ch == open {
        depth := depth + 1;
      } else if ch == close {
        depth := depth - 1;
        if depth == 0 { return i; }
      }
    }
    return -1;
  }

  /** `_matching_paren` of the lexer: from a closing position backwards. */
  method MatchingParenBackward(t: seq<char>, closePos: int) returns (r: int)
    requires closePos < |t|
    ensures r == if closePos < 0 then -1 else Backward(t, '(', ')', closePos + 1, 0, ' ', false)
  {
    if closePos < 0 { return -1; }
    var depth, quote, escape := 0, ' ', false;
    var i := closePos;
    while i >= 0
      invariant -1 <= i <= closePos
      invariant Backward(t, '(', ')', closePos + 1, 0, ' ', false) == Backward(t, '(', ')', i + 1, depth, quote, escape)
    {
      var ch := t[i];
      if quote != ' ' {
        if escape { escape := false; }
        else if ch == '\\' { escape := true; }
        else if ch == quote { quote := ' '; }
        i := i - 1;
        continue;
      }
      if IsQuote(ch) {
        quote := ch;
        i := i - 1;
        continue;
      }
      if ch == ')' {
        depth := depth + 1;
      } else if ch == '(' {
        depth := depth - 1;
        if depth == 0 { return i; }
      }
      i := i - 1;
    }
    return -1;
  }

  // ----- nesting -----

  ghost predicate QuoteFree(t: seq<char>)
  {
    forall k | 0 <= k < |t| :: !IsQuote(t[k])
  }

  /** Opening minus closing brackets from `i` up to `j`. */
  function Balance(t: seq<char>, open: char, close: char, i: nat, j: nat): int
    requires i <= j <= |t|
    decreases j - i
  {
    if i == j then 0
    else Balance(t, open, close, i, j - 1) + (if t[j - 1] == open then 1 else if t[j - 1] == close then -1 else 0)
  }

  lemma {:induction false} BalanceJoin(t: seq<char>, open: char, close: char, i: nat, j: nat, k: nat)
    requires i <= j <= k <= |t|
    ensures Balance(t, open, close, i, k) == Balance(t, open, close, i, j) + Balance(t, open, close, j, k)
    decreases k
  {
    if j < k { BalanceJoin(t, open, close, i, j, k - 1); }
  }

  /** `c` is where the nesting that `o` opens first comes back to zero. */
  ghost predicate Matched(t: seq<char>, open: char, close: char, o: nat, c: nat)
    requires o <= c < |t|
  {
    && Balance(t, open, close, o, c + 1) == 0
    && forall j | o < j <= c :: Balance(t, open, close, o, j) > 0
  }

  lemma {:induction false} ForwardFinds(t: seq<char>, open: char, close: char, o: nat, i: nat, c: nat)
    requires QuoteFree(t) && open != close && o < i <= |t| && o <= c < |t|
    requires forall j | o < j <= i :: Balance(t, open, close, o, j) > 0
    ensures Forward(t, open, close, i, Balance(t, open, close, o, i), ' ', false) == c <==>
            i <= c && Matched(t, open, close, o, c)
    decreases |t| - i
  {
    if i < |t| {
      var b := Balance(t, open, close, o, i + 1);
      if b > 0 {
        ForwardFinds(t, open, close, o, i + 1, c);
      } else {
        assert Balance(t, open, close, o, i) > 0 && b >= Balance(t, open, close, o, i) - 1;
        assert b == 0 && t[i] == close;
      }
    }
  }

  /** Read backwards from `end`, the nesting from `lo` on has not come back to zero. */
  ghost predicate StillClosed(t: seq<char>, open: char, close: char, lo: nat, end: nat)
    requires end <= |t|
  {
    forall j | lo <= j < end :: Balance(t, open, close, j, end) < 0
  }

  lemma {:induction false} BackwardFinds(t: seq<char>, open: char, close: char, end: nat, n: nat, o: nat)
    requires QuoteFree(t) && open != close && n < end <= |t| && o < end
    requires StillClosed(t, open, close, n, end)
    ensures Backward(t, open, close, n, -Balance(t, open, close, n, end), ' ', false) == o <==>
            o < n && Balance(t, open, close, o, end) == 0 && StillClosed(t, open, close, o + 1, end)
    decreases n
  {
    if n > 0 {
      BalanceJoin(t, open, close, n - 1, n, end);
      BalanceOne(t, open, close, n - 1);
      var b := Balance(t, open, close, n - 1, end);
      if b < 0 {
        BackwardFinds(t, open, close, end, n - 1, o);
      } else {
        assert t[n - 1] == open && b == 0;
      }
    }
  }

  lemma {:induction false} BalanceOne(t: seq<char>, open: char, close: char, i: nat)
    requires i < |t|
    ensures Balance(t, open, close, i, i + 1) == if t[i] == open then 1 else if t[i] == close then -1 else 0
  {
    assert Balance(t, open, close, i, i) == 0;
  }

  /** On quote-free text the forward scan from an opening bracket reports exactly the matching close. */
  lemma {:induction false} ForwardIsMatch(t: seq<char>, open: char, close: char, o: nat, c: nat)
    requires QuoteFree(t) && open != close && o <= c < |t| && t[o] == open && !IsQuote(open)
    ensures Forward(t, open, close, o, 0, ' ', false) == c <==> Matched(t, open, close, o, c)
  {
    BalanceOne(t, open, close, o);
    ForwardFinds(t, open, close, o, o + 1, c);
  }

  /** On quote-free text the backward scan from a closing bracket reports exactly the matching open. */
  lemma {:induction false} BackwardIsMatch(t: seq<char>, open: char, close: char, o: nat, c: nat)
    requires QuoteFree(t) && open != close && o <= c < |t| && t[c] == close && !IsQuote(close)
    ensures Backward(t, open, close, c + 1, 0, ' ', false) == o <==> Matched(t, open, close, o, c)
  {
    var end := c + 1;
    BalanceOne(t, open, close, c);
    BackwardFinds(t, open, close, end, c, o);
    forall j | o < j < end
      ensures Balance(t, open, close, o, end) == Balance(t, open, close, o, j) + Balance(t, open, close, j, end)
    {
      BalanceJoin(t, open, close, o, j, end);
    }
    if StillClosed(t, open, close, o + 1, end) && Balance(t, open, close, o, end) == 0 {
      forall j | o < j <= c ensures Balance(t, open, close, o, j) > 0 {
        assert Balance(t, open, close, j, end) < 0;
      }
    }
  }

  /** The two scans are inverse to each other on quote-free text. */
  lemma {:induction false} ScansAreInverse(t: seq<char>, o: nat, c: nat)
    requires QuoteFree(t) && o <= c < |t| && t[o] == '(' && t[c] == ')'
    ensures Forward(t, '(', ')', o, 0, ' ', false) == c <==> Backward(t, '(', ')', c + 1, 0, ' ', false) == o
    ensures Forward(t, '(', ')', o, 0, ' ', false) == c <==> Matched(t, '(', ')', o, c)
  {
    ForwardIsMatch(t, '(', ')', o, c);
    BackwardIsMatch(t, '(', ')', o, c);
  }

  /** Masked text is quote-free, so there the scans always are inverse. */
  lemma {:induction false} ScansAreInverseOnMasked(t: seq<char>, o: nat, c: nat)
    requires o <= c < |t| && |Mask(t)| == |t| && Mask(t)[o] == '(' && Mask(t)[c] == ')'
    ensures Forward(Mask(t), '(', ')', o, 0, ' ', false) == c <==>
            Backward(Mask(t), '(', ')', c + 1, 0, ' ', false) == o
  {
    MaskFromOpensNothing(t, 0, Code);
    ScansAreInverse(Mask(t), o, c);
  }

  /** With quotes they need not be: reading an escaped quote backwards, the escape comes too late. */
  lemma {:induction false} ScansDifferOnQuotes()
    ensures var t := ['(', '"', '\\', '"', '"', ')'];
            Forward(t, '(', ')', 0, 0, ' ', false) == 5 && Backward(t, '(', ')', 6, 0, ' ', false) == -1
  {
    var t := ['(', '"', '\\', '"', '"', ')'];
    assert Forward(t, '(', ')', 4, 1, '"', false) == 5;
    assert Forward(t, '(', ')', 2, 1, '"', false) == 5;
    assert Backward(t, '(', ')', 3, 1, ' ', false) == Backward(t, '(', ')', 1, 1, '"', false) == -1;
    assert Backward(t, '(', ')', 5, 1, ' ', false) == Backward(t, '(', ')', 3, 1, ' ', false);
  }
}
