/** Packing the values of template dimensions into a tiling key. */
module TilingKey {
  import opened Wrappers

  // ----- bits of unbounded integers -----

  function Pow2(n: nat): (p: nat)
    ensures p > 0
  {
    if n == 0 then 1 else 2 * Pow2(n - 1)
  }

  /** `a & b`, bit by bit; a negative `a` has infinitely many ones in front. */
  function And(a: int, b: nat): nat
    decreases b
  {
    if b == 0 then 0 else 2 * And(a / 2, b / 2) + (a % 2) * (b % 2)
  }

  /** `a | b`, bit by bit. */
  function Or(a: nat, b: nat): nat
    decreases a + b
  {
    if a == 0 && b == 0 then 0
    else 2 * Or(a / 2, b / 2) + (if a % 2 == 1 || b % 2 == 1 then 1 else 0)
  }

  /** `1 << n` minus one: a mask of `n` ones. */
  function Mask(n: nat): nat { Pow2(n) - 1 }

  lemma {:induction false} HalfMod(a: int, p: nat)
    requires p > 0
    ensures a % (2 * p) == 2 * ((a / 2) % p) + a % 2
  {
    var h, q := a / 2, (a / 2) / p;
    assert a == 2 * h + a % 2 && h == p * q + h % p;
    var r := 2 * (h % p) + a % 2;
    assert a == (2 * p) * q + r by { assert (2 * p) * q == 2 * (p * q); }
    ModUnique(a, 2 * p, q, r);
  }

  lemma {:induction false} ModUnique(a: int, d: nat, q: int, r: int)
    requires d > 0 && a == d * q + r && 0 <= r < d
    ensures a / d == q && a % d == r
  {
    var q', r' := a / d, a % d;
    assert a == d * q' + r';
    assert d * (q - q') == r' - r by { assert d * (q - q') == d * q - d * q'; }
    if q > q' {
      MulAtLeast(d, q - q');
    } else if q < q' {
      assert d * (q' - q) == r - r';
      MulAtLeast(d, q' - q);
    }
  }

  lemma {:induction false} MulAtLeast(d: nat, k: int)
    requires k >= 1
    ensures d * k >= d
  {
  }

  /** Masking takes the remainder, for negative numbers too. */
  lemma {:induction false} AndMask(a: int, n: nat)
    ensures And(a, Mask(n)) == a % Pow2(n)
    decreases n
  {
    if n > 0 {
      var m := Mask(n);
      assert m == 2 * Mask(n - 1) + 1;
      assert m / 2 == Mask(n - 1) && m % 2 == 1;
      AndMask(a / 2, n - 1);
      HalfMod(a, Pow2(n - 1));
    }
  }

  /** Setting bits above all others adds them. */
  lemma {:induction false} OrAbove(a: nat, b: nat, n: nat)
    requires a < Pow2(n)
    ensures Or(a, b * Pow2(n)) == a + b * Pow2(n)
    decreases n
  {
    if n == 0 {
      OrZero(b);
    } else {
      var p := Pow2(n - 1);
      var c := b * Pow2(n);
      assert c == 2 * (b * p);
      assert c / 2 == b * p && c % 2 == 0;
      OrAbove(a / 2, b, n - 1);
      assert a == 2 * (a / 2) + a % 2;
    }
  }

  lemma {:induction false} OrZero(b: nat)
    ensures Or(0, b) == b
    decreases b
  {
    if b > 0 { OrZero(b / 2); }
  }

  // ----- dimensions -----

  datatype Kind = Uint | Bool | Literal

  datatype Dim = Dim(name: string, kind: Kind, bw: nat, domain: seq<string>)

  datatype Error = NotInDomain(name: string, raw: string) | NotAnInteger(raw: string) | TooWide(bits: nat)

  datatype Result<+T> = Ok(value: T) | Err(error: Error)

  /** The first place of a value in a domain. */
  function IndexOf(domain: seq<string>, raw: string): (r: Option<nat>)
    ensures r.Some? ==> r.value < |domain| && domain[r.value] == raw
    ensures r.None? <==> raw !in domain
  {
    if domain == [] then None
    else if domain[0] == raw then Some(0)
    else match IndexOf(domain[1..], raw)
      case Some(i) => Some(i + 1)
      case None => None
  }

  /** `toInt` is what `int()` makes of a text. */
  function EncodeDim(d: Dim, raw: string, toInt: string -> Option<int>): Result<int>
  {
    match d.kind
    case Uint => (match IndexOf(d.domain, raw) case Some(i) => Ok(i) case None => Err(NotInDomain(d.name, raw)))
    case Bool => Ok(if raw in {"1", "true", "True"} then 1 else 0)
    case Literal => (match toInt(raw) case Some(n) => Ok(n) case None => Err(NotAnInteger(raw)))
  }

  /** The value an instance gives a dimension, or the dimension's default. */
  function RawOf(d: Dim, instance: map<string, string>): string
  {
    if d.name in instance then instance[d.name]
    else if d.domain != [] then d.domain[0] else "0"
  }

  function Total(dims: seq<Dim>): nat
  {
    if dims == [] then 0 else dims[0].bw + Total(dims[1..])
  }

  /** All encodings in order, or the first error. */
  function Encodings(dims: seq<Dim>, instance: map<string, string>, toInt: string -> Option<int>): (r: Result<seq<int>>)
    ensures r.Ok? ==> |r.value| == |dims|
  {
    if dims == [] then Ok([])
    else match EncodeDim(dims[0], RawOf(dims[0], instance), toInt)
      case Err(e) => Err(e)
      case Ok(n) =>
        match Encodings(dims[1..], instance, toInt)
        case Err(e) => Err(e)
        case Ok(ns) => Ok([n] + ns)
  }

  /** The fields side by side, the first in the lowest bits. */
  function Packed(dims: seq<Dim>, encs: seq<int>): nat
    requires |dims| == |encs|
  {
    if dims == [] then 0
    else encs[0] % Pow2(dims[0].bw) + Pow2(dims[0].bw) * Packed(dims[1..], encs[1..])
  }

  function KeyOf(dims: seq<Dim>, instance: map<string, string>, toInt: string -> Option<int>): Result<nat>
  {
    match Encodings(dims, instance, toInt)
    case Err(e) => Err(e)
    case Ok(encs) => if Total(dims) > 64 then Err(TooWide(Total(dims))) else Ok(Packed(dims, encs))
  }

  // ----- the loop over the dimensions -----

  lemma {:induction false} PowAdd(a: nat, b: nat)
    ensures Pow2(a + b) == Pow2(a) * Pow2(b)
    decreases a
  {
    if a > 0 { PowAdd(a - 1, b); }
  }

  lemma {:induction false} TotalSnoc(dims: seq<Dim>, d: Dim)
    ensures Total(dims + [d]) == Total(dims) + d.bw
    decreases dims
  {
    if dims == [] {
      assert dims + [d] == [d] && [d][1..] == [];
    } else {
      TotalSnoc(dims[1..], d);
      assert (dims + [d])[1..] == dims[1..] + [d];
    }
  }

  lemma {:induction false} PackedSnoc(dims: seq<Dim>, encs: seq<int>, d: Dim, n: int)
    requires |dims| == |encs|
    ensures Packed(dims + [d], encs + [n]) == Packed(dims, encs) + (n % Pow2(d.bw)) * Pow2(Total(dims))
    decreases dims
  {
    if dims == [] {
      assert dims + [d] == [d] && encs + [n] == [n];
      assert Packed([d], [n]) == n % Pow2(d.bw) + Pow2(d.bw) * Packed([], []);
    } else {
      PackedSnoc(dims[1..], encs[1..], d, n);
      PackedFirst(dims, encs, d, n);
      PowAdd(dims[0].bw, Total(dims[1..]));
      Regroup(Pow2(dims[0].bw), Packed(dims[1..], encs[1..]), n % Pow2(d.bw), Pow2(Total(dims[1..])));
    }
  }

  lemma {:induction false} PackedFirst(dims: seq<Dim>, encs: seq<int>, d: Dim, n: int)
    requires |dims| == |encs| && dims != []
    ensures Packed(dims + [d], encs + [n]) ==
            encs[0] % Pow2(dims[0].bw) + Pow2(dims[0].bw) * Packed(dims[1..] + [d], encs[1..] + [n])
  {
    assert (dims + [d])[1..] == dims[1..] + [d] && (encs + [n])[1..] == encs[1..] + [n];
  }

  lemma {:induction false} Regroup(p: nat, a: nat, m: nat, q: nat)
    ensures p * (a + m * q) == p * a + m * (p * q)
  {
    assert p * (a + m * q) == p * a + p * (m * q);
    assert p * (m * q) == (p * m) * q == (m * p) * q == m * (p * q);
  }

  /** The key fits into the bits of the dimensions. */
  lemma {:induction false} PackedFits(dims: seq<Dim>, encs: seq<int>)
    requires |dims| == |encs|
    ensures Packed(dims, encs) < Pow2(Total(dims))
    decreases dims
  {
    if dims != [] {
      PackedFits(dims[1..], encs[1..]);
      PowAdd(dims[0].bw, Total(dims[1..]));
      FitsBeside(encs[0] % Pow2(dims[0].bw), Pow2(dims[0].bw), Packed(dims[1..], encs[1..]), Pow2(Total(dims[1..])));
    }
  }

  lemma {:induction false} FitsBeside(low: nat, p: nat, k: nat, t: nat)
    requires low < p && k < t
    ensures low + p * k < p * t
  {
    MulMonotone(p, k, t - 1);
    assert p * (t - 1) == p * t - p;
  }

  lemma {:induction false} MulMonotone(p: nat, a: nat, b: nat)
    requires a <= b
    ensures p * a <= p * b
  {
  }

  lemma {:induction false} EncodingsSnoc(
    dims: seq<Dim>, d: Dim, instance: map<string, string>, toInt: string -> Option<int>)
    ensures Encodings(dims + [d], instance, toInt) ==
            match Encodings(dims, instance, toInt)
            case Err(e) => Err(e)
            case Ok(ns) =>
              match EncodeDim(d, RawOf(d, instance), toInt)
              case Err(e) => Err(e)
              case Ok(n) => Ok(ns + [n])
    decreases dims
  {
    if dims == [] {
      assert dims + [d] == [d] && [d][1..] == [];
      var e := EncodeDim(d, RawOf(d, instance), toInt);
      if e.Ok? { assert [e.value] + [] == [] + [e.value]; }
    } else {
      EncodingsSnoc(dims[1..], d, instance, toInt);
      assert (dims + [d])[0] == dims[0] && (dims + [d])[1..] == dims[1..] + [d];
      var first, ns, last := EncodeDim(dims[0], RawOf(dims[0], instance), toInt), Encodings(dims[1..], instance, toInt),
                             EncodeDim(d, RawOf(d, instance), toInt);
      if first.Ok? && ns.Ok? && last.Ok? {
        assert [first.value] + (ns.value + [last.value]) == [first.value] + ns.value + [last.value];
      }
    }
  }

  lemma {:induction false} EncodingsErr(
    dims: seq<Dim>, k: nat, instance: map<string, string>, toInt: string -> Option<int>)
    requires k <= |dims| && Encodings(dims[..k], instance, toInt).Err?
    ensures Encodings(dims, instance, toInt) == Encodings(dims[..k], instance, toInt)
    decreases k
  {
    if k > 0 {
      assert dims[..k][0] == dims[0] && dims[..k][1..] == dims[1..][..k - 1];
      if EncodeDim(dims[0], RawOf(dims[0], instance), toInt).Ok? { EncodingsErr(dims[1..], k - 1, instance, toInt); }
    }
  }

  /** An encoding cut down to `bw` bits, above the first `shift` bits. */
  function Field(n: int, bw: nat, shift: nat): (f: nat)
    ensures f == (n % Pow2(bw)) * Pow2(shift)
  {
    AndMask(n, bw);
    And(n, Mask(bw)) * Pow2(shift)
  }

  /** Masking the encoding and or-ing it in above the fields so far packs one more field. */
  lemma {:induction false} FieldPacked(dims: seq<Dim>, encs: seq<int>, d: Dim, n: int)
    requires |dims| == |encs|
    ensures Or(Packed(dims, encs), Field(n, d.bw, Total(dims))) == Packed(dims + [d], encs + [n])
  {
    PackedFits(dims, encs);
    PackedSnoc(dims, encs, d, n);
    OrAbove(Packed(dims, encs), n % Pow2(d.bw), Total(dims));
  }

  /** The first `i` dimensions are packed. */
  ghost predicate PackedSoFar(
    dims: seq<Dim>, i: nat, instance: map<string, string>, toInt: string -> Option<int>, encs: seq<int>, key: nat,
    shift: nat)
  {
    && i <= |dims| && Encodings(dims[..i], instance, toInt) == Ok(encs)
    && shift == Total(dims[..i]) && key == Packed(dims[..i], encs)
  }

  /** One turn of the loop packs one more field. */
  lemma {:induction false} FieldStep(
    dims: seq<Dim>, i: nat, instance: map<string, string>, toInt: string -> Option<int>, encs: seq<int>, key: nat,
    shift: nat, n: int)
    requires i < |dims| && PackedSoFar(dims, i, instance, toInt, encs, key, shift)
    requires EncodeDim(dims[i], RawOf(dims[i], instance), toInt) == Ok(n)
    ensures PackedSoFar(dims, i + 1, instance, toInt, encs + [n], Or(key, Field(n, dims[i].bw, shift)),
                        shift + dims[i].bw)
  {
    var d := dims[i];
    assert dims[..i + 1] == dims[..i] + [d];
    EncodingsSnoc(dims[..i], d, instance, toInt);
    TotalSnoc(dims[..i], d);
    FieldPacked(dims[..i], encs, d, n);
  }

  /** The first error is that of all the dimensions. */
  lemma {:induction false} ErrorStep(
    dims: seq<Dim>, i: nat, instance: map<string, string>, toInt: string -> Option<int>, encs: seq<int>, e: Error)
    requires i < |dims| && Encodings(dims[..i], instance, toInt) == Ok(encs)
    requires EncodeDim(dims[i], RawOf(dims[i], instance), toInt) == Err(e)
    ensures KeyOf(dims, instance, toInt) == Err(e)
  {
    assert dims[..i + 1] == dims[..i] + [dims[i]];
    EncodingsSnoc(dims[..i], dims[i], instance, toInt);
    EncodingsErr(dims, i + 1, instance, toInt);
  }

  lemma {:induction false} KeyStep(
    dims: seq<Dim>, i: nat, instance: map<string, string>, toInt: string -> Option<int>, encs: seq<int>, key: nat,
    shift: nat)
    requires i < |dims| && PackedSoFar(dims, i, instance, toInt, encs, key, shift)
    ensures match EncodeDim(dims[i], RawOf(dims[i], instance), toInt)
            case Err(e) => KeyOf(dims, instance, toInt) == Err(e)
            case Ok(n) =>
              PackedSoFar(dims, i + 1, instance, toInt, encs + [n], Or(key, Field(n, dims[i].bw, shift)),
                          shift + dims[i].bw)
  {
    match EncodeDim(dims[i], RawOf(dims[i], instance), toInt)
    case Err(e) => ErrorStep(dims, i, instance, toInt, encs, e);
    case Ok(n) => FieldStep(dims, i, instance, toInt, encs, key, shift, n);
  }

  method EncodeKey(dims: seq<Dim>, instance: map<string, string>, toInt: string -> Option<int>) returns (r: Result<nat>)
    ensures r == KeyOf(dims, instance, toInt)
  {
    var key: nat, shift: nat := 0, 0;
    ghost var encs: seq<int> := [];
    for i := 0 to |dims|
      invariant PackedSoFar(dims, i, instance, toInt, encs, key, shift)
    {
      var d := dims[i];
      var encoded := EncodeDim(d, RawOf(d, instance), toInt);
      KeyStep(dims, i, instance, toInt, encs, key, shift);
      if encoded.Err? { return Err(encoded.error); }
      key := Or(key, Field(encoded.value, d.bw, shift));
      shift := shift + d.bw;
      encs := encs + [encoded.value];
    }
    assert dims[..|dims|] == dims;
    if shift > 64 { return Err(TooWide(shift)); }
    return Ok(key);
  }

  // ----- what a key says -----

  lemma {:induction false} PowMonotone(a: nat, b: nat)
    requires a <= b
    ensures Pow2(a) <= Pow2(b)
    decreases b
  {
    if a < b { PowMonotone(a, b - 1); }
  }

  /** A key that is returned fits into the bits of its dimensions, and so into 64 bits. */
  lemma {:induction false} KeyFits(dims: seq<Dim>, instance: map<string, string>, toInt: string -> Option<int>)
    requires KeyOf(dims, instance, toInt).Ok?
    ensures KeyOf(dims, instance, toInt).value < Pow2(Total(dims)) <= Pow2(64)
  {
    PackedFits(dims, Encodings(dims, instance, toInt).value);
    PowMonotone(Total(dims), 64);
  }

  function Offset(dims: seq<Dim>, k: nat): nat
    requires k <= |dims|
  {
    Total(dims[..k])
  }

  /** A field is found again by shift and mask, as its encoding modulo 2^bw. */
  lemma {:induction false} FieldIsRecovered(dims: seq<Dim>, encs: seq<int>, k: nat)
    requires |dims| == |encs| && k < |dims|
    ensures And(Packed(dims, encs) / Pow2(Offset(dims, k)), Mask(dims[k].bw)) == encs[k] % Pow2(dims[k].bw)
    decreases k
  {
    var p, rest := Pow2(dims[0].bw), Packed(dims[1..], encs[1..]);
    var low := encs[0] % p;
    if k == 0 {
      assert dims[..0] == [];
      ModUnique(low + p * rest, p, rest, low);
      AndMask(low + p * rest, dims[0].bw);
    } else {
      FieldIsRecovered(dims[1..], encs[1..], k - 1);
      OffsetBehind(dims, k);
      ShiftTwice(low, p, rest, Pow2(Offset(dims[1..], k - 1)));
    }
  }

  lemma {:induction false} OffsetBehind(dims: seq<Dim>, k: nat)
    requires 0 < k <= |dims|
    ensures Pow2(Offset(dims, k)) == Pow2(dims[0].bw) * Pow2(Offset(dims[1..], k - 1))
  {
    assert dims[..k][0] == dims[0] && dims[..k][1..] == dims[1..][..k - 1];
    PowAdd(dims[0].bw, Offset(dims[1..], k - 1));
  }

  /** Shifting past the first field and then past the fields behind it. */
  lemma {:induction false} ShiftTwice(low: nat, p: nat, rest: nat, q: nat)
    requires low < p && q > 0
    ensures p * q > 0 && (low + p * rest) / (p * q) == rest / q
  {
    ModUnique(low + p * rest, p, rest, low);
    DivDiv(low + p * rest, p, q);
  }

  lemma {:induction false} DivDiv(a: nat, p: nat, q: nat)
    requires p > 0 && q > 0
    ensures p * q > 0 && (a / p) / q == a / (p * q)
  {
    var h, low := a / p, a % p;
    var g, mid := h / q, h % q;
    MulAtLeast(p, q);
    Nested(a, p, q, h, low, g, mid);
    ModUnique(a, p * q, g, p * mid + low);
  }

  lemma {:induction false} Nested(a: nat, p: nat, q: nat, h: nat, low: nat, g: nat, mid: nat)
    requires a == p * h + low && h == q * g + mid && low < p && mid < q
    ensures a == (p * q) * g + (p * mid + low) && p * mid + low < p * q
  {
    Regroup(p, mid, g, q);
    assert g * (p * q) == (p * q) * g;
    MulMonotone(p, mid, q - 1);
    assert p * (q - 1) == p * q - p;
  }

  /** Two keys of the same dimensions are equal iff every field agrees. */
  lemma {:induction false} KeysAgreeIff(dims: seq<Dim>, encs: seq<int>, encs': seq<int>)
    requires |dims| == |encs| == |encs'|
    ensures Packed(dims, encs) == Packed(dims, encs') <==>
            forall k | 0 <= k < |dims| :: encs[k] % Pow2(dims[k].bw) == encs'[k] % Pow2(dims[k].bw)
    decreases dims
  {
    if Packed(dims, encs) == Packed(dims, encs') {
      forall k | 0 <= k < |dims| ensures encs[k] % Pow2(dims[k].bw) == encs'[k] % Pow2(dims[k].bw) {
        FieldIsRecovered(dims, encs, k);
        FieldIsRecovered(dims, encs', k);
      }
    } else {
      assert forall k | 0 <= k < |dims[1..]| ::
          dims[1..][k] == dims[k + 1] && encs[1..][k] == encs[k + 1] && encs'[1..][k] == encs'[k + 1];
      KeysAgreeIff(dims[1..], encs[1..], encs'[1..]);
    }
  }

  lemma {:induction false} EncodingAt(
    dims: seq<Dim>, instance: map<string, string>, toInt: string -> Option<int>, k: nat)
    requires Encodings(dims, instance, toInt).Ok? && k < |dims|
    ensures EncodeDim(dims[k], RawOf(dims[k], instance), toInt) == Ok(Encodings(dims, instance, toInt).value[k])
    decreases k
  {
    if k > 0 { EncodingAt(dims[1..], instance, toInt, k - 1); }
  }

  lemma {:induction false} SmallMod(a: nat, d: nat)
    requires a < d
    ensures a % d == a
  {
  }

  /** Instances with the same key give each enumerated dimension whose domain fits its bits the same value. */
  lemma {:induction false} SameKeySameValue(
    dims: seq<Dim>, a: map<string, string>, b: map<string, string>, toInt: string -> Option<int>, k: nat)
    requires KeyOf(dims, a, toInt).Ok? && KeyOf(dims, a, toInt) == KeyOf(dims, b, toInt)
    requires k < |dims| && dims[k].kind == Uint && |dims[k].domain| <= Pow2(dims[k].bw)
    ensures RawOf(dims[k], a) == RawOf(dims[k], b)
  {
    var encs, encs' := Encodings(dims, a, toInt).value, Encodings(dims, b, toInt).value;
    KeysAgreeIff(dims, encs, encs');
    EncodingAt(dims, a, toInt, k);
    EncodingAt(dims, b, toInt, k);
    SmallMod(encs[k], Pow2(dims[k].bw));
    SmallMod(encs'[k], Pow2(dims[k].bw));
  }

  ghost predicate DistinctValues(domain: seq<string>)
  {
    forall i, j | 0 <= i < j < |domain| :: domain[i] != domain[j]
  }

  lemma {:induction false} IndexOfDistinct(domain: seq<string>, i: nat)
    requires DistinctValues(domain) && i < |domain|
    ensures IndexOf(domain, domain[i]) == Some(i)
    decreases i
  {
    if i > 0 {
      assert domain[0] != domain[i];
      IndexOfDistinct(domain[1..], i - 1);
    }
  }

  /** Two values of an enumerated dimension share a field value iff the domain has more values than the bits can tell
      apart. */
  lemma {:induction false} FieldCollidesIff(d: Dim, toInt: string -> Option<int>)
    requires d.kind == Uint && DistinctValues(d.domain)
    ensures (exists v, w :: v in d.domain && w in d.domain && v != w
               && EncodeDim(d, v, toInt).value % Pow2(d.bw) == EncodeDim(d, w, toInt).value % Pow2(d.bw))
            <==> |d.domain| > Pow2(d.bw)
  {
    var p := Pow2(d.bw);
    if |d.domain| > p {
      var v, w := d.domain[0], d.domain[p];
      IndexOfDistinct(d.domain, 0);
      IndexOfDistinct(d.domain, p);
      assert v != w && 0 % p == p % p;
      assert EncodeDim(d, v, toInt).value % p == EncodeDim(d, w, toInt).value % p;
    }
    forall v, w | v in d.domain && w in d.domain && v != w && |d.domain| <= p
      ensures EncodeDim(d, v, toInt).value % p != EncodeDim(d, w, toInt).value % p
    {
      SmallMod(IndexOf(d.domain, v).value, p);
      SmallMod(IndexOf(d.domain, w).value, p);
    }
  }

  // ----- from an instance to the fields of its key -----

  /** The text an instance has for a dimension: its own, else the first of the domain, else a zero. */
  ghost predicate Gives(d: Dim, instance: map<string, string>, v: string)
  {
    || (d.name in instance && v == instance[d.name])
    || (d.name !in instance && d.domain != [] && v == d.domain[0])
    || (d.name !in instance && d.domain == [] && v == "0")
  }

  lemma {:induction false} GivesRaw(d: Dim, instance: map<string, string>, v: string)
    requires Gives(d, instance, v)
    ensures v == RawOf(d, instance)
  {
  }

  /** The first place of the text in the domain. */
  ghost predicate FirstAt(domain: seq<string>, i: nat, v: string)
  {
    i < |domain| && domain[i] == v && forall j | 0 <= j < i :: domain[j] != v
  }

  lemma {:induction false} IndexOfIff(domain: seq<string>, i: nat, v: string)
    ensures IndexOf(domain, v) == Some(i) <==> FirstAt(domain, i, v)
    decreases domain
  {
    if domain != [] && i > 0 {
      IndexOfIff(domain[1..], i - 1, v);
      if FirstAt(domain[1..], i - 1, v) && domain[0] != v {
        forall j | 0 <= j < i ensures domain[j] != v { if j > 0 { assert domain[1..][j - 1] == domain[j]; } }
      }
      if FirstAt(domain, i, v) {
        forall j | 0 <= j < i - 1 ensures domain[1..][j] != v { assert domain[1..][j] == domain[j + 1]; }
      }
    }
  }

  /** The number a field is to hold: the place in the domain, the truth of a flag, or the number itself. */
  ghost predicate Denotes(d: Dim, v: string, toInt: string -> Option<int>, n: int)
  {
    match d.kind
    case Uint => n >= 0 && FirstAt(d.domain, n, v)
    case Bool => (n == 1 && (v == "1" || v == "true" || v == "True")) ||
        (n == 0 && v != "1" && v != "true" && v != "True")
    case Literal => toInt(v) == Some(n)
  }

  /** What is wrong with a text. */
  ghost predicate Rejected(d: Dim, v: string, toInt: string -> Option<int>, e: Error)
  {
    || (d.kind == Uint && v !in d.domain && e == NotInDomain(d.name, v))
    || (d.kind == Literal && toInt(v) == None && e == NotAnInteger(v))
  }

  lemma {:induction false} EncodeDimIff(d: Dim, v: string, toInt: string -> Option<int>)
    ensures forall n :: EncodeDim(d, v, toInt) == Ok(n) <==> Denotes(d, v, toInt, n)
    ensures forall e :: EncodeDim(d, v, toInt) == Err(e) <==> Rejected(d, v, toInt, e)
  {
    forall n: nat ensures IndexOf(d.domain, v) == Some(n) <==> FirstAt(d.domain, n, v) { IndexOfIff(d.domain, n, v); }
  }

  /** Every field of a returned key, found by shift and mask, is the number its text denotes, cut to its width. */
  lemma {:induction false} FieldOfInstance(
    dims: seq<Dim>, instance: map<string, string>, toInt: string -> Option<int>, k: nat, v: string, n: int)
    requires KeyOf(dims, instance, toInt).Ok? && k < |dims| && Gives(dims[k], instance, v)
    requires Denotes(dims[k], v, toInt, n)
    ensures And(KeyOf(dims, instance, toInt).value / Pow2(Offset(dims, k)), Mask(dims[k].bw)) == n % Pow2(dims[k].bw)
  {
    var encs := Encodings(dims, instance, toInt).value;
    GivesRaw(dims[k], instance, v);
    EncodingAt(dims, instance, toInt, k);
    EncodeDimIff(dims[k], v, toInt);
    FieldIsRecovered(dims, encs, k);
  }

  /** The bit of a flag is set exactly when its text is one of the three that mean true. */
  lemma {:induction false} FlagBit(
    dims: seq<Dim>, instance: map<string, string>, toInt: string -> Option<int>, k: nat, v: string)
    requires KeyOf(dims, instance, toInt).Ok? && k < |dims| && Gives(dims[k], instance, v)
    requires dims[k].kind == Bool && dims[k].bw > 0
    ensures And(KeyOf(dims, instance, toInt).value / Pow2(Offset(dims, k)), Mask(dims[k].bw)) ==
            if v == "1" || v == "true" || v == "True" then 1 else 0
  {
    var n := if v == "1" || v == "true" || v == "True" then 1 else 0;
    FieldOfInstance(dims, instance, toInt, k, v, n);
    PowMonotone(1, dims[k].bw);
    assert Pow2(1) == 2;
    SmallMod(n, Pow2(dims[k].bw));
  }

  /** The texts of the first dimensions all denote numbers. */
  ghost predicate AllDenote(dims: seq<Dim>, instance: map<string, string>, toInt: string -> Option<int>, k: nat)
  {
    k <= |dims| && forall j | 0 <= j < k :: DenotesSome(dims[j], instance, toInt)
  }

  ghost predicate DenotesSome(d: Dim, instance: map<string, string>, toInt: string -> Option<int>)
  {
    exists v, n :: Gives(d, instance, v) && Denotes(d, v, toInt, n)
  }

  ghost predicate RejectedHere(d: Dim, instance: map<string, string>, toInt: string -> Option<int>, e: Error)
  {
    exists v :: Gives(d, instance, v) && Rejected(d, v, toInt, e)
  }

  lemma {:induction false} DenotesSomeIff(d: Dim, instance: map<string, string>, toInt: string -> Option<int>)
    ensures DenotesSome(d, instance, toInt) <==> EncodeDim(d, RawOf(d, instance), toInt).Ok?
    ensures forall e :: RejectedHere(d, instance, toInt, e) <==> EncodeDim(d, RawOf(d, instance), toInt) == Err(e)
  {
    var raw := RawOf(d, instance);
    assert Gives(d, instance, raw);
    EncodeDimIff(d, raw, toInt);
  }

  ghost predicate FirstRejected(
    dims: seq<Dim>, instance: map<string, string>, toInt: string -> Option<int>, k: nat, e: Error)
  {
    k < |dims| && AllDenote(dims, instance, toInt, k) && RejectedHere(dims[k], instance, toInt, e)
  }

  lemma {:induction false} AllDenoteTail(
    dims: seq<Dim>, instance: map<string, string>, toInt: string -> Option<int>, k: nat)
    requires dims != [] && k > 0
    ensures AllDenote(dims, instance, toInt, k) <==>
            DenotesSome(dims[0], instance, toInt) && AllDenote(dims[1..], instance, toInt, k - 1)
  {
    if DenotesSome(dims[0], instance, toInt) && AllDenote(dims[1..], instance, toInt, k - 1) {
      forall j | 0 <= j < k ensures DenotesSome(dims[j], instance, toInt) {
        if j > 0 { assert dims[1..][j - 1] == dims[j]; }
      }
    }
    if AllDenote(dims, instance, toInt, k) {
      forall j | 0 <= j < k - 1 ensures DenotesSome(dims[1..][j], instance, toInt) {
        assert dims[1..][j] == dims[j + 1];
      }
    }
  }

  lemma {:induction false} FirstRejectedTail(
    dims: seq<Dim>, instance: map<string, string>, toInt: string -> Option<int>, e: Error)
    requires dims != []
    ensures (exists k: nat :: FirstRejected(dims, instance, toInt, k, e)) <==>
            || RejectedHere(dims[0], instance, toInt, e)
            || (DenotesSome(dims[0], instance, toInt)
                && exists k: nat :: FirstRejected(dims[1..], instance, toInt, k, e))
  {
    if k: nat :| FirstRejected(dims, instance, toInt, k, e) {
      if k > 0 {
        AllDenoteTail(dims, instance, toInt, k);
        assert FirstRejected(dims[1..], instance, toInt, k - 1, e);
      }
    }
    if RejectedHere(dims[0], instance, toInt, e) { assert FirstRejected(dims, instance, toInt, 0, e); }
    if k: nat :| DenotesSome(dims[0], instance, toInt) && FirstRejected(dims[1..], instance, toInt, k, e) {
      AllDenoteTail(dims, instance, toInt, k + 1);
      assert FirstRejected(dims, instance, toInt, k + 1, e);
    }
  }

  lemma {:induction false} EncodingsIff(
    dims: seq<Dim>, instance: map<string, string>, toInt: string -> Option<int>, e: Error)
    ensures Encodings(dims, instance, toInt).Ok? <==> AllDenote(dims, instance, toInt, |dims|)
    ensures Encodings(dims, instance, toInt) == Err(e) <==> exists k: nat :: FirstRejected(dims, instance, toInt, k, e)
    decreases dims
  {
    if dims != [] {
      DenotesSomeIff(dims[0], instance, toInt);
      EncodingsIff(dims[1..], instance, toInt, e);
      AllDenoteTail(dims, instance, toInt, |dims|);
      FirstRejectedTail(dims, instance, toInt, e);
    }
  }

  /** No key is returned exactly when some text denotes no number, and the first such is named; or when the fields
      together are wider than 64 bits, and their width is. */
  lemma {:induction false} KeyFailsIff(
    dims: seq<Dim>, instance: map<string, string>, toInt: string -> Option<int>, e: Error)
    ensures KeyOf(dims, instance, toInt) == Err(e) <==>
            || (exists k: nat :: FirstRejected(dims, instance, toInt, k, e))
            || (AllDenote(dims, instance, toInt, |dims|) && Total(dims) > 64 && e == TooWide(Total(dims)))
  {
    EncodingsIff(dims, instance, toInt, e);
  }
}
