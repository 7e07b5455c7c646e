/**
 The dimensions and the size of a bus sample, read from the flat vector that Simulink reports after compiling
 (library/GT_UpdateWriteBusToFile.m:70-115). The string becomes the dimensions field of a bus data file, the size
 the number of bytes that the recorder takes per sample.
 */
module Dimensions {
  import opened Bytes
  import opened DecimalText
  import opened Options
  import opened Separated

  type Text = seq<byte>

  const COMMA: byte := ',' as int
  const SPACE: byte := ' ' as int
  const OPEN: byte := '[' as int
  const CLOSE: byte := ']' as int
  const MINUS: byte := '-' as int

  // ---- Saturating arithmetic of MATLAB's uint32 ----

  const MAX: uint32 := UINT32_LIMIT - 1

  function Saturated(x: int): uint32 { if x < 0 then 0 else if x > MAX then MAX else x }

  function Times(a: uint32, b: int): uint32 { Saturated(a * b) }
  function Plus(a: uint32, b: uint32): uint32 { Saturated(a + b) }

  /** The type names of the switch; `Other` is any further name, such as that of an enumeration. */
  datatype TypeName =
    | Boolean | Logical | UInt8 | Int8 | UInt16 | Int16 | UInt32 | Int32 | UInt64 | Int64 | Single | Double
    | Other(name: string)

  /** Zero stands for an unsupported type, which the source reports in a dialog before it goes on. */
  function SizeOfType(t: TypeName): uint32 {
    match t
    case Boolean | Logical | UInt8 | Int8 => 1
    case UInt16 | Int16 => 2
    case UInt32 | Int32 | Single => 4
    case UInt64 | Int64 | Double => 8
    case Other(_) => 0
  }

  // ---- What the types are ----

  function Power(base: nat, e: nat): nat { if e == 0 then 1 else base * Power(base, e - 1) }

  /** The least and the greatest value of an integer type. */
  function Range(t: TypeName): (int, int) {
    match t
    case UInt8 => (0, 255)
    case Int8 => (-128, 127)
    case UInt16 => (0, 65535)
    case Int16 => (-32768, 32767)
    case UInt32 => (0, 4294967295)
    case Int32 => (-2147483648, 2147483647)
    case UInt64 => (0, 18446744073709551615)
    case Int64 => (-9223372036854775808, 9223372036854775807)
    case _ => (0, 1)
  }

  /**
   How many different values a type has to store: false and true, the integers of its range, or the bit patterns of
   sign, exponent and fraction of a number in the binary formats of IEEE 754.
   */
  function NumValues(t: TypeName): nat {
    match t
    case Single => Power(2, 1 + 8 + 23)
    case Double => Power(2, 1 + 11 + 52)
    case Other(_) => 0
    case _ => var (lo, hi) := Range(t); if lo <= hi then hi - lo + 1 else 0
  }

  /** The least number of bytes from n on that can tell k values apart. */
  function BytesFrom(n: nat, k: nat): nat
    requires n <= k
    decreases k - n
  {
    if n == k || Power(256, n) >= k then n else BytesFrom(n + 1, k)
  }

  /** The bytes that a value of a supported type takes in a sample. */
  function TypeBytes(t: TypeName): nat { if t.Other? then 0 else BytesFrom(0, NumValues(t)) }

  lemma {:induction false} PowerSum(base: nat, a: nat, b: nat)
    ensures Power(base, a + b) == Power(base, a) * Power(base, b)
  {
    if a > 0 {
      PowerSum(base, a - 1, b);
      var (x, y) := (Power(base, a - 1), Power(base, b));
      assert base * (x * y) == (base * x) * y;
    }
  }

  lemma PowersOf256()
    ensures Power(256, 0) == 1 && Power(256, 1) == 0x100 && Power(256, 2) == 0x1_0000 && Power(256, 3) == 0x100_0000
    ensures Power(256, 4) == 0x1_0000_0000 && Power(256, 7) == 0x100_0000_0000_0000
    ensures Power(256, 5) == 0x100_0000_0000 && Power(256, 6) == 0x1_0000_0000_0000
    ensures Power(256, 8) == 0x1_0000_0000_0000_0000
  {
    assert Power(256, 1) == 256 * Power(256, 0);
    assert Power(256, 2) == 256 * Power(256, 1);
    assert Power(256, 3) == 256 * Power(256, 2);
    assert Power(256, 4) == 256 * Power(256, 3);
    assert Power(256, 5) == 256 * Power(256, 4);
    assert Power(256, 6) == 256 * Power(256, 5);
    assert Power(256, 7) == 256 * Power(256, 6);
    assert Power(256, 8) == 256 * Power(256, 7);
  }

  lemma PowersOf2()
    ensures Power(2, 32) == 0x1_0000_0000 && Power(2, 64) == 0x1_0000_0000_0000_0000
  {
    assert Power(2, 1) == 2 * Power(2, 0) && Power(2, 2) == 2 * Power(2, 1);
    PowerSum(2, 2, 2);
    PowerSum(2, 4, 4);
    PowerSum(2, 8, 8);
    PowerSum(2, 16, 16);
    PowerSum(2, 32, 32);
  }

  lemma {:induction false} LeastBytes(from: nat, n: nat, k: nat)
    requires from <= n <= k && Power(256, n) >= k && forall m :: from <= m < n ==> Power(256, m) < k
    ensures BytesFrom(from, k) == n
    decreases n - from
  {
    if from < n { LeastBytes(from + 1, n, k); }
  }

  /**
   The table of the program is right: for every supported type its entry is the least number of bytes that can hold
   all values of the type.
   */
  lemma SizeExactly(t: TypeName)
    ensures SizeOfType(t) == TypeBytes(t)
  {
    PowersOf256();
    PowersOf2();
    match t
    case Boolean | Logical => LeastBytes(0, 1, 2);
    case UInt8 | Int8 => LeastBytes(0, 1, 0x100);
    case UInt16 | Int16 => LeastBytes(0, 2, 0x1_0000);
    case UInt32 | Int32 | Single => LeastBytes(0, 4, 0x1_0000_0000);
    case UInt64 | Int64 | Double => EightBytes();
    case Other(_) =>
  }

  lemma EightBytes()
    ensures BytesFrom(0, 0x1_0000_0000_0000_0000) == 8
  {
    PowersOf256();
    forall m | 0 <= m < 8 ensures Power(256, m) < 0x1_0000_0000_0000_0000 {
      assert m == 0 || m == 1 || m == 2 || m == 3 || m == 4 || m == 5 || m == 6 || m == 7;
    }
    LeastBytes(0, 8, 0x1_0000_0000_0000_0000);
  }

  // ---- What is printed and counted ----

  /** num2str of an integer. */
  function Number(d: int): Text { if d < 0 then [MINUS] + Decimal(-d) else Decimal(d) }

  function PrintedSizes(v: seq<int>): Text {
    if v == [] then []
    else if |v| == 1 then Number(v[0])
    else PrintedSizes(v[..|v| - 1]) + [SPACE] + Number(v[|v| - 1])
  }

  function PrintedVector(v: seq<int>): Text { [OPEN] + PrintedSizes(v) + [CLOSE] }

  function Printed(vs: seq<seq<int>>): Text {
    if vs == [] then []
    else if |vs| == 1 then PrintedVector(vs[0])
    else Printed(vs[..|vs| - 1]) + [COMMA] + PrintedVector(vs[|vs| - 1])
  }

  function Positive(d: int): nat { if d < 0 then 0 else d }

  /** The number of elements of a signal. A negative entry saturates the unsigned product at zero. */
  function Product(v: seq<int>): nat { if v == [] then 1 else Product(v[..|v| - 1]) * Positive(v[|v| - 1]) }

  function Sizes(types: seq<TypeName>): (r: seq<uint32>)
    ensures |r| == |types| && forall i :: 0 <= i < |r| ==> r[i] == SizeOfType(types[i])
  {
    seq(|types|, i requires 0 <= i < |types| => SizeOfType(types[i]))
  }

  /** The true size of a sample. */
  function SampleSize(vs: seq<seq<int>>, sizes: seq<uint32>): nat
    requires |vs| <= |sizes|
  {
    if vs == [] then 0
    else SampleSize(vs[..|vs| - 1], sizes) + Product(vs[|vs| - 1]) * sizes[|vs| - 1]
  }

  // ---- The flat vector ----

  /** Signals one after the other, each as its number of dimensions and then their sizes. */
  function Flatten(vs: seq<seq<int>>): seq<int> { if vs == [] then [] else [|vs[0]|] + vs[0] + Flatten(vs[1..]) }

  /**
   The signals that the loop finds. It stops one element before the end, so a last signal without dimensions is not
   seen; a count that reaches over the end is an indexing error, and a negative count takes no sizes.
   */
  function Groups(flat: seq<int>): Option<seq<seq<int>>> { GroupsFrom(flat, 0) }

  function GroupsFrom(flat: seq<int>, i: nat): Option<seq<seq<int>>>
    requires i <= |flat|
    decreases |flat| - i
  {
    if i + 1 >= |flat| then Some([])
    else
      var end := i + 1 + Positive(flat[i]);
      if end > |flat| then None
      else
        match GroupsFrom(flat, end)
        case None => None
        case Some(rest) => Some([flat[i + 1..end]] + rest)
  }

  function Behind(seen: seq<seq<int>>, rest: Option<seq<seq<int>>>): Option<seq<seq<int>>> {
    match rest
    case None => None
    case Some(more) => Some(seen + more)
  }

  lemma ProductStep(s: uint32, v: seq<int>, d: int)
    requires s == Saturated(Product(v))
    ensures Times(s, d) == Saturated(Product(v + [d]))
  {
    assert (v + [d])[..|v|] == v;
    SaturatedFactor(Product(v), d);
  }

  lemma SaturatedFactor(p: nat, d: int)
    ensures Times(Saturated(p), d) == Saturated(p * Positive(d))
  {
    if d <= 0 {
      assert Saturated(p) * d <= 0;
    } else if p > MAX {
      ProductGrows(p, d);
      ProductGrows(MAX, d);
    }
  }

  lemma ProductGrows(a: nat, b: nat)
    requires b > 0
    ensures a * b >= a
  {
  }

  lemma SizesStep(dims: seq<int>, start: nat, i: nat)
    requires start <= i < |dims|
    ensures dims[start..i + 1] == dims[start..i] + [dims[i]]
    ensures PrintedSizes(dims[start..i + 1])
            == PrintedSizes(dims[start..i]) + (if i > start then [SPACE] else []) + Number(dims[i])
  {
    var v := dims[start..i + 1];
    assert v[..i - start] == dims[start..i] && v[i - start] == dims[i];
  }

  lemma SizeStep(total: nat, p: nat, size: uint32)
    ensures Plus(Saturated(total), Times(Saturated(p), size)) == Saturated(total + p * size)
  {
    if p > MAX && size > 0 {
      ProductGrows(p, size);
      ProductGrows(MAX, size);
    }
  }

  /** The inner loop: the n sizes from position i on. */
  method ExtractSizes(dims: seq<int>, i: nat, n: nat) returns (r: Option<(Text, uint32)>)
    requires i <= |dims|
    ensures r.Some? <==> i + n <= |dims|
    ensures r.Some? ==> r.value == (PrintedSizes(dims[i..i + n]), Saturated(Product(dims[i..i + n])))
  {
    var strDimensions: Text, numSignals: uint32 := [], 1;
    for k := 0 to n
      invariant i + k <= |dims|
      invariant strDimensions == PrintedSizes(dims[i..i + k])
      invariant numSignals == Saturated(Product(dims[i..i + k]))
    {
      if i + k >= |dims| { return None; }
      ProductStep(numSignals, dims[i..i + k], dims[i + k]);
      SizesStep(dims, i, i + k);
      numSignals := Times(numSignals, dims[i + k]);
      if k > 0 {
        strDimensions := strDimensions + [SPACE] + Number(dims[i + k]);
      } else {
        strDimensions := strDimensions + Number(dims[i + k]);
      }
    }
    return Some((strDimensions, numSignals));
  }

  lemma SeenStep(seen: seq<seq<int>>, v: seq<int>)
    ensures Printed(seen + [v])
            == (if seen == [] then Printed(seen) else Printed(seen) + [COMMA]) + [OPEN] + PrintedSizes(v) + [CLOSE]
  {
    assert (seen + [v])[..|seen|] == seen;
  }

  lemma SampleSizeStep(seen: seq<seq<int>>, v: seq<int>, sizes: seq<uint32>)
    requires |seen| < |sizes|
    ensures Saturated(SampleSize(seen + [v], sizes))
            == Plus(Saturated(SampleSize(seen, sizes)), Times(Saturated(Product(v)), sizes[|seen|]))
  {
    assert (seen + [v])[..|seen|] == seen;
    SizeStep(SampleSize(seen, sizes), Product(v), sizes[|seen|]);
  }

  /** What the loop has printed and counted for the signals seen so far. */
  predicate Extracted(types: seq<TypeName>, seen: seq<seq<int>>, text: Text, bytes: uint32) {
    |seen| <= |types| && text == Printed(seen) && bytes == Saturated(SampleSize(seen, Sizes(types)))
  }

  lemma ExtractedStep(types: seq<TypeName>, seen: seq<seq<int>>, v: seq<int>, text: Text, prefix: Text, bytes: uint32)
    requires Extracted(types, seen, text, bytes) && |seen| < |types|
    requires prefix == if seen == [] then text else text + [COMMA]
    ensures Extracted(types, seen + [v], prefix + [OPEN] + PrintedSizes(v) + [CLOSE],
                      Plus(bytes, Times(Saturated(Product(v)), SizeOfType(types[|seen|]))))
  {
    SeenStep(seen, v);
    SampleSizeStep(seen, v, Sizes(types));
  }

  /** The body of the loop for signal number j at position i; no result stands for an index error. */
  method ExtractSignal(types: seq<TypeName>, dims: seq<int>, i: nat, j: nat, text: Text, bytes: uint32,
                       ghost seen: seq<seq<int>>)
    returns (r: Option<(nat, Text, uint32)>, ghost v: seq<int>)
    requires i + 1 < |dims| && j == |seen| && (i == 0 <==> seen == [])
    requires SeenUpTo(dims, seen, i) && Extracted(types, seen, text, bytes)
    ensures r.None? ==> Groups(dims).None? || |Groups(dims).value| > |types|
    ensures r.Some? ==> i < r.value.0 && SeenUpTo(dims, seen + [v], r.value.0)
    ensures r.Some? ==> Extracted(types, seen + [v], r.value.1, r.value.2)
  {
    var strDimensions := if i > 0 then text + [COMMA] else text;
    ghost var prefix := strDimensions;
    var start, n := i + 1, Positive(dims[i]);
    strDimensions := strDimensions + [OPEN];
    var sizes := ExtractSizes(dims, start, n);
    if sizes.None? {
      v := [];
      assert GroupsFrom(dims, i).None?;
      return None, v;
    }
    v := dims[start..start + n];
    GroupsStep(dims, i, start, start + n, seen);
    if j >= |types| {
      return None, v;
    }
    ExtractedStep(types, seen, v, text, prefix, bytes);
    strDimensions := strDimensions + sizes.value.0;
    var bytesPerSample := Plus(bytes, Times(sizes.value.1, SizeOfType(types[j])));
    strDimensions := strDimensions + [CLOSE];
    return Some((start + n, strDimensions, bytesPerSample)), v;
  }

  /** A failed result stands for an index error: a count over the end of the vector, or more signals than types. */
  method ExtractCompiledDimension(types: seq<TypeName>, dims: seq<int>) returns (r: Option<(Text, uint32)>)
    ensures r.Some? <==> Groups(dims).Some? && |Groups(dims).value| <= |types|
    ensures r.Some? ==>
              r.value == (Printed(Groups(dims).value), Saturated(SampleSize(Groups(dims).value, Sizes(types))))
    ensures r.Some? ==> r.value.1 == Saturated(TrueSize(Groups(dims).value, types))
  {
    var i, j := 0, 0;
    var strDimensions: Text, bytesPerSample: uint32 := [], 0;
    ghost var seen: seq<seq<int>> := [];
    NothingSeen(dims);
    while i + 1 < |dims|
      invariant 0 <= i <= |dims| && j == |seen| && (i == 0 <==> seen == [])
      invariant SeenUpTo(dims, seen, i)
      invariant Extracted(types, seen, strDimensions, bytesPerSample)
      decreases |dims| - i
    {
      var signal, v := ExtractSignal(types, dims, i, j, strDimensions, bytesPerSample, seen);
      if signal.None? { return None; }
      i, strDimensions, bytesPerSample := signal.value.0, signal.value.1, signal.value.2;
      j := j + 1;
      seen := seen + [v];
    }
    assert seen + [] == seen;
    ReportedSize(types, dims);
    return Some((strDimensions, bytesPerSample));
  }

  /** The groups are those seen and those from position i on. */
  predicate SeenUpTo(dims: seq<int>, seen: seq<seq<int>>, i: nat) {
    i <= |dims| && Groups(dims) == Behind(seen, GroupsFrom(dims, i))
  }

  lemma NothingSeen(dims: seq<int>)
    ensures SeenUpTo(dims, [], 0)
  {
    if Groups(dims).Some? { assert [] + Groups(dims).value == Groups(dims).value; }
  }

  lemma GroupsStep(dims: seq<int>, i: nat, start: nat, end: nat, seen: seq<seq<int>>)
    requires i + 1 < |dims| && start == i + 1 && end == start + Positive(dims[i]) <= |dims|
    requires SeenUpTo(dims, seen, i)
    ensures SeenUpTo(dims, seen + [dims[start..end]], end)
  {
    BehindTwice(seen, [dims[start..end]], GroupsFrom(dims, end));
  }

  lemma BehindTwice(a: seq<seq<int>>, b: seq<seq<int>>, rest: Option<seq<seq<int>>>)
    ensures Behind(a, Behind(b, rest)) == Behind(a + b, rest)
  {
    if rest.Some? { assert a + (b + rest.value) == (a + b) + rest.value; }
  }

  // ---- The string read back ----

  predicate AllDigits(s: Text) { forall i :: 0 <= i < |s| ==> IsDigit(s[i]) }

  function ParseNumber(s: Text): Option<int> {
    if s == [] then None
    else if AllDigits(s) then Some(Value(s))
    else
      var digits := s[1..];
      if s[0] == MINUS && digits != [] && AllDigits(digits) then
        var n: int := Value(digits);
        Some(-n)
      else None
  }

  lemma NumberParses(d: int)
    ensures ParseNumber(Number(d)) == Some(d)
    ensures COMMA !in Number(d) && SPACE !in Number(d) && Number(d) != []
  {
    if d < 0 {
      assert Number(d)[1..] == Decimal(-d);
      ValueOfDecimal(-d);
      assert !IsDigit(Number(d)[0]);
    } else {
      ValueOfDecimal(d);
    }
  }

  function ParseSizes(parts: seq<Text>): Option<seq<int>> {
    if parts == [] then Some([])
    else
      match (ParseSizes(parts[..|parts| - 1]), ParseNumber(parts[|parts| - 1]))
      case (Some(front), Some(last)) => Some(front + [last])
      case _ => None
  }

  function ParseVector(s: Text): Option<seq<int>> {
    if |s| < 2 || s[0] != OPEN || s[|s| - 1] != CLOSE then None
    else if |s| == 2 then Some([])
    else ParseSizes(Split(s[1..|s| - 1], SPACE))
  }

  function ParseVectors(parts: seq<Text>): Option<seq<seq<int>>> {
    if parts == [] then Some([])
    else
      match (ParseVectors(parts[..|parts| - 1]), ParseVector(parts[|parts| - 1]))
      case (Some(front), Some(last)) => Some(front + [last])
      case _ => None
  }

  /** A list of vectors in brackets, as "[1],[3 1]". */
  function ParseDimensions(s: Text): Option<seq<seq<int>>> {
    if s == [] then Some([]) else ParseVectors(Split(s, COMMA))
  }

  function Numbers(v: seq<int>): (r: seq<Text>)
    ensures |r| == |v| && forall i :: 0 <= i < |r| ==> r[i] == Number(v[i])
  {
    seq(|v|, i requires 0 <= i < |v| => Number(v[i]))
  }

  function PrintedVectors(vs: seq<seq<int>>): (r: seq<Text>)
    ensures |r| == |vs| && forall i :: 0 <= i < |r| ==> r[i] == PrintedVector(vs[i])
  {
    seq(|vs|, i requires 0 <= i < |vs| => PrintedVector(vs[i]))
  }

  lemma {:induction false} PrintedSizesIsJoin(v: seq<int>)
    ensures PrintedSizes(v) == Join(Numbers(v), SPACE)
    decreases |v|
  {
    if |v| > 1 {
      PrintedSizesIsJoin(v[..|v| - 1]);
      assert Numbers(v)[..|v| - 1] == Numbers(v[..|v| - 1]);
    }
  }

  lemma {:induction false} PrintedIsJoin(vs: seq<seq<int>>)
    ensures Printed(vs) == Join(PrintedVectors(vs), COMMA)
    decreases |vs|
  {
    if |vs| > 1 {
      PrintedIsJoin(vs[..|vs| - 1]);
      assert PrintedVectors(vs)[..|vs| - 1] == PrintedVectors(vs[..|vs| - 1]);
    }
  }

  lemma {:induction false} SizesHaveNoComma(v: seq<int>)
    ensures COMMA !in PrintedSizes(v) && (v != [] ==> PrintedSizes(v) != [])
    decreases |v|
  {
    if v != [] { NumberParses(v[|v| - 1]); }
    if |v| > 1 { SizesHaveNoComma(v[..|v| - 1]); }
  }

  predicate SizesAre(parts: seq<Text>, v: seq<int>) { ParseSizes(parts) == Some(v) }

  lemma {:induction false} SizesParse(v: seq<int>)
    ensures SizesAre(Numbers(v), v)
    decreases |v|
  {
    if v != [] {
      var n := |v| - 1;
      SizesParse(v[..n]);
      assert Numbers(v)[..n] == Numbers(v[..n]);
      NumberParses(v[n]);
      OneMoreSize(Numbers(v), v[..n], v[n]);
      assert v[..n] + [v[n]] == v;
    }
  }

  lemma OneMoreSize(parts: seq<Text>, front: seq<int>, d: int)
    requires parts != [] && SizesAre(parts[..|parts| - 1], front) && ParseNumber(parts[|parts| - 1]) == Some(d)
    ensures SizesAre(parts, front + [d])
  {
  }

  lemma VectorParses(v: seq<int>)
    ensures ParseVector(PrintedVector(v)) == Some(v)
  {
    var s := PrintedVector(v);
    SizesHaveNoComma(v);
    if v != [] {
      assert s[1..|s| - 1] == PrintedSizes(v);
      PrintedSizesIsJoin(v);
      forall i | 0 <= i < |v| ensures SPACE !in Numbers(v)[i] { NumberParses(v[i]); }
      SplitJoin(Numbers(v), SPACE);
      SizesParse(v);
    }
  }

  predicate ParseTo(parts: seq<Text>, vs: seq<seq<int>>) { ParseVectors(parts) == Some(vs) }

  lemma {:induction false} VectorsParse(vs: seq<seq<int>>)
    ensures ParseTo(PrintedVectors(vs), vs)
    decreases |vs|
  {
    if vs != [] {
      var n := |vs| - 1;
      VectorsParse(vs[..n]);
      assert PrintedVectors(vs)[..n] == PrintedVectors(vs[..n]);
      VectorParses(vs[n]);
      OneMoreVector(PrintedVectors(vs), vs[..n], vs[n]);
      assert vs[..n] + [vs[n]] == vs;
    }
  }

  lemma OneMoreVector(parts: seq<Text>, front: seq<seq<int>>, v: seq<int>)
    requires parts != [] && ParseTo(parts[..|parts| - 1], front) && ParseVector(parts[|parts| - 1]) == Some(v)
    ensures ParseTo(parts, front + [v])
  {
  }

  /** The printed dimensions of any list of signals read back as that list. */
  lemma DimensionsRoundTrip(vs: seq<seq<int>>)
    ensures ParseDimensions(Printed(vs)) == Some(vs)
  {
    if vs != [] {
      PrintedIsJoin(vs);
      forall i | 0 <= i < |vs| ensures COMMA !in PrintedVectors(vs)[i] { SizesHaveNoComma(vs[i]); }
      SplitJoin(PrintedVectors(vs), COMMA);
      assert Split([], COMMA) == [[]];
      assert PrintedVectors(vs)[0] == PrintedVector(vs[0]);
      VectorsParse(vs);
    }
  }

  // ---- Well-formed vectors ----

  /** What the loop sees of a list of signals: all but a last one without dimensions. */
  function Seen(vs: seq<seq<int>>): seq<seq<int>> {
    if vs != [] && vs[|vs| - 1] == [] then vs[..|vs| - 1] else vs
  }

  lemma {:induction false} GroupsAt(flat: seq<int>, i: nat, vs: seq<seq<int>>)
    requires i <= |flat| && flat[i..] == Flatten(vs)
    ensures GroupsFrom(flat, i) == Some(Seen(vs))
    decreases |vs|
  {
    if vs != [] {
      var next := i + 1 + |vs[0]|;
      SignalAt(flat, i, vs[0], Flatten(vs[1..]));
      GroupHere(flat, i, vs[0], next);
      GroupsAt(flat, next, vs[1..]);
      SeenStepBack(vs);
    }
  }

  lemma SignalAt(flat: seq<int>, i: nat, v: seq<int>, rest: seq<int>)
    requires i <= |flat| && flat[i..] == [|v|] + v + rest
    ensures var next := i + 1 + |v|;
            next <= |flat| && flat[i] == |v| && flat[i + 1..next] == v && flat[next..] == rest
  {
    var tail := flat[i..];
    assert tail[0] == |v| && tail[1..1 + |v|] == v && tail[1 + |v|..] == rest;
  }

  // The loop at a signal: it takes the signal, unless it is the last one and has no dimensions.
  lemma GroupHere(flat: seq<int>, i: nat, v: seq<int>, next: nat)
    requires next == i + 1 + |v| <= |flat| && flat[i] == |v| && flat[i + 1..next] == v
    ensures GroupsFrom(flat, i) == if next == |flat| == i + 1 then Some([]) else Behind([v], GroupsFrom(flat, next))
  {
  }

  // A signal that is followed by others, or has dimensions, is seen.
  lemma SeenStepBack(vs: seq<seq<int>>)
    requires vs != []
    ensures vs[1..] == [] && vs[0] == [] ==> Seen(vs) == []
    ensures vs[1..] != [] || vs[0] != [] ==> Seen(vs) == [vs[0]] + Seen(vs[1..])
    ensures vs[1..] != [] ==> Flatten(vs[1..]) != []
  {
    if vs[1..] == [] { assert vs == [vs[0]]; }
  }

  lemma GroupsOfFlatten(vs: seq<seq<int>>)
    ensures Groups(Flatten(vs)) == Some(Seen(vs))
  {
    assert Flatten(vs)[0..] == Flatten(vs);
    GroupsAt(Flatten(vs), 0, vs);
  }

  /**
   For every list of signals, the string that `ExtractCompiledDimension` prints reads back as the list if and only
   if the last signal has dimensions.
   */
  lemma DimensionsExactly(vs: seq<seq<int>>)
    ensures Groups(Flatten(vs)).Some?
    ensures ParseDimensions(Printed(Groups(Flatten(vs)).value)) == Some(vs) <==> vs == [] || vs[|vs| - 1] != []
  {
    GroupsOfFlatten(vs);
    DimensionsRoundTrip(Seen(vs));
  }

  // ---- The elements of a signal ----

  /** An element of a signal has one index for each dimension. */
  predicate IsIndex(x: seq<int>, v: seq<int>) { |x| == |v| && forall k :: 0 <= k < |v| ==> 0 <= x[k] < v[k] }

  /** The product of the dimensions is the number of elements. */
  lemma {:induction false} ElementsExactly(v: seq<int>, all: set<seq<int>>)
    requires forall x :: x in all <==> IsIndex(x, v)
    ensures |all| == Product(v)
    decreases |v|
  {
    if v == [] {
      assert all == {[]} by {
        forall x | x in all ensures x == [] { assert IsIndex(x, v); }
        assert IsIndex([], v);
      }
    } else {
      var n, d := |v| - 1, v[|v| - 1];
      var fronts := set x | x in all && |x| == n + 1 && x[n] == 0 :: x[..n];
      if d <= 0 {
        forall x ensures x !in all { assert |x| == |v| ==> !(0 <= x[n] < v[n]); }
        assert all == {};
      } else {
        forall x ensures x in fronts <==> IsIndex(x, v[..n]) { FrontOfIndex(x, v, all, fronts); }
        ElementsExactly(v[..n], fronts);
        forall y ensures y in all <==> |y| == n + 1 && y[..n] in fronts && 0 <= y[n] < d {
          if |y| == n + 1 { assert IsIndex(y, v) <==> IsIndex(y[..n], v[..n]) && 0 <= y[n] < d; }
        }
        Layers(fronts, all, d, n);
      }
    }
  }

  lemma FrontOfIndex(x: seq<int>, v: seq<int>, all: set<seq<int>>, fronts: set<seq<int>>)
    requires v != [] && v[|v| - 1] > 0 && forall y :: y in all <==> IsIndex(y, v)
    requires fronts == set y | y in all && |y| == |v| && y[|v| - 1] == 0 :: y[..|v| - 1]
    ensures x in fronts <==> IsIndex(x, v[..|v| - 1])
  {
    var y := x + [0];
    assert y[..|x|] == x;
    if IsIndex(x, v[..|v| - 1]) { assert IsIndex(y, v) && y in all; }
  }

  lemma {:induction false} Layers(fronts: set<seq<int>>, all: set<seq<int>>, d: nat, n: nat)
    requires forall x :: x in fronts ==> |x| == n
    requires forall y :: y in all <==> |y| == n + 1 && y[..n] in fronts && 0 <= y[n] < d
    ensures |all| == |fronts| * d
    decreases d
  {
    if d == 0 {
      assert all == {};
    } else {
      var last := set y | y in all && |y| == n + 1 && y[n] == d - 1;
      Layers(fronts, all - last, d - 1, n);
      Layer(fronts, last, d - 1, n);
      assert |all| == |all - last| + |last|;
      assert |fronts| * d == |fronts| * (d - 1) + |fronts|;
    }
  }

  lemma {:induction false} Layer(fronts: set<seq<int>>, layer: set<seq<int>>, c: int, n: nat)
    requires forall x :: x in fronts ==> |x| == n
    requires forall y :: y in layer <==> |y| == n + 1 && y[..n] in fronts && y[n] == c
    ensures |layer| == |fronts|
    decreases fronts
  {
    if fronts == {} {
      assert layer == {};
    } else {
      var x :| x in fronts;
      var y := x + [c];
      assert y[..n] == x && y in layer;
      forall z | z in layer && z[..n] == x ensures z == y { assert z == z[..n] + [z[n]]; }
      Layer(fronts - {x}, layer - {y}, c, n);
    }
  }

  /** The bytes of a sample from what its signals are: for each its number of elements times the bytes of its type. */
  function TrueSize(vs: seq<seq<int>>, types: seq<TypeName>): nat
    requires |vs| <= |types|
  {
    if vs == [] then 0
    else TrueSize(vs[..|vs| - 1], types) + Product(vs[|vs| - 1]) * TypeBytes(types[|vs| - 1])
  }

  lemma {:induction false} SizesAreTrue(vs: seq<seq<int>>, types: seq<TypeName>)
    requires |vs| <= |types|
    ensures SampleSize(vs, Sizes(types)) == TrueSize(vs, types)
    decreases |vs|
  {
    if vs != [] {
      var n := |vs| - 1;
      SizesAreTrue(vs[..n], types);
      SizeExactly(types[n]);
      assert Sizes(types)[n] == TypeBytes(types[n]);
    }
  }

  /** Both results of `ExtractCompiledDimension` for every vector, in terms of what the types are. */
  lemma ReportedSize(types: seq<TypeName>, dims: seq<int>)
    requires Groups(dims).Some? && |Groups(dims).value| <= |types|
    ensures var size := TrueSize(Groups(dims).value, types);
            Saturated(SampleSize(Groups(dims).value, Sizes(types)))
                == if size >= 0x1_0000_0000 then 0xFFFF_FFFF else size
  {
    SizesAreTrue(Groups(dims).value, types);
  }

  /**
   And the reported number of bytes is the true size of a sample if and only if that fits 32 bits: saturation in a
   product or in the sum never cancels out.
   */
  lemma SampleSizeExactly(vs: seq<seq<int>>, types: seq<TypeName>)
    requires |vs| <= |types| && (vs == [] || vs[|vs| - 1] != [])
    ensures Groups(Flatten(vs)).Some? && |Groups(Flatten(vs)).value| <= |types|
    ensures Saturated(SampleSize(Groups(Flatten(vs)).value, Sizes(types))) == TrueSize(vs, types)
            <==> TrueSize(vs, types) < 0x1_0000_0000
  {
    GroupsOfFlatten(vs);
    SizesAreTrue(vs, types);
  }

  /** The notation, on one example. */
  lemma PrintedExample()
    ensures Printed([[1], [3, 12]])
            == ['[' as int, '1' as int, ']' as int, ',' as int,
                '[' as int, '3' as int, ' ' as int, '1' as int, '2' as int, ']' as int]
  {
    assert [[1], [3, 12]][..1] == [[1]] && [3, 12][..1] == [3];
    assert Decimal(12) == Decimal(1) + [Digit(2)];
    assert PrintedSizes([3, 12]) == PrintedSizes([3]) + [SPACE] + Number(12);
  }
}
