/**
 The headers of the data files and the index file (library/drivers/GT_DriverImplementationDetails.cpp:219-263,
 324-378 and 650-738), and a decoder that follows the documented layout
 (documentation/html/datarecording.html:123-494).
 */
module FileFormat {
  import opened Arithmetic
  import opened Bytes
  import opened Options

  type Text = seq<byte>

  predicate NoZero(s: Text) { forall i :: 0 <= i < |s| ==> s[i] != 0 }

  // ---- Building blocks ----

  /** The four bytes of `(x >> 24) & 0xFF` down to `x & 0xFF`. */
  function BigEndian(x: uint32): (r: seq<byte>)
    ensures |r| == 4
  {
    [x / 0x100_0000, x / 0x1_0000 % 256, x / 0x100 % 256, x % 256]
  }

  function FromBigEndian(b: seq<byte>): uint32
    requires |b| == 4
  {
    ((b[0] as int * 256 + b[1] as int) * 256 + b[2] as int) * 256 + b[3] as int
  }

  lemma BigEndianRoundTrip(x: uint32)
    ensures FromBigEndian(BigEndian(x)) == x
  {
    var (b, c) := (x / 0x100, x / 0x1_0000);
    assert b / 0x100 == c && c / 0x100 == x / 0x100_0000;
    assert b == 0x100 * c + b % 0x100 && c == 0x100 * (c / 0x100) + c % 0x100;
  }

  /** The number in four bytes of a file, most significant byte first, and in two bytes. */
  function Long(f: seq<byte>, i: nat): int
    requires i + 4 <= |f|
  {
    f[i] as int * 0x100_0000 + f[i + 1] as int * 0x1_0000 + f[i + 2] as int * 0x100 + f[i + 3] as int
  }

  function Short(f: seq<byte>, i: nat): int
    requires i + 2 <= |f|
  {
    f[i] as int * 0x100 + f[i + 1] as int
  }

  lemma BigEndianDigits(f: seq<byte>, i: nat, x: uint32)
    requires i + 4 <= |f| && f[i..i + 4] == BigEndian(x)
    ensures Long(f, i) == x
  {
    var b := f[i..i + 4];
    assert b[0] == f[i] && b[1] == f[i + 1] && b[2] == f[i + 2] && b[3] == f[i + 3];
    BigEndianRoundTrip(x);
  }

  function Terminated(s: Text): seq<byte> { s + [0] }

  /** A zero-terminated string at a position, and the position behind its terminator. */
  function ReadText(file: seq<byte>, pos: nat): (r: Option<(Text, nat)>)
    ensures r.Some? ==> pos < r.value.1 <= |file|
    decreases |file| - pos
  {
    if pos >= |file| then None
    else if file[pos] == 0 then Some(([], pos + 1))
    else
      match ReadText(file, pos + 1)
      case None => None
      case Some(rest) => Some(([file[pos]] + rest.0, rest.1))
  }

  lemma {:induction false} ReadTerminated(before: seq<byte>, s: Text, after: seq<byte>)
    requires NoZero(s)
    ensures ReadText(before + Terminated(s) + after, |before|) == Some((s, |before| + |s| + 1))
    decreases |s|
  {
    var file := before + Terminated(s) + after;
    if s != [] {
      assert file == (before + [s[0]]) + Terminated(s[1..]) + after;
      ReadTerminated(before + [s[0]], s[1..], after);
      assert [s[0]] + s[1..] == s;
    }
  }

  /** Cuts data into samples of w bytes. */
  function Samples(data: seq<byte>, w: nat): (r: Option<seq<seq<byte>>>)
    requires w > 0
    ensures r.Some? ==> |data| == |r.value| * w && forall i :: 0 <= i < |r.value| ==> |r.value[i]| == w
  {
    if data == [] then Some([])
    else if |data| < w then None
    else
      match Samples(data[w..], w)
      case None => None
      case Some(rest) => Some([data[..w]] + rest)
  }

  function Join(s: seq<seq<byte>>): seq<byte> { if s == [] then [] else s[0] + Join(s[1..]) }

  /** Data is cut exactly when it consists of whole samples, and nothing is lost or reordered. */
  lemma {:induction false} SamplesExactly(data: seq<byte>, w: nat)
    requires w > 0
    ensures Samples(data, w).Some? <==> |data| % w == 0
    ensures Samples(data, w).Some? ==> Join(Samples(data, w).value) == data
    decreases |data|
  {
    if data == [] {
      DivModUnique(0, w, 0, 0);
    } else if |data| < w {
      DivModUnique(|data|, w, 0, |data|);
    } else {
      SamplesExactly(data[w..], w);
      DivModUnique(w, w, 1, 0);
      ModShift(|data[w..]|, w, w);
      assert data == data[..w] + data[w..];
      if Samples(data, w).Some? {
        var rest := Samples(data[w..], w).value;
        assert ([data[..w]] + rest)[1..] == rest;
      }
    }
  }

  lemma SamplesStep(first: seq<byte>, rest: seq<byte>, w: nat)
    requires w > 0 && |first| == w && Samples(rest, w).Some?
    ensures Samples(first + rest, w) == Some([first] + Samples(rest, w).value)
  {
    assert (first + rest)[..w] == first && (first + rest)[w..] == rest;
  }

  lemma ConcatStep(first: seq<byte>, rest: seq<byte>, b: seq<byte>, w: nat, x: seq<seq<byte>>, y: seq<seq<byte>>)
    requires w > 0 && |first| == w && Samples(rest, w) == Some(x) && Samples(rest + b, w) == Some(x + y)
    ensures Samples(first + rest, w) == Some([first] + x)
    ensures Samples(first + rest + b, w) == Some([first] + x + y)
  {
    assert first + rest + b == first + (rest + b) && [first] + x + y == [first] + (x + y);
    SamplesStep(first, rest, w);
    SamplesStep(first, rest + b, w);
  }

  /** Whole samples from two places are the samples of both together. */
  lemma {:induction false} SamplesConcat(a: seq<byte>, b: seq<byte>, w: nat)
    requires w > 0 && Samples(a, w).Some? && Samples(b, w).Some?
    ensures Samples(a + b, w) == Some(Samples(a, w).value + Samples(b, w).value)
    decreases |a|
  {
    if a == [] {
      assert a + b == b;
      assert [] + Samples(b, w).value == Samples(b, w).value;
    } else {
      SamplesConcat(a[w..], b, w);
      ConcatStep(a[..w], a[w..], b, w, Samples(a[w..], w).value, Samples(b, w).value);
      assert a == a[..w] + a[w..];
    }
  }

  // ---- Headers ----

  const GTDBL: Text := [0x47, 0x54, 0x44, 0x42, 0x4C]
  const GTBUS: Text := [0x47, 0x54, 0x42, 0x55, 0x53]
  const GTIDX: Text := [0x47, 0x54, 0x49, 0x44, 0x58]

  /** 0x01 on a little-endian host, 0x80 on a big-endian one. */
  function EndianByte(bigEndianHost: bool): byte { if bigEndianHost then 0x80 else 0x01 }

  /** What the two kinds of data files say about themselves; a scalar file has labels only. */
  datatype Meta = Meta(magic: Text, count: uint32, texts: seq<Text>, bigEndian: bool)

  function Texts(texts: seq<Text>): seq<byte> {
    if texts == [] then [] else Terminated(texts[0]) + Texts(texts[1..])
  }

  predicate NoZeros(texts: seq<Text>) { forall i :: 0 <= i < |texts| ==> NoZero(texts[i]) }

  function HeaderLength(m: Meta): nat { 5 + 4 + 4 + |Texts(m.texts)| + 1 }

  /** The offset field is a 32-bit sum. */
  function Header(m: Meta): seq<byte> {
    m.magic + BigEndian(Truncate32(HeaderLength(m))) + BigEndian(m.count) + Texts(m.texts) + [EndianByte(m.bigEndian)]
  }

  function DoublesMeta(labels: Text, numSignals: uint32, bigEndian: bool): Meta {
    Meta(GTDBL, numSignals, [labels], bigEndian)
  }

  function BusMeta(labels: Text, dimensions: Text, dataTypes: Text, numBytesPerSample: uint32, bigEndian: bool): Meta {
    Meta(GTBUS, numBytesPerSample, [labels, dimensions, dataTypes], bigEndian)
  }

  lemma OffsetSum(k: nat, length: nat)
    ensures Truncate32(k + Truncate32(length)) == Truncate32(k + length)
  {
    DivModUnique(k + Truncate32(length), UINT32_LIMIT, (k + length) / UINT32_LIMIT - length / UINT32_LIMIT,
        (k + length) % UINT32_LIMIT);
  }

  /** The writer of the scalar recorder, field by field; its file is empty after the open. */
  method WriteDoublesHeader(labels: Text, numSignals: uint32, bigEndianHost: bool) returns (file: seq<byte>)
    ensures file == Header(DoublesMeta(labels, numSignals, bigEndianHost))
  {
    file := ['G' as int, 'T' as int, 'D' as int, 'B' as int, 'L' as int];
    var offset := Truncate32(15 + Truncate32(|labels|));
    file := file + BigEndian(offset);
    file := file + BigEndian(numSignals);
    file := file + labels;
    file := file + [0];
    var endian := [if bigEndianHost then 0x01 else 0x00, if bigEndianHost then 0x00 else 0x01];
    file := file + [if endian[0] != 0 then 0x80 else 0x01];
    DoublesFields(labels, numSignals, bigEndianHost);
  }

  lemma DoublesFields(labels: Text, numSignals: uint32, bigEndian: bool)
    ensures Header(DoublesMeta(labels, numSignals, bigEndian))
            == GTDBL + BigEndian(Truncate32(15 + Truncate32(|labels|))) + BigEndian(numSignals) + labels + [0]
               + [EndianByte(bigEndian)]
  {
    assert Texts([labels]) == labels + [0];
    OffsetSum(15, |labels|);
    var front := GTDBL + BigEndian(Truncate32(15 + |labels|)) + BigEndian(numSignals);
    assert front + (labels + [0]) == front + labels + [0];
  }

  method WriteBusHeader(labels: Text, dimensions: Text, dataTypes: Text, numBytesPerSample: uint32, bigEndianHost: bool)
    returns (file: seq<byte>)
    ensures file == Header(BusMeta(labels, dimensions, dataTypes, numBytesPerSample, bigEndianHost))
  {
    file := ['G' as int, 'T' as int, 'B' as int, 'U' as int, 'S' as int];
    var offset := Truncate32(17 + Truncate32(|labels| + |dimensions| + |dataTypes|));
    file := file + BigEndian(offset);
    file := file + BigEndian(numBytesPerSample);
    file := file + labels;
    file := file + [0];
    file := file + dimensions;
    file := file + [0];
    file := file + dataTypes;
    file := file + [0];
    var endian := [if bigEndianHost then 0x01 else 0x00, if bigEndianHost then 0x00 else 0x01];
    file := file + [if endian[0] != 0 then 0x80 else 0x01];
    BusFields(labels, dimensions, dataTypes, numBytesPerSample, bigEndianHost);
  }

  lemma BusFields(labels: Text, dimensions: Text, dataTypes: Text, count: uint32, bigEndian: bool)
    ensures Header(BusMeta(labels, dimensions, dataTypes, count, bigEndian))
            == GTBUS + BigEndian(Truncate32(17 + Truncate32(|labels| + |dimensions| + |dataTypes|))) + BigEndian(count)
               + labels + [0] + dimensions + [0] + dataTypes + [0] + [EndianByte(bigEndian)]
  {
    ThreeTexts(labels, dimensions, dataTypes);
    OffsetSum(17, |labels| + |dimensions| + |dataTypes|);
    var front := GTBUS + BigEndian(Truncate32(17 + |labels| + |dimensions| + |dataTypes|)) + BigEndian(count);
    assert front + (labels + [0] + dimensions + [0] + dataTypes + [0])
        == front + labels + [0] + dimensions + [0] + dataTypes + [0];
  }

  lemma ThreeTexts(a: Text, b: Text, c: Text)
    ensures Texts([a, b, c]) == a + [0] + b + [0] + c + [0]
  {
    assert [a, b, c][1..] == [b, c] && [b, c][1..] == [c] && [c][1..] == [];
    assert Texts([c]) == c + [0];
  }

  // ---- The decoder ----

  /** What a data file says about itself, and its samples. */
  datatype Decoded = Decoded(meta: Meta, samples: seq<seq<byte>>)

  /** Strings one after the other, and the position behind the last. */
  function ReadTexts(file: seq<byte>, pos: nat, n: nat): (r: Option<(seq<Text>, nat)>)
    requires pos <= |file|
    ensures r.Some? ==> pos <= r.value.1 <= |file|
    decreases n
  {
    if n == 0 then Some(([], pos))
    else
      match ReadText(file, pos)
      case None => None
      case Some(first) =>
        match ReadTexts(file, first.1, n - 1)
        case None => None
        case Some(rest) => Some(([first.0] + rest.0, rest.1))
  }

  /** The fields at their documented places; the samples start at the offset that the file itself gives. */
  function Decode(file: seq<byte>, magic: Text, numTexts: nat, width: uint32 -> nat): Option<Decoded>
    requires |magic| == 5 && forall c :: width(c) > 0
  {
    if |file| < 13 || file[..5] != magic then None
    else
      var offset := FromBigEndian(file[5..9]);
      var count := FromBigEndian(file[9..13]);
      match ReadTexts(file, 13, numTexts)
      case None => None
      case Some(texts) =>
        if texts.1 >= |file| || (file[texts.1] != 0x01 && file[texts.1] != 0x80) || offset > |file| then None
        else
          match Samples(file[offset..], width(count))
          case None => None
          case Some(samples) => Some(Decoded(Meta(magic, count, texts.0, file[texts.1] == 0x80), samples))
  }

  /** One double of timestamp and one per signal; or eight bytes of timestamp and the bytes of the bus. */
  function DoublesWidth(numSignals: uint32): nat { 8 * (1 + numSignals) }
  function BusWidth(numBytesPerSample: uint32): nat { 8 + numBytesPerSample }

  function DecodeDoubles(file: seq<byte>): Option<Decoded> { Decode(file, GTDBL, 1, DoublesWidth) }
  function DecodeBus(file: seq<byte>): Option<Decoded> { Decode(file, GTBUS, 3, BusWidth) }

  lemma {:induction false} TextsRoundTrip(before: seq<byte>, texts: seq<Text>, after: seq<byte>)
    requires NoZeros(texts)
    ensures ReadTexts(before + Texts(texts) + after, |before|, |texts|) == Some((texts, |before| + |Texts(texts)|))
    decreases |texts|
  {
    var file := before + Texts(texts) + after;
    if texts != [] {
      var rest := Texts(texts[1..]) + after;
      assert file == before + Terminated(texts[0]) + rest;
      ReadTerminated(before, texts[0], rest);
      assert file == (before + Terminated(texts[0])) + Texts(texts[1..]) + after;
      TextsRoundTrip(before + Terminated(texts[0]), texts[1..], after);
      assert [texts[0]] + texts[1..] == texts;
    }
  }

  /** The offset field is the true length of the header exactly while that length fits into 32 bits. */
  lemma OffsetExactly(m: Meta)
    requires |m.magic| == 5
    ensures |Header(m)| == HeaderLength(m)
    ensures FromBigEndian(Header(m)[5..9]) == |Header(m)| <==> HeaderLength(m) < UINT32_LIMIT
  {
    var offset := Truncate32(HeaderLength(m));
    assert Header(m)[5..9] == BigEndian(offset);
    BigEndianRoundTrip(offset);
  }

  /**
   The decoder recovers the strings, the count, the byte order and every sample from a header followed by whole
   samples, for every header whose length fits into the offset field.
   */
  lemma FileRoundTrip(m: Meta, data: seq<byte>, width: uint32 -> nat)
    requires |m.magic| == 5 && NoZeros(m.texts) && HeaderLength(m) < UINT32_LIMIT
    requires (forall c :: width(c) > 0) && |data| % width(m.count) == 0
    ensures Samples(data, width(m.count)).Some?
    ensures Decode(Header(m) + data, m.magic, |m.texts|, width) == Some(Decoded(m, Samples(data, width(m.count)).value))
  {
    var file := Header(m) + data;
    HeaderFields(m, data);
    BigEndianRoundTrip(HeaderLength(m));
    BigEndianRoundTrip(m.count);
    SamplesExactly(data, width(m.count));
  }

  // The pieces of a data file and of an index file, whatever they contain.
  lemma HeaderPieces(a: seq<byte>, b: seq<byte>, c: seq<byte>, texts: seq<byte>, e: byte, data: seq<byte>)
    requires |a| == 5 && |b| == 4 && |c| == 4
    ensures var file := a + b + c + texts + [e] + data; var end := 13 + |texts|;
            && |file| == end + 1 + |data| && file == (a + b + c) + texts + ([e] + data)
            && file[..5] == a && file[5..9] == b && file[9..13] == c && file[end] == e && file[end + 1..] == data
  {
    var file, front := a + b + c + texts + [e] + data, a + b + c;
    assert file == front + texts + ([e] + data);
    assert file[..13] == front;
    assert file[..5] == front[..5] && file[5..9] == front[5..9] && file[9..13] == front[9..13];
  }

  lemma IndexPieces(a: seq<byte>, b: seq<byte>, c: seq<byte>, d: seq<byte>, e: seq<byte>)
    requires |a| == 5 && |b| == 11 && |c| == 4
    ensures var file := a + b + c + d + e;
            |file| >= 20 && file[..5] == a && file[5..16] == b && file[16..20] == c
  {
    var file, front := a + b + c + d + e, a + b + c;
    assert file[..20] == front;
    assert file[..5] == front[..5] && file[5..16] == front[5..16] && file[16..20] == front[16..20];
  }

  lemma ShortHeader(m: Meta)
    requires HeaderLength(m) < UINT32_LIMIT
    ensures Header(m) == m.magic + BigEndian(HeaderLength(m)) + BigEndian(m.count) + Texts(m.texts)
        + [EndianByte(m.bigEndian)]
  {
  }

  lemma HeaderTexts(front: seq<byte>, texts: seq<Text>, e: byte, data: seq<byte>)
    requires NoZeros(texts)
    ensures ReadTexts(front + Texts(texts) + ([e] + data), |front|, |texts|) == Some((texts, |front| + |Texts(texts)|))
  {
    TextsRoundTrip(front, texts, [e] + data);
  }

  // Where the decoder finds the fields of a header.
  lemma HeaderFields(m: Meta, data: seq<byte>)
    requires |m.magic| == 5 && NoZeros(m.texts) && HeaderLength(m) < UINT32_LIMIT
    ensures var file := Header(m) + data;
            && |file| == HeaderLength(m) + |data|
            && file[..5] == m.magic && file[5..9] == BigEndian(HeaderLength(m)) && file[9..13] == BigEndian(m.count)
            && ReadTexts(file, 13, |m.texts|) == Some((m.texts, 13 + |Texts(m.texts)|))
            && file[13 + |Texts(m.texts)|] == EndianByte(m.bigEndian)
            && file[HeaderLength(m)..] == data
  {
    var (length, count, e) := (BigEndian(HeaderLength(m)), BigEndian(m.count), EndianByte(m.bigEndian));
    ShortHeader(m);
    HeaderPieces(m.magic, length, count, Texts(m.texts), e, data);
    HeaderTexts(m.magic + length + count, m.texts, e, data);
  }

  /** A scalar data file byte by byte, as documented: the numbers most significant byte first. */
  lemma DoublesLayout(labels: Text, numSignals: uint32, bigEndian: bool, data: seq<byte>)
    requires 15 + |labels| < 0x1_0000_0000
    ensures var f := Header(DoublesMeta(labels, numSignals, bigEndian)) + data; var n := |labels|;
            && |f| == 15 + n + |data| && f[..5] == ['G' as int, 'T' as int, 'D' as int, 'B' as int, 'L' as int]
            && Long(f, 5) == 15 + n
            && Long(f, 9) == numSignals
            && f[13..13 + n] == labels && f[13 + n] == 0
            && f[14 + n] == (if bigEndian then 0x80 else 0x01) && f[15 + n..] == data
  {
    var m := DoublesMeta(labels, numSignals, bigEndian);
    assert Texts([labels]) == labels + [0];
    LayoutOf(m, labels + [0], data);
  }

  /** A bus data file byte by byte. */
  lemma BusLayout(a: Text, b: Text, c: Text, numBytes: uint32, bigEndian: bool, data: seq<byte>)
    requires 17 + |a| + |b| + |c| < 0x1_0000_0000
    ensures var f := Header(BusMeta(a, b, c, numBytes, bigEndian)) + data;
            var (i, j, k) := (13 + |a|, 14 + |a| + |b|, 15 + |a| + |b| + |c|);
            && |f| == k + 2 + |data| && f[..5] == ['G' as int, 'T' as int, 'B' as int, 'U' as int, 'S' as int]
            && Long(f, 5) == k + 2
            && Long(f, 9) == numBytes
            && f[13..i] == a && f[i] == 0 && f[i + 1..j] == b && f[j] == 0 && f[j + 1..k] == c && f[k] == 0
            && f[k + 1] == (if bigEndian then 0x80 else 0x01) && f[k + 2..] == data
  {
    var texts := a + [0] + b + [0] + c + [0];
    ThreeTexts(a, b, c);
    LayoutOf(BusMeta(a, b, c, numBytes, bigEndian), texts, data);
    ThreePieces(Header(BusMeta(a, b, c, numBytes, bigEndian)) + data, a, b, c);
  }

  lemma LayoutOf(m: Meta, texts: seq<byte>, data: seq<byte>)
    requires |m.magic| == 5 && Texts(m.texts) == texts && HeaderLength(m) < UINT32_LIMIT
    ensures var f := Header(m) + data; var n := |texts|;
            && |f| == 14 + n + |data| && f[..5] == m.magic && f[13..13 + n] == texts
            && Long(f, 5) == 14 + n
            && Long(f, 9) == m.count
            && f[13 + n] == EndianByte(m.bigEndian) && f[14 + n..] == data
  {
    var f, length, count := Header(m) + data, BigEndian(HeaderLength(m)), BigEndian(m.count);
    ShortHeader(m);
    HeaderPieces(m.magic, length, count, texts, EndianByte(m.bigEndian), data);
    BigEndianDigits(f, 5, HeaderLength(m));
    BigEndianDigits(f, 9, m.count);
    TextsPiece(m.magic + length + count, texts, [EndianByte(m.bigEndian)] + data);
  }

  lemma TextsPiece(front: seq<byte>, texts: seq<byte>, rest: seq<byte>)
    ensures (front + texts + rest)[|front|..|front| + |texts|] == texts
  {
  }

  lemma ThreePieces(f: seq<byte>, a: Text, b: Text, c: Text)
    requires |f| >= 16 + |a| + |b| + |c| && f[13..16 + |a| + |b| + |c|] == a + [0] + b + [0] + c + [0]
    ensures var (i, j, k) := (13 + |a|, 14 + |a| + |b|, 15 + |a| + |b| + |c|);
            f[13..i] == a && f[i] == 0 && f[i + 1..j] == b && f[j] == 0 && f[j + 1..k] == c && f[k] == 0
  {
    var texts := f[13..16 + |a| + |b| + |c|];
    var (i, j, k) := (|a|, 1 + |a| + |b|, 2 + |a| + |b| + |c|);
    assert texts[..i] == a && texts[i] == 0 && texts[i + 1..j] == b && texts[j] == 0 && texts[j + 1..k] == c
        && texts[k] == 0;
    SliceOfSlice(f, 13, 14 + k, 0, i);
    SliceOfSlice(f, 13, 14 + k, i + 1, j);
    SliceOfSlice(f, 13, 14 + k, j + 1, k);
  }

  lemma SliceOfSlice(f: seq<byte>, a: nat, b: nat, i: nat, j: nat)
    requires a <= b <= |f| && i <= j <= b - a
    ensures f[a..b][i..j] == f[a + i..a + j]
  {
    assert forall k :: 0 <= k < j - i ==> f[a..b][i..j][k] == f[a + i..a + j][k];
  }

  // ---- The index file ----

  datatype Utc = Utc(year: int, month: int, day: int, hour: int, minute: int, second: int, millisecond: int)
  {
    predicate InRange() {
      && 0 <= year < UINT32_LIMIT && 0 <= month < 256 && 0 <= day < 256 && 0 <= hour < 256
      && 0 <= minute < 256 && 0 <= second < 256 && 0 <= millisecond < 65536
    }
  }

  function DateBytes(t: Utc): (r: seq<byte>)
    ensures |r| == 11
  {
    BigEndian(Truncate32(t.year))
    + [Truncate8(t.month), Truncate8(t.day), Truncate8(t.hour), Truncate8(t.minute), Truncate8(t.second)]
    + [Truncate8(t.millisecond / 256), Truncate8(t.millisecond)]
  }

  /** Identifiers, and the five strings: version, model name, compile date, compiler version, operating system. */
  datatype Index = Index(utc: Utc, ids: seq<Text>, info: seq<Text>)

  function EncodeIndex(x: Index): seq<byte> {
    GTIDX + DateBytes(x.utc) + BigEndian(Truncate32(|x.ids|)) + Texts(x.ids) + Texts(x.info)
  }

  function ReadDate(b: seq<byte>): Utc
    requires |b| == 11
  {
    Utc(FromBigEndian(b[..4]), b[4], b[5], b[6], b[7], b[8], b[9] as int * 256 + b[10] as int)
  }

  lemma SmallIsExact(t: Utc)
    requires t.InRange()
    ensures Truncate32(t.year) == t.year && Truncate8(t.month) == t.month && Truncate8(t.day) == t.day
    ensures Truncate8(t.hour) == t.hour && Truncate8(t.minute) == t.minute && Truncate8(t.second) == t.second
    ensures Truncate8(t.millisecond / 256) == t.millisecond / 256
  {
  }

  lemma DateRoundTrip(t: Utc)
    requires t.InRange()
    ensures ReadDate(DateBytes(t)) == t
  {
    var b := DateBytes(t);
    SmallIsExact(t);
    assert b[..4] == BigEndian(t.year);
    assert b[4..] == [t.month, t.day, t.hour, t.minute, t.second, t.millisecond / 256, t.millisecond % 256];
    BigEndianRoundTrip(t.year);
  }

  function DecodeIndex(file: seq<byte>): Option<Index> {
    if |file| < 20 || file[..5] != GTIDX then None
    else
      match ReadTexts(file, 20, FromBigEndian(file[16..20]))
      case None => None
      case Some(ids) =>
        match ReadTexts(file, ids.1, 5)
        case None => None
        case Some(info) => if info.1 == |file| then Some(Index(ReadDate(file[5..16]), ids.0, info.0)) else None
  }

  lemma IndexRoundTrip(x: Index)
    requires x.utc.InRange() && |x.ids| < UINT32_LIMIT && NoZeros(x.ids) && |x.info| == 5 && NoZeros(x.info)
    ensures DecodeIndex(EncodeIndex(x)) == Some(x)
  {
    IndexFields(x);
    IndexTexts(x);
    BigEndianRoundTrip(|x.ids|);
    DateRoundTrip(x.utc);
  }

  /** The date of an index file, byte by byte as documented. */
  lemma IndexLayout(x: Index)
    requires x.utc.InRange() && |x.ids| < 0x1_0000_0000
    ensures var f := EncodeIndex(x); var t := x.utc;
            && |f| >= 20 && f[..5] == ['G' as int, 'T' as int, 'I' as int, 'D' as int, 'X' as int]
            && Long(f, 5) == t.year
            && f[9] == t.month && f[10] == t.day && f[11] == t.hour && f[12] == t.minute && f[13] == t.second
            && Short(f, 14) == t.millisecond
            && Long(f, 16) == |x.ids|
  {
    var f, date, count := EncodeIndex(x), DateBytes(x.utc), BigEndian(|x.ids|);
    IndexFields(x);
    SmallIsExact(x.utc);
    BigEndianDigits(f, 16, |x.ids|);
    DateFields(x.utc);
    assert forall i :: 0 <= i < 11 ==> date[i] == f[5 + i];
    assert f[5..9] == date[..4];
    BigEndianDigits(f, 5, x.utc.year);
  }

  lemma DateFields(t: Utc)
    requires t.InRange()
    ensures var d := DateBytes(t);
            && d[..4] == BigEndian(t.year) && d[4] == t.month && d[5] == t.day && d[6] == t.hour && d[7] == t.minute
                && d[8] == t.second
            && d[9] == t.millisecond / 256 && d[10] == t.millisecond % 256
  {
    SmallIsExact(t);
  }

  /** The magic texts, character by character, so that no reader of one kind of file accepts another kind. */
  lemma KindsDiffer(file: seq<byte>)
    ensures DecodeDoubles(file).Some?
        ==> |file| >= 5 && file[..5] == ['G' as int, 'T' as int, 'D' as int, 'B' as int, 'L' as int]
    ensures DecodeBus(file).Some?
        ==> |file| >= 5 && file[..5] == ['G' as int, 'T' as int, 'B' as int, 'U' as int, 'S' as int]
    ensures DecodeIndex(file).Some?
        ==> |file| >= 5 && file[..5] == ['G' as int, 'T' as int, 'I' as int, 'D' as int, 'X' as int]
    ensures !(DecodeDoubles(file).Some? && DecodeBus(file).Some?)
    ensures !(DecodeDoubles(file).Some? && DecodeIndex(file).Some?)
    ensures !(DecodeBus(file).Some? && DecodeIndex(file).Some?)
  {
    assert GTDBL[2] != GTBUS[2] && GTDBL[2] != GTIDX[2] && GTBUS[2] != GTIDX[2];
  }

  lemma IndexTexts(x: Index)
    requires |x.ids| < UINT32_LIMIT && NoZeros(x.ids) && NoZeros(x.info)
    ensures var file := EncodeIndex(x); var end := 20 + |Texts(x.ids)|;
            && end <= |file| && ReadTexts(file, 20, |x.ids|) == Some((x.ids, end))
            && ReadTexts(file, end, |x.info|) == Some((x.info, |file|))
  {
    var front := GTIDX + DateBytes(x.utc) + BigEndian(Truncate32(|x.ids|));
    assert |front| == 20;
    assert EncodeIndex(x) == front + Texts(x.ids) + Texts(x.info);
    TwoLists(front, x.ids, x.info);
  }

  lemma TwoLists(front: seq<byte>, a: seq<Text>, b: seq<Text>)
    requires NoZeros(a) && NoZeros(b)
    ensures var file := front + Texts(a) + Texts(b); var end := |front| + |Texts(a)|;
            && ReadTexts(file, |front|, |a|) == Some((a, end))
            && ReadTexts(file, end, |b|) == Some((b, |file|))
  {
    TextsRoundTrip(front, a, Texts(b));
    TextsRoundTrip(front + Texts(a), b, []);
    assert front + Texts(a) + Texts(b) + [] == front + Texts(a) + Texts(b);
  }

  lemma IndexFields(x: Index)
    requires x.utc.InRange() && |x.ids| < UINT32_LIMIT
    ensures var file := EncodeIndex(x);
            && |file| >= 20 && file[..5] == GTIDX
            && file[5..16] == DateBytes(x.utc) && file[16..20] == BigEndian(|x.ids|)
  {
    var (date, count) := (DateBytes(x.utc), BigEndian(|x.ids|));
    assert EncodeIndex(x) == GTIDX + date + count + Texts(x.ids) + Texts(x.info)
        by { assert Truncate32(|x.ids|) == |x.ids|; }
    IndexPieces(GTIDX, date, count, Texts(x.ids), Texts(x.info));
  }

  method WriteIndexFile(utc: Utc, ids: seq<Text>, version: Text, modelName: Text, compileDate: Text,
                        compilerVersion: Text, osInfo: Text)
    returns (file: seq<byte>)
    ensures file == EncodeIndex(Index(utc, ids, [version, modelName, compileDate, compilerVersion, osInfo]))
  {
    file := GTIDX;
    file := file + DateBytes(utc);
    file := file + BigEndian(Truncate32(|ids|));
    ghost var front := file;
    var i := 0;
    while i < |ids|
      invariant i <= |ids|
      invariant file + Texts(ids[i..]) == front + Texts(ids)
    {
      assert ids[i..][1..] == ids[i + 1..];
      file := file + ids[i];
      file := file + [0];
      i := i + 1;
    }
    assert ids[i..] == [] && file == front + Texts(ids);
    FiveTexts(file, version, modelName, compileDate, compilerVersion, osInfo);
    file := file + version + [0];
    file := file + modelName + [0];
    file := file + compileDate + [0];
    file := file + compilerVersion + [0];
    file := file + osInfo + [0];
  }

  lemma FiveTexts(front: seq<byte>, a: Text, b: Text, c: Text, d: Text, e: Text)
    ensures front + Texts([a, b, c, d, e])
            == front + a + [0] + b + [0] + c + [0] + d + [0] + e + [0]
  {
    assert [a, b, c, d, e][1..] == [b, c, d, e] && [b, c, d, e][1..] == [c, d, e];
    ThreeTexts(c, d, e);
    assert Texts([a, b, c, d, e]) == a + [0] + (b + [0] + Texts([c, d, e]));
  }
}
