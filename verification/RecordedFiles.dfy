/**
 From a write to the decoder: what a reader of the documented format finds in the files of a finished run.
 This joins the recorder (`DataRecorder`, `RecorderProtocol`) with the file format (`FileFormat`).
 */
module RecordedFiles {
  import opened Arithmetic
  import opened Bytes
  import opened Options
  import D = DataRecorder
  import Dimensions
  import P = RecorderProtocol
  import F = FileFormat

  /** A double in memory: eight bytes in the byte order of the host. */
  type Word = w: seq<byte> | |w| == 8 witness [0, 0, 0, 0, 0, 0, 0, 0]

  /** The bytes of recorded elements; `image` is one element in memory. */
  function Serialize<T>(s: seq<T>, image: T -> seq<byte>): seq<byte> {
    if s == [] then [] else image(s[0]) + Serialize(s[1..], image)
  }

  lemma {:induction false} SerializeConcat<T>(a: seq<T>, b: seq<T>, image: T -> seq<byte>)
    ensures Serialize(a + b, image) == Serialize(a, image) + Serialize(b, image)
    decreases |a|
  {
    if a == [] {
      assert a + b == b;
    } else {
      assert (a + b)[1..] == a[1..] + b;
      SerializeConcat(a[1..], b, image);
    }
  }

  lemma {:induction false} SerializeLength<T(!new)>(s: seq<T>, image: T -> seq<byte>, k: nat)
    requires forall t :: |image(t)| == k
    ensures |Serialize(s, image)| == k * |s|
    decreases |s|
  {
    if s != [] { SerializeLength(s[1..], image, k); }
  }

  /** How a data file is read: its magic, its number of strings and the size of a sample. */
  datatype Reader = Reader(meta: F.Meta, width: uint32 -> nat)
  {
    predicate Ok() {
      && |meta.magic| == 5 && F.NoZeros(meta.texts) && F.HeaderLength(meta) < UINT32_LIMIT
      && width(meta.count) > 0
    }
  }

  function FileBytes<T>(f: D.DataFile<T>, image: T -> seq<byte>): seq<byte> { f.header + Serialize(f.data, image) }

  /** The samples of one file, if it decodes and says about itself what the reader expects. */
  function DecodeFile<T>(f: D.DataFile<T>, r: Reader, image: T -> seq<byte>): Option<seq<seq<byte>>>
    requires |r.meta.magic| == 5 && forall c :: r.width(c) > 0
  {
    match F.Decode(FileBytes(f, image), r.meta.magic, |r.meta.texts|, r.width)
    case Some(file) => if file.meta == r.meta then Some(file.samples) else None
    case None => None
  }

  /** All parts one after the other, if there is none missing. */
  function AllOf<X>(parts: seq<Option<seq<X>>>): Option<seq<X>> {
    if parts == [] then Some([])
    else
      match (AllOf(parts[..|parts| - 1]), parts[|parts| - 1])
      case (Some(front), Some(last)) => Some(front + last)
      case _ => None
  }

  predicate AllThere<T>(files: map<nat, D.DataFile<T>>, n: nat) { forall j :: 0 <= j < n ==> j in files }

  /** Decodes the first n files and puts their samples one after the other. */
  function DecodeFiles<T>(files: map<nat, D.DataFile<T>>, n: nat, r: Reader, image: T -> seq<byte>)
    : Option<seq<seq<byte>>>
    requires |r.meta.magic| == 5 && forall c :: r.width(c) > 0
  {
    if AllThere(files, n) then
      AllOf(seq(n, j requires 0 <= j < n && j in files => DecodeFile(files[j], r, image)))
    else None
  }

  function Flat(datas: seq<seq<byte>>): seq<byte> {
    if datas == [] then [] else Flat(datas[..|datas| - 1]) + datas[|datas| - 1]
  }

  /** Cutting data that lies in several places is cutting all of it. */
  lemma {:induction false} CutTogether(datas: seq<seq<byte>>, parts: seq<Option<seq<seq<byte>>>>, w: nat)
    requires w > 0 && |parts| == |datas|
    requires forall i :: 0 <= i < |datas| ==> parts[i] == F.Samples(datas[i], w) && parts[i].Some?
    ensures F.Samples(Flat(datas), w).Some? && AllOf(parts) == F.Samples(Flat(datas), w)
    decreases |datas|
  {
    if datas != [] {
      var n := |datas| - 1;
      CutTogether(datas[..n], parts[..n], w);
      F.SamplesConcat(Flat(datas[..n]), datas[n], w);
    }
  }

  /** The bytes of the recorded data of the first n files. */
  function DataBytes<T>(files: map<nat, D.DataFile<T>>, n: nat, image: T -> seq<byte>): (r: seq<seq<byte>>)
    requires AllThere(files, n)
    ensures |r| == n && forall j :: 0 <= j < n ==> r[j] == Serialize(files[j].data, image)
  {
    seq(n, j requires 0 <= j < n && j in files => Serialize(files[j].data, image))
  }

  lemma {:induction false} StoredIsFlat<T>(files: map<nat, D.DataFile<T>>, n: nat, image: T -> seq<byte>)
    requires AllThere(files, n)
    ensures Flat(DataBytes(files, n, image)) == Serialize(D.Stored(files, n), image)
  {
    if n > 0 {
      StoredIsFlat(files, n - 1, image);
      SerializeConcat(D.Stored(files, n - 1), files[n - 1].data, image);
      assert DataBytes(files, n, image)[..n - 1] == DataBytes(files, n - 1, image);
    }
  }

  ghost predicate WidthsOk(r: Reader) { |r.meta.magic| == 5 && forall c :: r.width(c) > 0 }

  /** A file decodes to the samples of its own data, w bytes each. */
  ghost predicate Decodes<T>(f: D.DataFile<T>, r: Reader, image: T -> seq<byte>, w: nat)
    requires WidthsOk(r) && w > 0
  {
    DecodeFile(f, r, image).Some? && DecodeFile(f, r, image) == F.Samples(Serialize(f.data, image), w)
  }

  ghost predicate AllDecode<T>(files: map<nat, D.DataFile<T>>, n: nat, r: Reader, image: T -> seq<byte>, w: nat)
    requires WidthsOk(r) && w > 0
  {
    forall j :: 0 <= j < n ==> j in files && Decodes(files[j], r, image, w)
  }

  /** When every file decodes to its own samples, all of them together decode to what the recorder stored. */
  lemma FilesDecode<T>(files: map<nat, D.DataFile<T>>, n: nat, r: Reader, image: T -> seq<byte>, w: nat)
    requires WidthsOk(r) && w > 0 && AllDecode(files, n, r, image, w)
    ensures DecodeFiles(files, n, r, image).Some?
    ensures DecodeFiles(files, n, r, image) == F.Samples(Serialize(D.Stored(files, n), image), w)
  {
    assert AllThere(files, n);
    var parts := seq(n, j requires 0 <= j < n && j in files => DecodeFile(files[j], r, image));
    forall j | 0 <= j < n ensures parts[j] == F.Samples(DataBytes(files, n, image)[j], w) && parts[j].Some? {
      assert Decodes(files[j], r, image, w);
    }
    CutTogether(DataBytes(files, n, image), parts, w);
    StoredIsFlat(files, n, image);
  }

  lemma OneFileDecodes<T(!new)>(c: D.Settings, f: D.DataFile<T>, r: Reader, image: T -> seq<byte>, k: nat)
    requires c.Ok() && r.Ok() && f.header == F.Header(r.meta) && k > 0 && |f.data| % c.Width() == 0
    requires (forall t :: |image(t)| == k) && (forall c' :: r.width(c') > 0) && r.width(r.meta.count) == k * c.Width()
    ensures Decodes(f, r, image, r.width(r.meta.count))
  {
    SerializeLength(f.data, image, k);
    WholeBytes(|f.data|, c.Width(), k);
    F.FileRoundTrip(r.meta, Serialize(f.data, image), r.width);
  }

  lemma WholeBytes(length: nat, w: nat, k: nat)
    requires w > 0 && k > 0 && length % w == 0
    ensures k * w > 0 && (k * length) % (k * w) == 0
  {
    MulMono(w, 1, k);
    assert k * length == (k * w) * (length / w) by { assert length == w * (length / w); }
    MulMod(k * w, length / w);
  }

  /** The settings of a scalar recorder with its header, and of a bus recorder with its. */
  function DoublesSettings(labels: F.Text, numSignals: uint32, perFile: nat, bigEndian: bool): D.Settings {
    D.Settings(1, numSignals, perFile, F.Header(F.DoublesMeta(labels, numSignals, bigEndian)))
  }

  function BusSettings(labels: F.Text, dimensions: F.Text, dataTypes: F.Text,
                       numBytes: uint32, perFile: nat, bigEndian: bool): D.Settings
  {
    D.Settings(8, numBytes, perFile, F.Header(F.BusMeta(labels, dimensions, dataTypes, numBytes, bigEndian)))
  }

  function WordImage(w: Word): seq<byte> { w }
  function ByteImage(b: byte): seq<byte> { [b] }

  /** A double of a bus takes as many bytes as one of a scalar recorder, and so does its timestamp. */
  lemma DoublesAreWords(w: Word, numSignals: uint32, numBytes: uint32)
    ensures |WordImage(w)| == Dimensions.SizeOfType(Dimensions.Double)
    ensures F.DoublesWidth(numSignals) == |WordImage(w)| + numSignals * |WordImage(w)|
    ensures F.BusWidth(numBytes) == |WordImage(w)| + numBytes
  {
  }

  /**
   End to end: when a run has ended and its flush dropped nothing, decoding the files in order gives exactly the
   samples accepted before the flush, in order, whatever the interleaving, the failures on the way and the
   rotation.
   */
  lemma RunDecodes<T(!new)>(s: P.State<T>, r: Reader, image: T -> seq<byte>, k: nat)
    requires P.Reachable(s) && P.Fits(s) && s.main == P.Stopped && s.dropped == []
    requires r.Ok() && s.settings.header == F.Header(r.meta) && k > 0
    requires (forall t :: |image(t)| == k) && (forall c :: r.width(c) > 0)
        && r.width(r.meta.count) == k * s.settings.Width()
    ensures |s.buffer| <= |s.accepted|
    ensures DecodeFiles(s.disk.files, s.disk.created, r, image).Some?
    ensures DecodeFiles(s.disk.files, s.disk.created, r, image)
            == F.Samples(Serialize(s.accepted[..|s.accepted| - |s.buffer|], image), r.width(r.meta.count))
  {
    P.FlushCompletes(s);
    P.SamplesConserved(s);
    forall j | 0 <= j < s.disk.created ensures Decodes(s.disk.files[j], r, image, r.width(r.meta.count)) {
      OneFileDecodes(s.settings, s.disk.files[j], r, image, k);
    }
    FilesDecode(s.disk.files, s.disk.created, r, image, r.width(r.meta.count));
  }

  /** For the scalar recorder, with the decoder of the doubles data file. */
  lemma DoublesRunDecodes(s: P.State<Word>, labels: F.Text, numSignals: uint32, bigEndian: bool)
    requires P.Reachable(s) && P.Fits(s) && s.main == P.Stopped && s.dropped == []
    requires s.settings == DoublesSettings(labels, numSignals, s.settings.perFile, bigEndian)
    requires F.NoZero(labels) && 15 + |labels| < UINT32_LIMIT
    ensures |s.buffer| <= |s.accepted| && s.settings.stamp == 1 && s.settings.values == numSignals
    ensures DecodeFiles(s.disk.files, s.disk.created,
                        Reader(F.DoublesMeta(labels, numSignals, bigEndian), F.DoublesWidth), WordImage)
            == F.Samples(Serialize(s.accepted[..|s.accepted| - |s.buffer|], WordImage), 8 * (1 + numSignals))
  {
    var r := Reader(F.DoublesMeta(labels, numSignals, bigEndian), F.DoublesWidth);
    DoublesReader(labels, numSignals, s.settings.perFile, bigEndian);
    RunDecodes(s, r, WordImage, 8);
  }

  lemma DoublesReader(labels: F.Text, numSignals: uint32, perFile: nat, bigEndian: bool)
    requires F.NoZero(labels) && 15 + |labels| < UINT32_LIMIT
    ensures var (r, c) := (Reader(F.DoublesMeta(labels, numSignals, bigEndian), F.DoublesWidth),
                           DoublesSettings(labels, numSignals, perFile, bigEndian));
            r.Ok() && c.header == F.Header(r.meta) && r.width(r.meta.count) == 8 * c.Width()
                && c.Width() == 1 + numSignals
  {
    assert F.Texts([labels]) == labels + [0];
  }

  /** For the bus recorder, with the decoder of the bus data file. */
  lemma BusRunDecodes(s: P.State<byte>, labels: F.Text, dimensions: F.Text, dataTypes: F.Text,
                      numBytes: uint32, bigEndian: bool)
    requires P.Reachable(s) && P.Fits(s) && s.main == P.Stopped && s.dropped == []
    requires s.settings == BusSettings(labels, dimensions, dataTypes, numBytes, s.settings.perFile, bigEndian)
    requires F.NoZero(labels) && F.NoZero(dimensions) && F.NoZero(dataTypes)
    requires 17 + |labels| + |dimensions| + |dataTypes| < UINT32_LIMIT
    ensures |s.buffer| <= |s.accepted| && s.settings.stamp == 8 && s.settings.values == numBytes
    ensures DecodeFiles(s.disk.files, s.disk.created,
                        Reader(F.BusMeta(labels, dimensions, dataTypes, numBytes, bigEndian), F.BusWidth), ByteImage)
            == F.Samples(s.accepted[..|s.accepted| - |s.buffer|], 8 + numBytes)
  {
    var r := Reader(F.BusMeta(labels, dimensions, dataTypes, numBytes, bigEndian), F.BusWidth);
    BusRunDecodesSerialized(s, r, labels, dimensions, dataTypes, numBytes, bigEndian);
    SerializeBytes(s.accepted[..|s.accepted| - |s.buffer|]);
  }

  lemma BusRunDecodesSerialized(s: P.State<byte>, r: Reader, labels: F.Text, dimensions: F.Text, dataTypes: F.Text,
                                numBytes: uint32, bigEndian: bool)
    requires P.Reachable(s) && P.Fits(s) && s.main == P.Stopped && s.dropped == []
    requires s.settings == BusSettings(labels, dimensions, dataTypes, numBytes, s.settings.perFile, bigEndian)
    requires F.NoZero(labels) && F.NoZero(dimensions) && F.NoZero(dataTypes)
    requires 17 + |labels| + |dimensions| + |dataTypes| < UINT32_LIMIT
    requires r == Reader(F.BusMeta(labels, dimensions, dataTypes, numBytes, bigEndian), F.BusWidth)
    ensures |s.buffer| <= |s.accepted|
    ensures DecodeFiles(s.disk.files, s.disk.created, r, ByteImage)
            == F.Samples(Serialize(s.accepted[..|s.accepted| - |s.buffer|], ByteImage), 8 + numBytes)
  {
    BusReader(labels, dimensions, dataTypes, numBytes, s.settings.perFile, bigEndian);
    RunDecodes(s, r, ByteImage, 1);
  }

  lemma BusReader(labels: F.Text, dimensions: F.Text, dataTypes: F.Text, numBytes: uint32, perFile: nat,
                  bigEndian: bool)
    requires F.NoZero(labels) && F.NoZero(dimensions) && F.NoZero(dataTypes)
    requires 17 + |labels| + |dimensions| + |dataTypes| < UINT32_LIMIT
    ensures var (r, c) := (Reader(F.BusMeta(labels, dimensions, dataTypes, numBytes, bigEndian), F.BusWidth),
                           BusSettings(labels, dimensions, dataTypes, numBytes, perFile, bigEndian));
            r.Ok() && c.header == F.Header(r.meta) && r.width(r.meta.count) == c.Width() && c.Width() == 8 + numBytes
  {
    F.ThreeTexts(labels, dimensions, dataTypes);
  }

  lemma {:induction false} SerializeBytes(s: seq<byte>)
    ensures Serialize(s, ByteImage) == s
    decreases |s|
  {
    if s != [] { SerializeBytes(s[1..]); }
  }
}
