/**
 The data recorder's buffer and rotating files (library/drivers/GT_DriverImplementationDetails.cpp:185-422
 and GT_DriverImplementationDetails.hpp:240-274).

 The scalar recorder and the bus recorder differ in their element type only: doubles with one element of
 timestamp, or bytes with eight. `T` is that element type. An append to a file is atomic.
 */
module DataRecorder {
  import opened Arithmetic
  import opened Bytes

  /** What is fixed before the start; `stamp` and `values` are the elements of a timestamp and of one sample. */
  datatype Settings = Settings(stamp: nat, values: nat, perFile: nat, header: seq<byte>)
  {
    function Width(): nat { stamp + values }
    predicate Ok() { stamp > 0 }
  }

  datatype DataFile<T> = DataFile(header: seq<byte>, data: seq<T>)

  /**
   The files by number, and the recorder's position: number of the current file (32 bits), samples written to
   it, whether its header is written. `created` counts the headers written so far and is history.
   */
  datatype Disk<T> = Disk(files: map<nat, DataFile<T>>, number: uint32, written: nat, started: bool, created: nat)
  {
    function Finished(): int { if started then created - 1 else created }
  }

  function FreshDisk<T>(files: map<nat, DataFile<T>>): Disk<T> { Disk(files, 0, 0, false, 0) }

  /** The outcomes of the header, of opening the file for append, and of the append. */
  datatype Io = Io(headerOk: bool, openOk: bool, appendOk: bool)

  /** One pass of the write loop: the disk, the elements that remain, and whether the loop goes on. */
  datatype Chunk<T> = Chunk(disk: Disk<T>, rest: seq<T>, again: bool)

  function Min(a: nat, b: nat): nat { if a <= b then a else b }

  /** How many samples one pass writes: all of them, or at most a full file's worth. */
  function ChunkSize(c: Settings, length: nat): nat
    requires c.Ok()
  {
    if c.perFile > 0 then Min(length / c.Width(), c.perFile) else length / c.Width()
  }

  /** Begins the current file when necessary; the header truncates whatever the file held. */
  function BeginFile<T>(c: Settings, d: Disk<T>, io: Io): Disk<T> {
    if d.started || !io.headerOk then d
    else
      d.(files := d.files[d.number := DataFile(c.header, [])], started := true, written := 0, created := d.created + 1)
  }

  function AppendSamples<T>(c: Settings, d: Disk<T>, data: seq<T>, samples: nat): Disk<T> {
    var file := if d.number in d.files then d.files[d.number] else DataFile([], []);
    var written := d.written + samples;
    var full := c.perFile > 0 && written >= c.perFile;
    d.(files := d.files[d.number := file.(data := file.data + data)],
       written := written,
       started := !full,
       number := if full then Truncate32(d.number + 1) else d.number)
  }

  function WriteChunk<T>(c: Settings, d: Disk<T>, buffer: seq<T>, io: Io): (r: Chunk<T>)
    requires c.Ok()
    ensures r.again ==> |r.rest| < |buffer|
    ensures !r.again ==> r.rest == buffer
  {
    var begun := BeginFile(c, d, io);
    var samples := ChunkSize(c, |buffer|);
    if !begun.started || samples == 0 || !io.openOk || !io.appendOk then Chunk(begun, buffer, false)
    else
      ChunkFits(c, |buffer|);
      Chunk(AppendSamples(c, begun, buffer[..samples * c.Width()], samples), buffer[samples * c.Width()..], true)
  }

  lemma ChunkFits(c: Settings, length: nat)
    requires c.Ok()
    ensures ChunkSize(c, length) * c.Width() <= length
    ensures ChunkSize(c, length) > 0 ==> ChunkSize(c, length) * c.Width() > 0
    ensures length % c.Width() == 0 ==> (length - ChunkSize(c, length) * c.Width()) % c.Width() == 0
  {
    var w, n := c.Width(), ChunkSize(c, length);
    MulMono(w, n, length / w);
    if n > 0 { MulMono(w, 1, n); }
    if length % w == 0 {
      assert length - n * w == w * (length / w - n);
      MulMod(w, length / w - n);
    }
  }

  /** The write loop: passes until the buffer is empty or one of them gives up. */
  function WriteBuffer<T>(c: Settings, d: Disk<T>, buffer: seq<T>, io: nat -> Io, k: nat): Chunk<T>
    requires c.Ok()
    decreases |buffer|
  {
    if buffer == [] then Chunk(d, [], false)
    else
      var r := WriteChunk(c, d, buffer, io(k));
      if r.again then WriteBuffer(c, r.disk, r.rest, io, k + 1) else r
  }

  // ---- What the files hold ----

  /** The recorded data of the first n files in order. */
  function Stored<T>(files: map<nat, DataFile<T>>, n: nat): seq<T> {
    if n == 0 then []
    else Stored(files, n - 1) + if n - 1 in files then files[n - 1].data else []
  }

  lemma {:induction false} StoredFrame<T>(f: map<nat, DataFile<T>>, g: map<nat, DataFile<T>>, n: nat)
    requires forall k :: 0 <= k < n ==> (k in f <==> k in g) && (k in f ==> f[k] == g[k])
    ensures Stored(f, n) == Stored(g, n)
  {
    if n > 0 { StoredFrame(f, g, n - 1); }
  }

  /**
   The state between two passes. Finished files hold at least `perFile` samples and fewer than twice that many,
   the started one holds fewer than `perFile`, and all of them hold whole samples behind their header.
   */
  ghost predicate DiskOk<T>(c: Settings, d: Disk<T>) {
    && c.Ok()
    && d.created <= UINT32_LIMIT
    && d.Finished() >= 0
    && d.number == Truncate32(d.Finished())
    && (forall k :: 0 <= k < d.created ==>
          k in d.files && d.files[k].header == c.header && |d.files[k].data| % c.Width() == 0)
    && (forall k :: 0 <= k < d.Finished() ==>
          k in d.files && 0 < c.perFile <= |d.files[k].data| / c.Width() < 2 * c.perFile)
    && (d.started ==>
          |d.files[d.created - 1].data| == d.written * c.Width() && (c.perFile > 0 ==> d.written < c.perFile))
  }

  lemma FreshDiskOk<T>(c: Settings, files: map<nat, DataFile<T>>)
    requires c.Ok()
    ensures DiskOk(c, FreshDisk(files))
  {
  }

  lemma BeginFileKeeps<T>(c: Settings, d: Disk<T>, io: Io)
    requires DiskOk(c, d) && BeginFile(c, d, io).created <= UINT32_LIMIT
    ensures var b := BeginFile(c, d, io);
            && DiskOk(c, b) && b.Finished() == d.Finished()
            && Stored(b.files, b.created) == Stored(d.files, d.created)
            && (forall k :: 0 <= k < d.created ==> k in b.files && b.files[k] == d.files[k])
  {
    var b := BeginFile(c, d, io);
    if b != d {
      assert b.number == d.created;
      DivModUnique(0, c.Width(), 0, 0);
      StoredFrame(d.files, b.files, d.created);
    }
  }

  lemma AppendStores<T>(c: Settings, d: Disk<T>, data: seq<T>, samples: nat)
    requires d.created > 0 && d.number == d.created - 1 && d.number in d.files
    ensures var a := AppendSamples(c, d, data, samples);
            && a.files == d.files[d.number := d.files[d.number].(data := d.files[d.number].data + data)]
            && Stored(a.files, d.created) == Stored(d.files, d.created) + data
  {
    var a, n := AppendSamples(c, d, data, samples), d.created - 1;
    StoredFrame(d.files, a.files, n);
    assert Stored(d.files, n) + (d.files[n].data + data) == Stored(d.files, n) + d.files[n].data + data;
  }

  // The files after an append, whether it finishes the current one or not.
  lemma AppendKeepsFiles<T>(c: Settings, d: Disk<T>, data: seq<T>, samples: nat)
    requires DiskOk(c, d) && d.started && samples > 0 && |data| == samples * c.Width()
    ensures var (a, n, w) := (AppendSamples(c, d, data, samples), d.created - 1, c.Width());
            && (forall k :: 0 <= k < d.created ==>
                  k in a.files && a.files[k].header == c.header && |a.files[k].data| % w == 0)
            && (forall k :: 0 <= k < n ==> a.files[k] == d.files[k])
            && |a.files[n].data| == (d.written + samples) * w && |a.files[n].data| / w == d.written + samples
            && Stored(a.files, d.created) == Stored(d.files, d.created) + data
  {
    var a, n, w := AppendSamples(c, d, data, samples), d.created - 1, c.Width();
    assert d.number == n && n in d.files;
    AppendStores(c, d, data, samples);
    AppendedLength(d.written, samples, w, |a.files[n].data|);
  }

  lemma AppendKeeps<T>(c: Settings, d: Disk<T>, data: seq<T>, samples: nat)
    requires DiskOk(c, d) && d.started && samples > 0 && |data| == samples * c.Width()
    requires c.perFile > 0 ==> samples <= c.perFile
    ensures var a := AppendSamples(c, d, data, samples);
            && DiskOk(c, a) && a.created == d.created
            && Stored(a.files, a.created) == Stored(d.files, d.created) + data
            && (forall k :: 0 <= k < d.Finished() ==> k in a.files && a.files[k] == d.files[k])
  {
    AppendKeepsFiles(c, d, data, samples);
  }

  lemma AppendedLength(written: nat, samples: nat, w: nat, length: nat)
    requires w > 0 && length == written * w + samples * w
    ensures length == (written + samples) * w && length % w == 0 && length / w == written + samples
  {
    Distribute(written, samples, w);
    MulMod(w, written + samples);
  }

  /**
   One pass conserves the samples: what the files hold followed by what remains is unchanged, in order, and
   finished files are never touched again. (As long as the file number has not wrapped.)
   */
  lemma ChunkConserves<T>(c: Settings, d: Disk<T>, buffer: seq<T>, io: Io)
    requires DiskOk(c, d) && WriteChunk(c, d, buffer, io).disk.created <= UINT32_LIMIT
    ensures var r := WriteChunk(c, d, buffer, io);
            && DiskOk(c, r.disk) && d.created <= r.disk.created
            && Stored(r.disk.files, r.disk.created) + r.rest == Stored(d.files, d.created) + buffer
            && (forall k :: 0 <= k < d.Finished() ==> k in r.disk.files && r.disk.files[k] == d.files[k])
            && (|buffer| % c.Width() == 0 ==> |r.rest| % c.Width() == 0)
  {
    var r, b := WriteChunk(c, d, buffer, io), BeginFile(c, d, io);
    BeginFileKeeps(c, d, io);
    ChunkFits(c, |buffer|);
    if r.again {
      var n := ChunkSize(c, |buffer|);
      AppendKeeps(c, b, buffer[..n * c.Width()], n);
      TakeDrop(Stored(b.files, b.created), buffer, n * c.Width());
    }
  }

  lemma TakeDrop<T>(s: seq<T>, buffer: seq<T>, k: nat)
    requires k <= |buffer|
    ensures s + buffer[..k] + buffer[k..] == s + buffer
  {
    assert buffer[..k] + buffer[k..] == buffer;
  }

  /** The same for the whole loop, whatever its calls do; it leaves a whole number of samples. */
  lemma {:induction false} WriteConserves<T>(c: Settings, d: Disk<T>, buffer: seq<T>, io: nat -> Io, k: nat)
    requires DiskOk(c, d) && WriteBuffer(c, d, buffer, io, k).disk.created <= UINT32_LIMIT
    ensures var r := WriteBuffer(c, d, buffer, io, k);
            && DiskOk(c, r.disk)
            && Stored(r.disk.files, r.disk.created) + r.rest == Stored(d.files, d.created) + buffer
            && (forall j :: 0 <= j < d.Finished() ==> j in r.disk.files && r.disk.files[j] == d.files[j])
            && (|buffer| % c.Width() == 0 ==> |r.rest| % c.Width() == 0)
    decreases |buffer|
  {
    if buffer != [] {
      var r := WriteChunk(c, d, buffer, io(k));
      if r.again {
        CreatedGrows(c, r.disk, r.rest, io, k + 1);
        ChunkConserves(c, d, buffer, io(k));
        WriteConserves(c, r.disk, r.rest, io, k + 1);
      } else {
        ChunkConserves(c, d, buffer, io(k));
      }
    }
  }

  lemma {:induction false} CreatedGrows<T>(c: Settings, d: Disk<T>, buffer: seq<T>, io: nat -> Io, k: nat)
    requires c.Ok()
    ensures d.created <= WriteBuffer(c, d, buffer, io, k).disk.created
    decreases |buffer|
  {
    if buffer != [] {
      var r := WriteChunk(c, d, buffer, io(k));
      if r.again { CreatedGrows(c, r.disk, r.rest, io, k + 1); }
    }
  }

  ghost predicate AllOk(io: nat -> Io) { forall k :: io(k) == Io(true, true, true) }

  /** When no call fails the loop writes every whole sample. */
  lemma {:induction false} NothingLeft<T>(c: Settings, d: Disk<T>, buffer: seq<T>, io: nat -> Io, k: nat)
    requires c.Ok() && AllOk(io) && |buffer| % c.Width() == 0
    ensures WriteBuffer(c, d, buffer, io, k).rest == []
    decreases |buffer|
  {
    if buffer != [] {
      assert io(k) == Io(true, true, true);
      ChunkFits(c, |buffer|);
      var w := c.Width();
      assert |buffer| / w > 0 by { DivModUnique(|buffer|, w, |buffer| / w, 0); }
      var r := WriteChunk(c, d, buffer, io(k));
      NothingLeft(c, r.disk, r.rest, io, k + 1);
    }
  }

  /** A call of the pass fails: the header of a file that has none yet, the open, or the append. */
  predicate PassFails<T>(d: Disk<T>, io: Io) {
    (!d.started && !io.headerOk) || !io.openOk || !io.appendOk
  }

  /** With whole samples to write, a pass gives up exactly when one of its calls fails. */
  lemma GivesUpExactly<T>(c: Settings, d: Disk<T>, buffer: seq<T>, io: Io)
    requires c.Ok() && buffer != [] && |buffer| % c.Width() == 0
    ensures WriteChunk(c, d, buffer, io).again <==> !PassFails(d, io)
  {
    var w := c.Width();
    assert |buffer| / w > 0 by { DivModUnique(|buffer|, w, |buffer| / w, 0); }
  }

  // ---- Rotation ----

  /** The samples of the current file after a pass, when it appends. */
  function FileAfter<T>(c: Settings, d: Disk<T>, buffer: seq<T>): nat
    requires c.Ok()
  {
    (if d.started then d.written else 0) + ChunkSize(c, |buffer|)
  }

  /** A pass makes a file larger than `perFile` exactly when the file already has samples and the chunk does not fit. */
  lemma RotationOvershoots<T>(c: Settings, d: Disk<T>, buffer: seq<T>, io: Io)
    requires DiskOk(c, d) && c.perFile > 0 && WriteChunk(c, d, buffer, io).again
    requires WriteChunk(c, d, buffer, io).disk.created <= UINT32_LIMIT
    ensures var f := WriteChunk(c, d, buffer, io).disk.files; var n := d.Finished();
            && n in f
            && |f[n].data| / c.Width() == FileAfter(c, d, buffer)
            && (|f[n].data| / c.Width() > c.perFile <==>
                  d.started && d.written > 0 && d.written + |buffer| / c.Width() > c.perFile)
  {
    var b, n, w := BeginFile(c, d, io), ChunkSize(c, |buffer|), c.Width();
    BeginFileKeeps(c, d, io);
    ChunkFits(c, |buffer|);
    var f := WriteChunk(c, d, buffer, io).disk.files;
    assert b.number == d.Finished() && b.written == if d.started then d.written else 0;
    assert f[b.number].data == b.files[b.number].data + buffer[..n * w];
    AppendedLength(b.written, n, w, |f[b.number].data|);
  }

  /** One write from scratch of a number of whole samples that does not fill the file. */
  lemma FirstWrite<T>(c: Settings, buffer: seq<T>, n: nat, io: nat -> Io)
    requires c.Ok() && AllOk(io) && |buffer| == n * c.Width() && 0 < n < c.perFile
    ensures WriteBuffer(c, FreshDisk(map[]), buffer, io, 0)
            == Chunk(Disk(map[0 := DataFile(c.header, buffer)], 0, n, true, 1), [], false)
  {
    assert io(0) == Io(true, true, true);
    MulMod(c.Width(), n);
    MulMono(c.Width(), 1, n);
    var r := WriteChunk(c, FreshDisk(map[]), buffer, io(0));
    assert buffer[..n * c.Width()] == buffer && r.rest == [] && [] + buffer == buffer;
    assert r.disk.files == map[0 := DataFile(c.header, buffer)];
  }

  /**
   The bound 2 * perFile - 1 is reached: perFile - 1 samples, then perFile more, end up in one file.
   */
  lemma RotationBoundIsTight<T>(c: Settings, first: seq<T>, second: seq<T>, io: nat -> Io)
    requires c.Ok() && AllOk(io) && c.perFile > 1
    requires |first| == (c.perFile - 1) * c.Width() && |second| == c.perFile * c.Width()
    ensures var one := WriteBuffer(c, FreshDisk(map[]), first, io, 0).disk;
            var two := WriteBuffer(c, one, second, io, 0).disk;
            && two.created == 1 && !two.started && two.number == 1
            && 0 in two.files && two.files[0].data == first + second
            && |two.files[0].data| / c.Width() == 2 * c.perFile - 1
            && 2 * c.perFile - 1 > c.perFile
  {
    var w, n := c.Width(), c.perFile;
    FirstWrite(c, first, n - 1, io);
    var one := Disk(map[0 := DataFile(c.header, first)], 0, n - 1, true, 1);
    SecondWrite(c, one, second, io);
    AppendedLength(n - 1, n, w, |first + second|);
  }

  /** A full file's worth of samples appended to a started file completes it in one pass. */
  lemma SecondWrite<T>(c: Settings, d: Disk<T>, buffer: seq<T>, io: nat -> Io)
    requires c.Ok() && AllOk(io) && c.perFile > 0 && |buffer| == c.perFile * c.Width()
    requires d.started && d.number in d.files
    ensures WriteBuffer(c, d, buffer, io, 0) == Chunk(AppendSamples(c, d, buffer, c.perFile), [], false)
  {
    assert io(0) == Io(true, true, true);
    MulMod(c.Width(), c.perFile);
    MulMono(c.Width(), 1, c.perFile);
    var r := WriteChunk(c, d, buffer, io(0));
    assert buffer[..c.perFile * c.Width()] == buffer && r.rest == [];
    assert WriteBuffer(c, d, buffer, io, 0) == WriteBuffer(c, r.disk, r.rest, io, 1);
  }

  /**
   The sizes of all files of the run so far, also after the file number has wrapped: none holds more than
   2 * perFile - 1 samples, and the started one holds what has been counted.
   */
  ghost predicate SizesOk<T>(c: Settings, d: Disk<T>) {
    && c.Ok() && d.Finished() >= 0
    && d.number == Truncate32(d.Finished())
    && (forall k :: 0 <= k < Min(d.created, UINT32_LIMIT) ==>
          k in d.files && |d.files[k].data| <= (2 * c.perFile - 1) * c.Width())
    && (d.started ==> d.written < c.perFile && |d.files[d.number].data| == d.written * c.Width())
  }

  lemma NumberIsCreated<T>(d: Disk<T>)
    requires d.Finished() >= 0 && d.number == Truncate32(d.Finished())
    ensures d.started ==> d.number < Min(d.created, UINT32_LIMIT)
    ensures d.Finished() < UINT32_LIMIT ==> d.number == d.Finished()
  {
  }

  lemma BeginKeepsSizes<T>(c: Settings, d: Disk<T>, io: Io)
    requires SizesOk(c, d) && c.perFile > 0
    ensures SizesOk(c, BeginFile(c, d, io))
  {
    NumberIsCreated(d);
    MulMono(c.Width(), 0, 2 * c.perFile - 1);
  }

  lemma AppendKeepsSizes<T>(c: Settings, d: Disk<T>, data: seq<T>, samples: nat)
    requires SizesOk(c, d) && d.started && samples <= c.perFile && |data| == samples * c.Width()
    ensures SizesOk(c, AppendSamples(c, d, data, samples))
  {
    var a, w := AppendSamples(c, d, data, samples), c.Width();
    NumberIsCreated(d);
    Distribute(d.written, samples, w);
    MulMono(w, d.written + samples, 2 * c.perFile - 1);
    assert a.files == d.files[d.number := a.files[d.number]];
    assert |a.files[d.number].data| == (d.written + samples) * w;
    assert a.number == Truncate32(a.Finished()) by { NextNumber(d.Finished()); }
  }

  lemma NextNumber(n: nat)
    ensures Truncate32(Truncate32(n) + 1) == Truncate32(n + 1)
  {
    ModStep(n, UINT32_LIMIT);
    ModStep(Truncate32(n), UINT32_LIMIT);
    DivModUnique(Truncate32(n), UINT32_LIMIT, 0, Truncate32(n));
  }

  lemma PassKeepsSizes<T>(c: Settings, d: Disk<T>, buffer: seq<T>, io: Io)
    requires SizesOk(c, d) && c.perFile > 0
    ensures SizesOk(c, WriteChunk(c, d, buffer, io).disk)
  {
    BeginKeepsSizes(c, d, io);
    ChunkFits(c, |buffer|);
    var samples := ChunkSize(c, |buffer|);
    if WriteChunk(c, d, buffer, io).again {
      AppendKeepsSizes(c, BeginFile(c, d, io), buffer[..samples * c.Width()], samples);
    }
  }

  // ---- The end of the file numbers ----

  lemma {:induction false} StoredLength<T>(f: map<nat, DataFile<T>>, g: map<nat, DataFile<T>>, n: nat)
    requires n > 0 && (forall k :: 0 <= k < n ==> k in f && k in g)
    requires forall k :: 0 < k < n ==> f[k] == g[k]
    ensures |Stored(f, n)| - |f[0].data| == |Stored(g, n)| - |g[0].data|
  {
    if n > 1 { StoredLength(f, g, n - 1); }
  }

  /**
   The 32-bit file number wraps after 2^32 files: the next header truncates file 0, and its samples are gone.
   Before that nothing is lost (`ChunkConserves`).
   */
  lemma WrapLosesFirstFile<T>(c: Settings, d: Disk<T>, buffer: seq<T>, io: Io)
    requires DiskOk(c, d) && d.created == UINT32_LIMIT && !d.started && io.headerOk
    ensures var r := WriteChunk(c, d, buffer, io); var n := UINT32_LIMIT;
            && |Stored(r.disk.files, n)| + |r.rest| == |Stored(d.files, n)| + |buffer| - |d.files[0].data|
            && |d.files[0].data| > 0
  {
    var r, b := WriteChunk(c, d, buffer, io), BeginFile(c, d, io);
    assert d.Finished() == UINT32_LIMIT && d.number == 0;
    assert |d.files[0].data| / c.Width() > 0;
    ChunkFits(c, |buffer|);
    assert forall k :: 0 < k < UINT32_LIMIT ==> r.disk.files[k] == d.files[k];
    StoredLength(d.files, r.disk.files, UINT32_LIMIT);
  }

  ghost predicate SmallNames<T>(d: Disk<T>) { forall n :: n in d.files ==> n < UINT32_LIMIT }

  lemma FullChunk(c: Settings, length: nat, n: nat)
    requires c.Ok() && c.perFile > 0 && n > 0 && length == n * (c.perFile * c.Width())
    ensures ChunkSize(c, length) == c.perFile
    ensures c.perFile * c.Width() <= length && length - c.perFile * c.Width() == (n - 1) * (c.perFile * c.Width())
  {
    var w, k := c.Width(), c.perFile;
    Regroup(n, k, w);
    MulMod(w, n * k);
    MulMono(k, 1, n);
    MulMono(k * w, 1, n);
    OneLess(n, k * w);
  }

  lemma Regroup(a: nat, b: nat, c: nat)
    ensures a * (b * c) == c * (a * b)
  {
  }

  lemma OneLess(n: nat, k: nat)
    ensures n * k - k == (n - 1) * k
  {
  }

  /** One pass that begins, fills and finishes a file. */
  lemma FillsFile<T>(c: Settings, d: Disk<T>, buffer: seq<T>, io: Io)
    requires DiskOk(c, d) && !d.started && c.perFile > 0 && io == Io(true, true, true) && SmallNames(d)
    requires ChunkSize(c, |buffer|) == c.perFile && d.created < UINT32_LIMIT
    ensures var r := WriteChunk(c, d, buffer, io);
            && c.perFile * c.Width() <= |buffer| && r.again && r.rest == buffer[c.perFile * c.Width()..]
            && DiskOk(c, r.disk) && !r.disk.started && r.disk.created == d.created + 1 && SmallNames(r.disk)
  {
    ChunkFits(c, |buffer|);
    ChunkConserves(c, d, buffer, io);
  }

  /** Without failures a write of n times `perFile` samples finishes n files. */
  lemma {:induction false} FillsFiles<T>(c: Settings, d: Disk<T>, buffer: seq<T>, n: nat, io: nat -> Io, k: nat)
    requires DiskOk(c, d) && !d.started && c.perFile > 0 && AllOk(io) && SmallNames(d)
    requires |buffer| == n * (c.perFile * c.Width()) && d.created + n <= UINT32_LIMIT
    ensures var r := WriteBuffer(c, d, buffer, io, k);
            && r.rest == [] && DiskOk(c, r.disk) && !r.disk.started && r.disk.created == d.created + n
            && SmallNames(r.disk)
    decreases n
  {
    if n > 0 {
      assert io(k) == Io(true, true, true);
      FullChunk(c, |buffer|, n);
      FillsFile(c, d, buffer, io(k));
      var r := WriteChunk(c, d, buffer, io(k));
      FillsFiles(c, r.disk, r.rest, n - 1, io, k + 1);
    }
  }

  function Copies<T>(x: T, n: nat): (r: seq<T>)
    ensures |r| == n && forall i :: 0 <= i < n ==> r[i] == x
  {
    seq(n, _ => x)
  }

  /** For every limit and every value, 2^32 full files are reached, and the next header destroys the first of them. */
  lemma WrapIsReached<T>(c: Settings, x: T, io: nat -> Io)
    requires c.Ok() && c.perFile > 0 && AllOk(io)
    ensures var d := WriteBuffer(c, FreshDisk(map[]), Copies(x, UINT32_LIMIT * (c.perFile * c.Width())), io, 0).disk;
            var r := WriteChunk(c, d, Copies(x, c.Width()), Io(true, true, true));
            && DiskOk(c, d) && d.created == UINT32_LIMIT && !d.started
            && |Stored(r.disk.files, UINT32_LIMIT)| + |r.rest| < |Stored(d.files, UINT32_LIMIT)| + c.Width()
  {
    FreshDiskOk<T>(c, map[]);
    var all := Copies(x, UINT32_LIMIT * (c.perFile * c.Width()));
    FillsFiles(c, FreshDisk(map[]), all, UINT32_LIMIT, io, 0);
    WrapLosesFirstFile(c, WriteBuffer(c, FreshDisk(map[]), all, io, 0).disk, Copies(x, c.Width()),
        Io(true, true, true));
  }

  /** A pass conserves the samples exactly unless it begins file number 2^32 (checked before the header is written). */
  lemma PassConservesExactly<T>(c: Settings, d: Disk<T>, buffer: seq<T>, io: Io)
    requires DiskOk(c, d) && buffer != []
    ensures var r := WriteChunk(c, d, buffer, io);
            |Stored(r.disk.files, Min(r.disk.created, UINT32_LIMIT))| + |r.rest|
            == |Stored(d.files, d.created)| + |buffer|
            <==> !(d.created == UINT32_LIMIT && !d.started && io.headerOk)
  {
    var r := WriteChunk(c, d, buffer, io);
    if d.created == UINT32_LIMIT && !d.started && io.headerOk {
      WrapLosesFirstFile(c, d, buffer, io);
      assert r.disk.created == UINT32_LIMIT + 1;
    } else {
      ChunkConserves(c, d, buffer, io);
      assert |Stored(r.disk.files, r.disk.created) + r.rest| == |Stored(d.files, d.created) + buffer|;
    }
  }

  lemma AtLeast(length: nat, w: nat, k: nat)
    requires w > 0 && k <= length / w
    ensures k * w <= length
  {
    MulMono(w, k, length / w);
    assert length == w * (length / w) + length % w;
  }

  /** Finished files use up samples, so a bounded number of samples bounds the number of files. */
  lemma {:induction false} StoredAtLeast<T>(c: Settings, files: map<nat, DataFile<T>>, n: nat)
    requires c.Ok() && c.perFile > 0
    requires forall k :: 0 <= k < n ==> k in files && c.perFile <= |files[k].data| / c.Width()
    ensures |Stored(files, n)| >= n * (c.perFile * c.Width())
  {
    if n > 0 {
      StoredAtLeast(c, files, n - 1);
      var w, m := c.Width(), |files[n - 1].data|;
      AtLeast(m, w, c.perFile);
      OneLess(n, c.perFile * w);
    }
  }

  // ---- The recorder object ----

  class DataRecorder<T> {
    const settings: Settings
    var buffer: seq<T>
    var events: nat
    var files: map<nat, DataFile<T>>
    var currentFileNumber: uint32
    var numSamplesWritten: nat
    var currentFileStarted: bool
    ghost var created: nat

    constructor (settings: Settings, files: map<nat, DataFile<T>>)
      requires settings.Ok()
      ensures this.settings == settings && buffer == [] && events == 0 && View() == FreshDisk(files)
      ensures this.files == files && currentFileNumber == 0 && numSamplesWritten == 0 && !currentFileStarted
    {
      this.settings := settings;
      buffer, events := [], 0;
      this.files, currentFileNumber, numSamplesWritten, currentFileStarted := files, 0, 0, false;
      created := 0;
    }

    ghost function View(): Disk<T>
      reads this
    {
      Disk(files, currentFileNumber, numSamplesWritten, currentFileStarted, created)
    }

    /** A sample of the wrong size is not recorded, but the recorder thread is notified all the same. */
    method Write(timestamp: seq<T>, values: seq<T>)
      requires |timestamp| == settings.stamp
      modifies `buffer, `events
      ensures buffer == old(buffer) + if |values| == settings.values then timestamp + values else []
      ensures events == old(events) + 1
    {
      if |values| == settings.values {
        buffer := buffer + timestamp + values;
        assert buffer == old(buffer) + (timestamp + values);
      }
      events := events + 1;
    }

    /** What the recorder thread does while it holds the buffer. */
    method TakeBuffer(local: seq<T>) returns (local': seq<T>)
      modifies `buffer
      ensures local' == local + old(buffer) && buffer == []
    {
      local' := local;
      if |buffer| > 0 {
        local' := local' + buffer;
        buffer := [];
      }
    }

    /** Creates or truncates the current file and writes its header; a failed open changes nothing. */
    method WriteHeader(openOk: bool) returns (ok: bool)
      modifies `files
      ensures ok == openOk
      ensures files == if ok then old(files)[currentFileNumber := DataFile(settings.header, [])] else old(files)
    {
      if openOk {
        files := files[currentFileNumber := DataFile(settings.header, [])];
      }
      ok := openOk;
    }

    /** The first part of a pass: a header for a file that has none yet. */
    method StartCurrentFile(io: Io) returns (ok: bool)
      modifies `files, `numSamplesWritten, `currentFileStarted, `created
      ensures View() == BeginFile(settings, old(View()), io) && ok == currentFileStarted
    {
      if !currentFileStarted {
        var headerOk := WriteHeader(io.headerOk);
        if !headerOk {
          return false;
        }
        currentFileStarted := true;
        numSamplesWritten := 0;
        created := created + 1;
      }
      ok := true;
    }

    /** The append of one chunk and, when the file is full, the move to the next file. */
    method Append(data: seq<T>, samples: nat)
      modifies `files, `currentFileNumber, `numSamplesWritten, `currentFileStarted
      requires currentFileStarted
      ensures View() == AppendSamples(settings, old(View()), data, samples)
    {
      var file := if currentFileNumber in files then files[currentFileNumber] else DataFile([], []);
      files := files[currentFileNumber := file.(data := file.data + data)];
      numSamplesWritten := numSamplesWritten + samples;
      if settings.perFile > 0 && numSamplesWritten >= settings.perFile {
        currentFileStarted := false;
        currentFileNumber := Truncate32(currentFileNumber + 1);
      }
    }

    method WriteBufferToDataFiles(values: seq<T>, io: nat -> Io) returns (rest: seq<T>)
      requires settings.Ok()
      modifies `files, `currentFileNumber, `numSamplesWritten, `currentFileStarted, `created
      ensures View() == WriteBuffer(settings, old(View()), values, io, 0).disk
      ensures rest == WriteBuffer(settings, old(View()), values, io, 0).rest
    {
      rest := values;
      var k := 0;
      while |rest| > 0
        invariant WriteBuffer(settings, old(View()), values, io, 0) == WriteBuffer(settings, View(), rest, io, k)
        decreases |rest|
      {
        ghost var pass := WriteChunk(settings, View(), rest, io(k));
        assert pass.again ==>
            WriteBuffer(settings, View(), rest, io, k) == WriteBuffer(settings, pass.disk, pass.rest, io, k + 1);
        assert !pass.again ==> WriteBuffer(settings, View(), rest, io, k) == pass;
        var started := StartCurrentFile(io(k));
        if !started {
          return;
        }
        var width := settings.stamp + settings.values;
        var numSamplesToWrite := |rest| / width;
        if settings.perFile > 0 {
          numSamplesToWrite := Min(numSamplesToWrite, settings.perFile);
        }
        if numSamplesToWrite == 0 {
          return;
        }
        if !io(k).openOk {
          return;
        }
        if !io(k).appendOk {
          return;
        }
        ChunkFits(settings, |rest|);
        var count := numSamplesToWrite * width;
        Append(rest[..count], numSamplesToWrite);
        rest := rest[count..];
        k := k + 1;
      }
    }

    /** Writes what is left at the end; samples that cannot be written are dropped and reported. */
    method FlushBuffer(io: nat -> Io) returns (success: bool)
      requires settings.Ok()
      modifies `buffer, `files, `currentFileNumber, `numSamplesWritten, `currentFileStarted, `created
      ensures View() == WriteBuffer(settings, old(View()), old(buffer), io, 0).disk
      ensures success <==> WriteBuffer(settings, old(View()), old(buffer), io, 0).rest == []
      ensures buffer == []
      ensures success && DiskOk(settings, old(View())) && created <= UINT32_LIMIT ==>
                Stored(files, created) == old(Stored(files, created)) + old(buffer)
    {
      success := true;
      var rest := WriteBufferToDataFiles(buffer, io);
      if DiskOk(settings, old(View())) && created <= UINT32_LIMIT {
        WriteConserves(settings, old(View()), buffer, io, 0);
      }
      buffer := rest;
      if |buffer| > 0 {
        buffer := [];
        success := false;
      }
    }
  }
}
