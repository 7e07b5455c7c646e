/**
 The manager of all recorders: identifiers, file names and the index file
 (library/drivers/GT_DriverImplementationDetails.cpp:205-207, 424-504, 584-606 and 650-738).
 */
module RecorderManager {
  import opened Bytes
  import opened DecimalText
  import opened FileFormat
  import opened Options

  // ---- Strings from the model ----

  predicate Printable(c: byte) { 0x20 <= c <= 0x7E }

  /** Letters, digits, underscore and minus. */
  predicate ValidIdByte(c: byte) {
    0x41 <= c <= 0x5A || 0x61 <= c <= 0x7A || 0x30 <= c <= 0x39 || c == 0x5F || c == 0x2D
  }

  function PrintableOnly(s: Text): Text {
    if s == [] then [] else PrintableOnly(s[..|s| - 1]) + if Printable(s[|s| - 1]) then [s[|s| - 1]] else []
  }

  function ValidId(s: Text): Text { seq(|s|, i requires 0 <= i < |s| => if ValidIdByte(s[i]) then s[i] else 0x5F) }

  /** What is kept is printable, and printable text is kept as it is. */
  lemma {:induction false} PrintableExactly(s: Text)
    ensures forall i :: 0 <= i < |PrintableOnly(s)| ==> Printable(PrintableOnly(s)[i])
    ensures (forall i :: 0 <= i < |s| ==> Printable(s[i])) <==> PrintableOnly(s) == s
    ensures |PrintableOnly(s)| <= |s|
  {
    if s != [] {
      var front, c := s[..|s| - 1], s[|s| - 1];
      PrintableExactly(front);
      assert s == front + [c];
      if PrintableOnly(s) == s {
        assert Printable(c);
        assert PrintableOnly(s)[..|s| - 1] == front;
      }
    }
  }

  /** What is kept are the characters from blank to tilde, all of them and in order. */
  lemma {:induction false} PrintableBytes(s: Text)
    ensures forall c :: c in PrintableOnly(s) <==> c in s && ' ' as int <= c <= '~' as int
    ensures forall c: byte :: ' ' as int <= c <= '~' as int ==> multiset(PrintableOnly(s))[c] == multiset(s)[c]
  {
    if s != [] {
      PrintableBytes(s[..|s| - 1]);
      assert s == s[..|s| - 1] + [s[|s| - 1]];
    }
  }

  /**
   An identifier keeps letters, digits, underscores and hyphens where they are, and every other byte is an underscore.
   */
  lemma IdCharacters(s: Text)
    ensures |ValidId(s)| == |s|
    ensures forall i :: 0 <= i < |s| ==>
              ValidId(s)[i] == if 'A' as int <= s[i] <= 'Z' as int || 'a' as int <= s[i] <= 'z' as int
                                  || '0' as int <= s[i] <= '9' as int || s[i] == '-' as int then s[i] else '_' as int
    ensures ValidId(ValidId(s)) == ValidId(s) && NoZero(ValidId(s)) && '/' as int !in ValidId(s)
  {
  }

  /** Labels from any bytes of the model contain no terminator, so they can be read back from a header. */
  lemma LabelsRoundTrip(raw: Text, numSignals: uint32, bigEndian: bool, data: seq<byte>)
    requires 15 + |raw| < UINT32_LIMIT && |data| % DoublesWidth(numSignals) == 0
    ensures Samples(data, DoublesWidth(numSignals)).Some?
    ensures DecodeDoubles(Header(DoublesMeta(PrintableOnly(raw), numSignals, bigEndian)) + data)
            == Some(Decoded(DoublesMeta(PrintableOnly(raw), numSignals, bigEndian),
                            Samples(data, DoublesWidth(numSignals)).value))
  {
    var labels := PrintableOnly(raw);
    PrintableExactly(raw);
    assert Texts([labels]) == labels + [0];
    assert NoZeros([labels]);
    FileRoundTrip(DoublesMeta(labels, numSignals, bigEndian), data, DoublesWidth);
  }

  /** So can the three strings of a bus. */
  lemma BusTextsRoundTrip(names: Text, dimensions: Text, dataTypes: Text, numBytes: uint32, bigEndian: bool,
                          data: seq<byte>)
    requires 17 + |names| + |dimensions| + |dataTypes| < UINT32_LIMIT && |data| % BusWidth(numBytes) == 0
    ensures var m := BusMeta(PrintableOnly(names), PrintableOnly(dimensions), PrintableOnly(dataTypes),
                             numBytes, bigEndian);
            && Samples(data, BusWidth(numBytes)).Some?
            && DecodeBus(Header(m) + data) == Some(Decoded(m, Samples(data, BusWidth(numBytes)).value))
  {
    PrintableExactly(names);
    PrintableExactly(dimensions);
    PrintableExactly(dataTypes);
    BusHeaderRoundTrip(PrintableOnly(names), PrintableOnly(dimensions), PrintableOnly(dataTypes),
                       numBytes, bigEndian, data);
  }

  lemma BusHeaderRoundTrip(a: Text, b: Text, c: Text, numBytes: uint32, bigEndian: bool, data: seq<byte>)
    requires NoZero(a) && NoZero(b) && NoZero(c)
    requires 17 + |a| + |b| + |c| < UINT32_LIMIT && |data| % BusWidth(numBytes) == 0
    ensures Samples(data, BusWidth(numBytes)).Some?
    ensures DecodeBus(Header(BusMeta(a, b, c, numBytes, bigEndian)) + data)
            == Some(Decoded(BusMeta(a, b, c, numBytes, bigEndian), Samples(data, BusWidth(numBytes)).value))
  {
    var m := BusMeta(a, b, c, numBytes, bigEndian);
    BusMetaFits(m, a, b, c);
    FileRoundTrip(m, data, BusWidth);
  }

  lemma BusMetaFits(m: Meta, a: Text, b: Text, c: Text)
    requires NoZero(a) && NoZero(b) && NoZero(c) && m.texts == [a, b, c]
    ensures NoZeros(m.texts) && HeaderLength(m) == 17 + |a| + |b| + |c|
  {
    ThreeTexts(a, b, c);
  }

  // ---- File names ----

  const UNDERSCORE: byte := 0x5F
  const SLASH: byte := 0x2F
  const INDEX: Text := [0x69, 0x6E, 0x64, 0x65, 0x78]

  /** The path of data file n of a recorder. */
  function FileName(directory: Text, id: Text, n: nat): Text {
    directory + [SLASH] + id + [UNDERSCORE] + Decimal(n)
  }

  function IndexName(directory: Text): Text { directory + [SLASH] + INDEX }

  /** A decimal number has no underscore, so the one in front of it is the last one. */
  lemma LastUnderscore(a: Text, n: nat)
    ensures var s := a + [UNDERSCORE] + Decimal(n);
            s[|a|] == UNDERSCORE && forall j :: |a| < j < |s| ==> s[j] != UNDERSCORE
  {
    var s := a + [UNDERSCORE] + Decimal(n);
    forall j | |a| < j < |s| ensures s[j] != UNDERSCORE {
      assert s[j] == Decimal(n)[j - |a| - 1] && IsDigit(Decimal(n)[j - |a| - 1]);
    }
  }

  /** The last underscore ends the identifier, whatever the identifier contains. */
  lemma SameSuffix(a: Text, b: Text, m: nat, n: nat)
    requires a + [UNDERSCORE] + Decimal(m) == b + [UNDERSCORE] + Decimal(n)
    ensures a == b && m == n
  {
    LastUnderscore(a, m);
    LastUnderscore(b, n);
    var s := a + [UNDERSCORE] + Decimal(m);
    assert |a| == |b|;
    assert s[..|a|] == a && s[..|b|] == b;
    assert s[|a| + 1..] == Decimal(m) && s[|b| + 1..] == Decimal(n);
    ValueOfDecimal(m);
    ValueOfDecimal(n);
  }

  /** No two recorders or file numbers share a file, although identifiers may contain underscores and digits. */
  lemma FileNamesDistinct(directory: Text, id1: Text, n1: nat, id2: Text, n2: nat)
    ensures FileName(directory, id1, n1) == FileName(directory, id2, n2) <==> id1 == id2 && n1 == n2
  {
    var front := directory + [SLASH];
    if FileName(directory, id1, n1) == FileName(directory, id2, n2) {
      SameSuffix(front + id1, front + id2, n1, n2);
      assert (front + id1)[|front|..] == id1 && (front + id2)[|front|..] == id2;
    }
  }

  /** No data file is the index file. */
  lemma NoFileIsTheIndex(directory: Text, id: Text, n: nat)
    ensures FileName(directory, id, n) != IndexName(directory)
  {
    var index, at := IndexName(directory), |directory| + 1 + |id|;
    assert FileName(directory, id, n)[at] == UNDERSCORE;
    assert forall i :: |directory| < i < |index| ==> index[i] == INDEX[i - |directory| - 1];
    assert UNDERSCORE !in INDEX;
  }

  // ---- The manager ----

  datatype Entry = Entry(id: Text, perFile: nat, header: Meta)

  predicate DistinctIds(s: seq<Entry>) { forall i, j :: 0 <= i < j < |s| ==> s[i].id != s[j].id }

  function Ids(s: seq<Entry>): (r: seq<Text>)
    ensures |r| == |s| && forall i :: 0 <= i < |s| ==> r[i] == s[i].id
  {
    if s == [] then [] else Ids(s[..|s| - 1]) + [s[|s| - 1].id]
  }

  /** The constant strings of the index file. */
  datatype BuildInfo = BuildInfo(version: Text, modelName: Text, compileDate: Text, compilerVersion: Text, osInfo: Text)
  {
    function All(): seq<Text> { [version, modelName, compileDate, compilerVersion, osInfo] }
  }

  /** The outcomes of creating the directory, of starting the recorder and of opening the index file. */
  datatype Outcomes = Outcomes(directoryOk: bool, startOk: bool, indexOk: bool)

  class DataRecorderManager {
    const utc: Utc
    const info: BuildInfo
    const bigEndianHost: bool
    var recorders: seq<Entry>
    var indexFile: Option<seq<byte>>

    predicate Consistent()
      reads this
    {
      && DistinctIds(recorders)
      && (forall i :: 0 <= i < |recorders| ==> forall j :: 0 <= j < |recorders[i].id| ==>
            ValidIdByte(recorders[i].id[j]))
    }

    constructor (utc: Utc, info: BuildInfo, bigEndianHost: bool)
      ensures Consistent() && recorders == [] && indexFile == None
      ensures this.utc == utc && this.info == info && this.bigEndianHost == bigEndianHost
    {
      this.utc, this.info, this.bigEndianHost := utc, info, bigEndianHost;
      recorders, indexFile := [], None;
    }

    static method ConvertToPrintableString(data: Text) returns (result: Text)
      ensures result == PrintableOnly(data)
    {
      result := [];
      var n := 0;
      while n < |data|
        invariant n <= |data| && result == PrintableOnly(data[..n])
      {
        assert data[..n + 1][..n] == data[..n];
        if data[n] >= 0x20 && data[n] <= 0x7E {
          result := result + [data[n]];
        }
        n := n + 1;
      }
      assert data[..n] == data;
    }

    static method ConvertToValidId(data: Text) returns (result: Text)
      ensures result == ValidId(data)
    {
      result := [];
      var n := 0;
      while n < |data|
        invariant n <= |data| && result == ValidId(data)[..n]
      {
        var c := data[n];
        var valid := (c >= 0x41 && c <= 0x5A) || (c >= 0x61 && c <= 0x7A) || (c >= 0x30 && c <= 0x39)
                     || c == 0x5F || c == 0x2D;
        result := result + [if valid then c else 0x5F];
        n := n + 1;
      }
    }

    method WriteIndex(ok: bool) returns (written: bool)
      modifies `indexFile
      ensures written == ok
      ensures indexFile == if ok then Some(EncodeIndex(Index(utc, Ids(recorders), info.All()))) else old(indexFile)
    {
      if ok {
        var file := WriteIndexFile(utc, Ids(recorders), info.version, info.modelName, info.compileDate,
                                   info.compilerVersion, info.osInfo);
        indexFile := Some(file);
      }
      written := ok;
    }

    /** What both kinds of registration do to the list and to the index file. */
    twostate predicate Registered(id: Text, perFile: nat, header: Meta, o: Outcomes, success: bool)
      reads this
    {
      var taken := id in Ids(old(recorders));
      && recorders == old(recorders) + (if !o.directoryOk || taken then [] else [Entry(id, perFile, header)])
      && success == (o.directoryOk && !taken && o.startOk && o.indexOk)
      && indexFile == if o.directoryOk && o.indexOk then Some(EncodeIndex(Index(utc, Ids(recorders), info.All())))
                      else old(indexFile)
    }

    /**
     Registers a recorder unless its identifier is taken, even when it cannot be started, and writes the index file.
     */
    method Register(id: Text, perFile: nat, header: Meta, o: Outcomes) returns (success: bool)
      requires Consistent() && o.directoryOk && forall j :: 0 <= j < |id| ==> ValidIdByte(id[j])
      modifies this
      ensures Consistent() && Registered(id, perFile, header, o, success)
    {
      success := false;
      var found := false;
      var i := 0;
      while i < |recorders| && !found
        invariant i <= |recorders|
        invariant found <==> exists j :: 0 <= j < i && recorders[j].id == id
      {
        found := recorders[i].id == id;
        i := i + 1;
      }
      assert found <==> id in Ids(recorders);
      if !found {
        success := o.startOk;
        recorders := recorders + [Entry(id, perFile, header)];
      }
      var written := WriteIndex(o.indexOk);
      success := success && written;
    }

    method AddDataRecorderScalarDoubles(rawId: Text, rawNames: Text, numSignals: uint32, perFile: uint32, o: Outcomes)
      returns (success: bool)
      requires Consistent()
      modifies this
      ensures Consistent()
      ensures var header := DoublesMeta(PrintableOnly(rawNames), numSignals, bigEndianHost);
              Registered(ValidId(rawId), perFile, header, o, success)
    {
      if !o.directoryOk {
        return false;
      }
      var labels := ConvertToPrintableString(rawNames);
      var id := ConvertToValidId(rawId);
      success := Register(id, perFile, DoublesMeta(labels, numSignals, bigEndianHost), o);
    }

    method AddDataRecorderBus(rawId: Text, perFile: uint32, numBytes: uint32,
                              rawNames: Text, rawDimensions: Text, rawTypes: Text, o: Outcomes)
      returns (success: bool)
      requires Consistent()
      modifies this
      ensures Consistent()
      ensures var header := BusMeta(PrintableOnly(rawNames), PrintableOnly(rawDimensions), PrintableOnly(rawTypes),
                                    numBytes, bigEndianHost);
              Registered(ValidId(rawId), perFile, header, o, success)
    {
      if !o.directoryOk {
        return false;
      }
      var id := ConvertToValidId(rawId);
      var labels := ConvertToPrintableString(rawNames);
      var dimensions := ConvertToPrintableString(rawDimensions);
      var dataTypes := ConvertToPrintableString(rawTypes);
      success := Register(id, perFile, BusMeta(labels, dimensions, dataTypes, numBytes, bigEndianHost), o);
    }
  }

  /**
   Valid identifiers cannot contain a terminator, so a written index file decodes to the registered recorders and to the
   five strings in their documented order.
   */
  lemma IndexListsRecorders(recorders: seq<Entry>, utc: Utc, info: BuildInfo)
    requires forall i :: 0 <= i < |recorders| ==> forall j :: 0 <= j < |recorders[i].id| ==>
               ValidIdByte(recorders[i].id[j])
    requires utc.InRange() && |recorders| < UINT32_LIMIT && NoZeros(info.All())
    ensures DecodeIndex(EncodeIndex(Index(utc, Ids(recorders), info.All())))
            == Some(Index(utc, Ids(recorders),
                          [info.version, info.modelName, info.compileDate, info.compilerVersion, info.osInfo]))
  {
    IndexRoundTrip(Index(utc, Ids(recorders), info.All()));
  }
}
