/**
 The sample-table boxes as the standard lays them out, apart from the parsers, and the proof that the
 parsers take exactly these layouts and return exactly the values in them.
 */
module TableLaws {
  import opened Boxes
  import opened Bytes
  import opened SampleTable
  import opened Sources
  import opened Wrappers

  // ---------- Layouts ----------

  /** The payload lies in this range of the file. */
  predicate Lies(data: bytes, range: ByteRange, payload: bytes) {
    && range.len == |payload| && range.offset + range.len <= |data|
    && data[range.offset..range.offset + range.len] == payload
  }

  /** Version and flags, the number of rows, the rows. */
  function Entries(version: byte, flags: nat, rows: seq<bytes>): bytes
    requires flags <= 0xFF_FFFF
  {
    FullHeader(version, flags) + Be32(|rows|) + Flatten(rows)
  }

  ghost predicate TableLies(data: bytes, range: ByteRange, version: byte, rows: seq<bytes>) {
    |rows| <= U32_MAX && exists flags: nat :: flags <= 0xFF_FFFF && Lies(data, range, Entries(version, flags, rows))
  }

  /** Sample count, sample delta (section 8.6.1.2 of ISO/IEC 14496-12). */
  function SttsRows(t: seq<(u32, u32)>): (rows: seq<bytes>)
    ensures Uniform(rows, 8)
  {
    seq(|t|, i requires 0 <= i < |t| => Be32(t[i].0) + Be32(t[i].1))
  }

  /** Sample count, sample offset in two's complement (section 8.6.1.3). */
  function CttsRows(t: seq<(u32, i32)>): (rows: seq<bytes>)
    ensures Uniform(rows, 8)
  {
    seq(|t|, i requires 0 <= i < |t| => Be32(t[i].0) + Be32(Unsigned32(t[i].1)))
  }

  /** One 32-bit number: a sync sample (section 8.6.2), a sample size (8.7.3) or a chunk offset (8.7.5). */
  function WordRows(t: seq<nat>): (rows: seq<bytes>)
    ensures Uniform(rows, 4)
  {
    seq(|t|, i requires 0 <= i < |t| => Be32(t[i]))
  }

  /** First chunk, samples per chunk, and sample description 1 (section 8.7.4). */
  function StscRows(t: seq<(u32, u32)>): (rows: seq<bytes>)
    ensures Uniform(rows, 12)
  {
    seq(|t|, i requires 0 <= i < |t| => Be32(t[i].0) + Be32(t[i].1) + Be32(1))
  }

  /** One 64-bit chunk offset (section 8.7.5). */
  function LongRows(t: seq<u64>): (rows: seq<bytes>)
    ensures Uniform(rows, 8)
  {
    seq(|t|, i requires 0 <= i < |t| => Be64(t[i]))
  }

  /** Version 0, then one size for all samples or 0, the number of samples, and their sizes (section 8.7.3). */
  function StszLayout(flags: nat, size: u32, count: u32, rows: seq<bytes>): bytes
    requires flags <= 0xFF_FFFF
  {
    FullHeader(0, flags) + Be32(size) + Be32(count) + Flatten(rows)
  }

  ghost predicate StszLies(data: bytes, range: ByteRange, size: u32, count: nat, rows: seq<bytes>) {
    && count <= U32_MAX
    && exists flags: nat :: flags <= 0xFF_FFFF && Lies(data, range, StszLayout(flags, size, count, rows))
  }

  // ---------- Any table ----------

  lemma LiesIsPayload(data: bytes, range: ByteRange, payload: bytes, minLen: nat)
    requires 0 < minLen
    ensures minLen <= |payload| && Lies(data, range, payload) <==> Payload(data, range, minLen) == Some(payload)
  {}

  /** The words in front of the rows. */
  lemma {:induction false} EntriesFields(version: byte, flags: nat, rows: seq<bytes>)
    requires flags <= 0xFF_FFFF && |rows| <= U32_MAX
    ensures var p := Entries(version, flags, rows);
            |p| >= 8 && p[0] == version && U32At(p, 4) == |rows| && p[8..] == Flatten(rows)
  {
    TopByte(version, flags);
    hide FullHeader, Be32, ReadBe;
    var p := Entries(version, flags, rows);
    assert p[0] == FullHeader(version, flags)[0] && p[4..8] == Be32(|rows|);
    Be32ReadBack(|rows|);
  }

  /** Any first word is a version and flags. */
  lemma HeaderWord(b: bytes) returns (flags: nat)
    requires |b| >= 4
    ensures flags <= 0xFF_FFFF && FullHeader(b[0], flags) == b[0..4]
  {
    var n := U32At(b, 0);
    flags := n % 0x100_0000;
    var version: nat := n / 0x100_0000;
    assert version <= 0xFF;
    ReadBeWriteBack(b[0..4]);
    assert FullHeader(version, flags) == b[0..4];
    TopByte(version, flags);
    assert b[0] == b[0..4][0];
  }

  /** And any payload with as many rows as it says is a table. */
  lemma EntriesOf(p: bytes, w: nat) returns (flags: nat)
    requires |p| >= 8 && |p| - 8 == U32At(p, 4) * w
    ensures flags <= 0xFF_FFFF && p == Entries(p[0], flags, Rows(p[8..], w, U32At(p, 4)))
  {
    hide FullHeader, Be32, ReadBe;
    flags := HeaderWord(p);
    RowsFlatten(p[8..], w, U32At(p, 4));
    WordWritesBack(p, 4);
    assert p == p[0..4] + p[4..8] + p[8..];
  }

  /** Row `i` is the one that parses to value `i`. */
  ghost predicate RowsMean<T(!new)>(version: byte, rows: seq<bytes>, w: nat, parse: (byte, bytes) --> Result<T>,
                                    t: seq<T>)
    requires forall v: byte, c: bytes :: |c| == w ==> parse.requires(v, c)
    requires Uniform(rows, w)
  {
    |rows| == |t| && forall i :: 0 <= i < |t| ==> parse(version, rows[i]) == Ok(t[i])
  }

  lemma TableReadsBack<T(!new)>(data: bytes, range: ByteRange, versions: set<byte>, w: nat,
                                parse: (byte, bytes) --> Result<T>, version: byte, rows: seq<bytes>, t: seq<T>)
    requires forall v: byte, c: bytes :: |c| == w ==> parse.requires(v, c)
    requires Uniform(rows, w) && version in versions && RowsMean(version, rows, w, parse, t)
    requires TableLies(data, range, version, rows)
    ensures Table(data, range, versions, w, parse) == Some(t)
  {
    hide Entries, Lies, Payload, U32At;
    var flags: nat :| flags <= 0xFF_FFFF && Lies(data, range, Entries(version, flags, rows));
    EntriesFields(version, flags, rows);
    LiesIsPayload(data, range, Entries(version, flags, rows), 8);
    FlattenRows(rows, w);
    var found := Table(data, range, versions, w, parse);
    assert AllParse(version, rows, w, parse);
    assert found.value == t;
  }

  /** The version and the rows of an accepted table. */
  lemma TableWasThere<T(!new)>(data: bytes, range: ByteRange, versions: set<byte>, w: nat,
                               parse: (byte, bytes) --> Result<T>) returns (version: byte, rows: seq<bytes>)
    requires forall v: byte, c: bytes :: |c| == w ==> parse.requires(v, c)
    requires Table(data, range, versions, w, parse).Some?
    ensures version in versions && Uniform(rows, w) && TableLies(data, range, version, rows)
    ensures RowsMean(version, rows, w, parse, Table(data, range, versions, w, parse).value)
  {
    hide Entries, Lies, U32At;
    var p := Payload(data, range, 8).value;
    LiesIsPayload(data, range, p, 8);
    version, rows := p[0], Rows(p[8..], w, U32At(p, 4));
    var flags := EntriesOf(p, w);
    assert Lies(data, range, Entries(version, flags, rows));
  }

  // ---------- stts, ctts, stss, stsc, stco, co64 ----------

  lemma TwoWordsOf(c: bytes)
    requires |c| == 8
    ensures c == Be32(U32At(c, 0)) + Be32(U32At(c, 4))
  {
    WordWritesBack(c, 0);
    WordWritesBack(c, 4);
    hide Be32, U32At;
    assert c == c[0..4] + c[4..8];
  }

  lemma OneWord(a: nat)
    requires a <= U32_MAX
    ensures U32At(Be32(a), 0) == a
  {
    Be32ReadBack(a);
    hide Be32, ReadBe;
    assert Be32(a)[0..4] == Be32(a);
  }

  lemma OneWordOf(c: bytes)
    requires |c| == 4
    ensures c == Be32(U32At(c, 0))
  {
    WordWritesBack(c, 0);
    assert c[0..4] == c;
  }

  lemma SttsRow(version: byte, c: bytes, v: (u32, u32))
    requires |c| == 8
    ensures ParseStts(version, c) == Ok(v) <==> c == Be32(v.0) + Be32(v.1)
  {
    TwoWords(v.0, v.1);
    TwoWordsOf(c);
    hide Be32, U32At;
  }

  lemma CttsRow(version: byte, c: bytes, v: (u32, i32))
    requires |c| == 8
    ensures ParseCtts(version, c) == Ok(v)
            <==> c == Be32(v.0) + Be32(Unsigned32(v.1)) && (version == 0 ==> v.1 >= 0)
  {
    TwoWords(v.0, Unsigned32(v.1));
    TwoWordsOf(c);
    hide Be32, U32At;
  }

  lemma StscRow(version: byte, c: bytes, v: (u32, u32))
    requires |c| == 12
    ensures ParseStsc(version, c) == Ok(v) <==> c == Be32(v.0) + Be32(v.1) + Be32(1)
  {
    hide Be32, ReadBe;
    Be32ReadBack(v.0);
    Be32ReadBack(v.1);
    Be32ReadBack(1);
    WordWritesBack(c, 0);
    WordWritesBack(c, 4);
    WordWritesBack(c, 8);
    var r := Be32(v.0) + Be32(v.1) + Be32(1);
    assert r[0..4] == Be32(v.0) && r[4..8] == Be32(v.1) && r[8..12] == Be32(1);
    assert c == c[0..4] + c[4..8] + c[8..12];
  }

  lemma LongRow(version: byte, c: bytes, v: u64)
    requires |c| == 8
    ensures ParseCo64(version, c) == Ok(v) <==> c == Be64(v)
  {
    hide Be64, ReadBe;
    Be64ReadBack(v);
    LongWritesBack(c, 0);
    assert c[0..8] == c && Be64(v)[0..8] == Be64(v);
  }

  /** `stts` gives exactly the runs that lie there, and no version but 0 is taken. */
  lemma SttsMeaning(data: bytes, range: ByteRange, t: seq<(u32, u32)>)
    ensures Table(data, range, {0}, 8, ParseStts) == Some(t) <==> TableLies(data, range, 0, SttsRows(t))
  {
    hide TableLies, Table, ParseStts, Be32;
    forall c: bytes, v: (u32, u32) | |c| == 8
      ensures ParseStts(0, c) == Ok(v) <==> c == Be32(v.0) + Be32(v.1)
    {
      SttsRow(0, c, v);
    }
    if TableLies(data, range, 0, SttsRows(t)) {
      TableReadsBack(data, range, {0}, 8, ParseStts, 0, SttsRows(t), t);
    }
    if Table(data, range, {0}, 8, ParseStts) == Some(t) {
      var version, rows := TableWasThere(data, range, {0}, 8, ParseStts);
      assert rows == SttsRows(t);
    }
  }

  /** `ctts` gives exactly the runs that lie there, in version 1, or in version 0 if no offset is negative. */
  lemma CttsMeaning(data: bytes, range: ByteRange, t: seq<(u32, i32)>)
    ensures Table(data, range, {0, 1}, 8, ParseCtts) == Some(t)
            <==> || TableLies(data, range, 1, CttsRows(t))
                 || (TableLies(data, range, 0, CttsRows(t)) && forall i :: 0 <= i < |t| ==> t[i].1 >= 0)
  {
    hide TableLies, Table, ParseCtts, Be32, Unsigned32;
    forall version: byte, c: bytes, v: (u32, i32) | |c| == 8
      ensures ParseCtts(version, c) == Ok(v)
              <==> c == Be32(v.0) + Be32(Unsigned32(v.1)) && (version == 0 ==> v.1 >= 0)
    {
      CttsRow(version, c, v);
    }
    if TableLies(data, range, 1, CttsRows(t)) {
      TableReadsBack(data, range, {0, 1}, 8, ParseCtts, 1, CttsRows(t), t);
    }
    if TableLies(data, range, 0, CttsRows(t)) && forall i :: 0 <= i < |t| ==> t[i].1 >= 0 {
      TableReadsBack(data, range, {0, 1}, 8, ParseCtts, 0, CttsRows(t), t);
    }
    if Table(data, range, {0, 1}, 8, ParseCtts) == Some(t) {
      var version, rows := TableWasThere(data, range, {0, 1}, 8, ParseCtts);
      assert rows == CttsRows(t);
    }
  }

  /** `stsc` gives exactly the entries that lie there; sample descriptions other than 1 are refused. */
  lemma StscMeaning(data: bytes, range: ByteRange, t: seq<(u32, u32)>)
    ensures Table(data, range, {0}, 12, ParseStsc) == Some(t) <==> TableLies(data, range, 0, StscRows(t))
  {
    hide TableLies, Table, ParseStsc, Be32;
    forall c: bytes, v: (u32, u32) | |c| == 12
      ensures ParseStsc(0, c) == Ok(v) <==> c == Be32(v.0) + Be32(v.1) + Be32(1)
    {
      StscRow(0, c, v);
    }
    if TableLies(data, range, 0, StscRows(t)) {
      TableReadsBack(data, range, {0}, 12, ParseStsc, 0, StscRows(t), t);
    }
    if Table(data, range, {0}, 12, ParseStsc) == Some(t) {
      var version, rows := TableWasThere(data, range, {0}, 12, ParseStsc);
      assert rows == StscRows(t);
    }
  }

  lemma StssMeaning(data: bytes, range: ByteRange, t: seq<u32>)
    ensures Table(data, range, {0}, 4, ParseStss) == Some(t) <==> TableLies(data, range, 0, WordRows(t))
  {
    hide TableLies, Table, ParseStss, Be32;
    forall c: bytes, v: u32 | |c| == 4
      ensures ParseStss(0, c) == Ok(v) <==> c == Be32(v)
    {
      WordRow(c, v);
      assert ParseStss(0, c) == Ok(U32At(c, 0)) by {
        StssIs(c);
      }
    }
    if TableLies(data, range, 0, WordRows(t)) {
      TableReadsBack(data, range, {0}, 4, ParseStss, 0, WordRows(t), t);
    }
    if Table(data, range, {0}, 4, ParseStss) == Some(t) {
      var version, rows := TableWasThere(data, range, {0}, 4, ParseStss);
      assert rows == WordRows(t);
    }
  }

  lemma WordRow(c: bytes, v: u32)
    requires |c| == 4
    ensures U32At(c, 0) == v <==> c == Be32(v)
  {
    OneWord(v);
    OneWordOf(c);
  }

  lemma StssIs(c: bytes)
    requires |c| == 4
    ensures ParseStss(0, c) == Ok(U32At(c, 0))
  {}

  /** Chunk offsets of either width are exactly those that lie there. */
  lemma ChunksMeaning(data: bytes, co: ChunkOffsets, t: seq<u64>)
    ensures ChunkTable(data, co) == Some(t)
            <==> match co
                 case Stco(range) =>
                   TableLies(data, range, 0, WordRows(t)) && forall i :: 0 <= i < |t| ==> t[i] <= U32_MAX
                 case Co64(range) => TableLies(data, range, 0, LongRows(t))
  {
    match co {
      case Stco(range) => StcoMeaning(data, range, t);
      case Co64(range) => Co64Meaning(data, range, t);
    }
  }

  lemma StcoMeaning(data: bytes, range: ByteRange, t: seq<u64>)
    ensures Table(data, range, {0}, 4, ParseStco) == Some(t)
            <==> TableLies(data, range, 0, WordRows(t)) && forall i :: 0 <= i < |t| ==> t[i] <= U32_MAX
  {
    hide TableLies, Table, ParseStco, Be32;
    forall c: bytes, v: u64 | |c| == 4
      ensures ParseStco(0, c) == Ok(v) <==> v <= U32_MAX && c == Be32(v)
    {
      if v <= U32_MAX {
        WordRow(c, v);
      }
      StcoIs(c);
    }
    if TableLies(data, range, 0, WordRows(t)) && forall i :: 0 <= i < |t| ==> t[i] <= U32_MAX {
      TableReadsBack(data, range, {0}, 4, ParseStco, 0, WordRows(t), t);
    }
    if Table(data, range, {0}, 4, ParseStco) == Some(t) {
      var version, rows := TableWasThere(data, range, {0}, 4, ParseStco);
      assert rows == WordRows(t);
    }
  }

  lemma StcoIs(c: bytes)
    requires |c| == 4
    ensures ParseStco(0, c) == Ok(U32At(c, 0))
  {}

  lemma Co64Meaning(data: bytes, range: ByteRange, t: seq<u64>)
    ensures Table(data, range, {0}, 8, ParseCo64) == Some(t) <==> TableLies(data, range, 0, LongRows(t))
  {
    hide TableLies, Table, ParseCo64, Be64;
    forall c: bytes, v: u64 | |c| == 8
      ensures ParseCo64(0, c) == Ok(v) <==> c == Be64(v)
    {
      LongRow(0, c, v);
    }
    if TableLies(data, range, 0, LongRows(t)) {
      TableReadsBack(data, range, {0}, 8, ParseCo64, 0, LongRows(t), t);
    }
    if Table(data, range, {0}, 8, ParseCo64) == Some(t) {
      var version, rows := TableWasThere(data, range, {0}, 8, ParseCo64);
      assert rows == LongRows(t);
    }
  }

  // ---------- stsz ----------

  /** One size, so often. */
  function Same(size: u32, count: nat): (t: seq<u32>)
    ensures |t| == count
  {
    seq(count, _ => size)
  }

  /** Either form of `stsz` holds these sizes. */
  ghost predicate SizesLie(data: bytes, range: ByteRange, t: seq<u32>) {
    || StszLies(data, range, 0, |t|, WordRows(t))
    || exists size: u32 :: size != 0 && t == Same(size, |t|) && StszLies(data, range, size, |t|, [])
  }

  lemma {:induction false} StszFields(flags: nat, size: u32, count: u32, rows: seq<bytes>)
    requires flags <= 0xFF_FFFF
    ensures var p := StszLayout(flags, size, count, rows);
            && |p| >= 12 && p[0] == 0 && U32At(p, 4) == size && U32At(p, 8) == count && p[12..] == Flatten(rows)
  {
    TopByte(0, flags);
    hide FullHeader, Be32, ReadBe;
    var p := StszLayout(flags, size, count, rows);
    assert p[0] == FullHeader(0, flags)[0] && p[4..8] == Be32(size) && p[8..12] == Be32(count);
    Be32ReadBack(size);
    Be32ReadBack(count);
  }

  lemma StszOf(p: bytes, rows: seq<bytes>) returns (flags: nat)
    requires |p| >= 12 && p[0] == 0 && p[12..] == Flatten(rows)
    ensures flags <= 0xFF_FFFF && p == StszLayout(flags, U32At(p, 4), U32At(p, 8), rows)
  {
    hide FullHeader, Be32, ReadBe, Flatten;
    flags := HeaderWord(p);
    WordWritesBack(p, 4);
    WordWritesBack(p, 8);
    assert p == p[0..4] + p[4..8] + p[8..12] + p[12..];
  }

  lemma SizesReadBack(data: bytes, range: ByteRange, t: seq<u32>)
    requires StszLies(data, range, 0, |t|, WordRows(t))
    ensures Sizes(data, range) == Some(t)
  {
    hide StszLayout, Lies, Payload, U32At, Be32;
    var rows := WordRows(t);
    var flags: nat :| flags <= 0xFF_FFFF && Lies(data, range, StszLayout(flags, 0, |t|, rows));
    StszFields(flags, 0, |t|, rows);
    LiesIsPayload(data, range, StszLayout(flags, 0, |t|, rows), 12);
    FlattenRows(rows, 4);
    forall i | 0 <= i < |t|
      ensures U32At(rows[i], 0) == t[i]
    {
      OneWord(t[i]);
    }
    assert Sizes(data, range).value == t;
  }

  lemma SameReadBack(data: bytes, range: ByteRange, size: u32, count: nat)
    requires size != 0 && StszLies(data, range, size, count, [])
    ensures Sizes(data, range) == Some(Same(size, count))
  {
    hide StszLayout, Lies, Payload, U32At;
    var flags: nat :| flags <= 0xFF_FFFF && Lies(data, range, StszLayout(flags, size, count, []));
    StszFields(flags, size, count, []);
    LiesIsPayload(data, range, StszLayout(flags, size, count, []), 12);
    FlattenNothing();
  }

  lemma SizesWereThere(data: bytes, range: ByteRange)
    requires Sizes(data, range).Some?
    ensures SizesLie(data, range, Sizes(data, range).value)
  {
    hide StszLayout, Lies, U32At, Be32;
    var p, t := Payload(data, range, 12).value, Sizes(data, range).value;
    LiesIsPayload(data, range, p, 12);
    var size, n: nat := U32At(p, 4), U32At(p, 8);
    if size != 0 {
      FlattenNothing();
      var flags := StszOf(p, []);
      assert t == Same(size, |t|);
      assert StszLies(data, range, size, |t|, []);
    } else {
      var rows := Rows(p[12..], 4, n);
      RowsFlatten(p[12..], 4, n);
      forall i | 0 <= i < n
        ensures rows[i] == Be32(t[i])
      {
        OneWordOf(rows[i]);
      }
      assert rows == WordRows(t);
      var flags := StszOf(p, rows);
      assert StszLies(data, range, 0, |t|, WordRows(t));
    }
  }

  /** `stsz` gives exactly the sizes that lie there: one for all, or one for each. */
  lemma SizesMeaning(data: bytes, range: ByteRange, t: seq<u32>)
    ensures Sizes(data, range) == Some(t) <==> SizesLie(data, range, t)
  {
    hide Sizes, StszLies, WordRows;
    if Sizes(data, range) == Some(t) {
      SizesWereThere(data, range);
    }
    if StszLies(data, range, 0, |t|, WordRows(t)) {
      SizesReadBack(data, range, t);
    } else if SizesLie(data, range, t) {
      var size: u32 :| size != 0 && t == Same(size, |t|) && StszLies(data, range, size, |t|, []);
      SameReadBack(data, range, size, |t|);
    }
  }

  // ---------- All tables of a track ----------

  /** All the tables of the track lie in their places. */
  ghost predicate TablesLie(data: bytes, locs: SampleTableLocs, t: Tables) {
    && SizesLie(data, locs.stsz, t.sizes)
    && TableLies(data, locs.stts, 0, SttsRows(t.stts))
    && TableLies(data, locs.stsc, 0, StscRows(t.stsc))
    && (match locs.chunkOffsets
        case Stco(range) =>
          TableLies(data, range, 0, WordRows(t.chunks)) && forall i :: 0 <= i < |t.chunks| ==> t.chunks[i] <= U32_MAX
        case Co64(range) => TableLies(data, range, 0, LongRows(t.chunks)))
    && locs.stss.Some? == t.stss.Some? && locs.ctts.Some? == t.ctts.Some?
    && (locs.stss.Some? ==> TableLies(data, locs.stss.value, 0, WordRows(t.stss.value)))
    && (locs.ctts.Some? ==> OffsetsLie(data, locs.ctts.value, t.ctts.value))
  }

  ghost predicate OffsetsLie(data: bytes, range: ByteRange, t: seq<(u32, i32)>) {
    || TableLies(data, range, 1, CttsRows(t))
    || (TableLies(data, range, 0, CttsRows(t)) && forall i :: 0 <= i < |t| ==> t[i].1 >= 0)
  }

  /** The tables of a track decode to `t` exactly if the bytes in their places are the layouts of `t`. */
  lemma DecodedMeaning(data: bytes, locs: SampleTableLocs, t: Tables)
    ensures Decodes(data, locs) && Decoded(data, locs) == t <==> TablesLie(data, locs, t)
  {
    hide Sizes, SizesLie, Table, TableLies, ChunkTable, SttsRows, StscRows, WordRows, LongRows, CttsRows, ParseStts,
         ParseStsc, ParseStss, ParseCtts;
    SizesMeaning(data, locs.stsz, t.sizes);
    SttsMeaning(data, locs.stts, t.stts);
    StscMeaning(data, locs.stsc, t.stsc);
    ChunksMeaning(data, locs.chunkOffsets, t.chunks);
    if locs.stss.Some? && t.stss.Some? {
      StssMeaning(data, locs.stss.value, t.stss.value);
    }
    if locs.ctts.Some? && t.ctts.Some? {
      CttsMeaning(data, locs.ctts.value, t.ctts.value);
    }
  }
}
