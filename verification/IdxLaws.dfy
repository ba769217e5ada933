/** Printing and reading an index are inverse to each other. */
module IdxLaws {
  import opened Boxes
  import opened Bytes
  import opened Format
  import opened Idx
  import opened Wrappers

  // ---------- Rows ----------

  /** A sample row reads back, and every field has its place in it. */
  lemma {:induction false} SampleRowReadsBack(host: Endian, s: SampleEntry)
    ensures ReadSampleRow(host, SampleRow(host, s)) == s
    ensures var r := SampleRow(host, s);
            && ReadNe(host, r[0..8]) == s.offset && ReadNe(host, r[8..12]) == s.size
            && ReadNe(host, r[12..16]) == s.dtsDelta && ReadNe(host, r[16..20]) == Unsigned32(s.ctsOffset)
            && ReadNe(host, r[20..24]) == s.flags
  {
    hide Ne, ReadNe;
    Pow256Values();
    NeReadBack(host, 8, s.offset);
    NeReadBack(host, 4, s.size);
    NeReadBack(host, 4, s.dtsDelta);
    NeReadBack(host, 4, Unsigned32(s.ctsOffset));
    NeReadBack(host, 4, s.flags);
    var r := SampleRow(host, s);
    assert r[0..8] == Ne(host, 8, s.offset) && r[8..12] == Ne(host, 4, s.size) && r[12..16] == Ne(host, 4, s.dtsDelta);
    assert r[16..20] == Ne(host, 4, Unsigned32(s.ctsOffset)) && r[20..24] == Ne(host, 4, s.flags);
  }

  lemma {:induction false} SampleRowWritesBack(host: Endian, row: bytes)
    requires |row| == SAMPLE_ROW
    ensures SampleRow(host, ReadSampleRow(host, row)) == row
  {
    hide Ne, ReadNe;
    ReadNeWriteBack(host, row[0..8]);
    ReadNeWriteBack(host, row[8..12]);
    ReadNeWriteBack(host, row[12..16]);
    ReadNeWriteBack(host, row[16..20]);
    ReadNeWriteBack(host, row[20..24]);
    assert row == row[0..8] + row[8..12] + row[12..16] + row[16..20] + row[20..24];
  }

  lemma {:induction false} SegmentRowReadsBack(host: Endian, s: SegmentEntry)
    ensures ReadSegmentRow(host, SegmentRow(host, s)) == s
    ensures var r := SegmentRow(host, s);
            && ReadNe(host, r[0..4]) == s.videoStart && ReadNe(host, r[4..8]) == s.videoCount
            && ReadNe(host, r[8..12]) == s.audioStart && ReadNe(host, r[12..16]) == s.audioCount
            && ReadNe(host, r[16..24]) == s.videoBaseDts && ReadNe(host, r[24..32]) == s.audioBaseDts
  {
    hide Ne, ReadNe;
    Pow256Values();
    NeReadBack(host, 4, s.videoStart);
    NeReadBack(host, 4, s.videoCount);
    NeReadBack(host, 4, s.audioStart);
    NeReadBack(host, 4, s.audioCount);
    NeReadBack(host, 8, s.videoBaseDts);
    NeReadBack(host, 8, s.audioBaseDts);
    var r := SegmentRow(host, s);
    assert r[0..4] == Ne(host, 4, s.videoStart) && r[4..8] == Ne(host, 4, s.videoCount);
    assert r[8..12] == Ne(host, 4, s.audioStart) && r[12..16] == Ne(host, 4, s.audioCount);
    assert r[16..24] == Ne(host, 8, s.videoBaseDts) && r[24..32] == Ne(host, 8, s.audioBaseDts);
  }

  lemma {:induction false} SegmentRowWritesBack(host: Endian, row: bytes)
    requires |row| == SEGMENT_ROW
    ensures SegmentRow(host, ReadSegmentRow(host, row)) == row
  {
    hide Ne, ReadNe;
    ReadNeWriteBack(host, row[0..4]);
    ReadNeWriteBack(host, row[4..8]);
    ReadNeWriteBack(host, row[8..12]);
    ReadNeWriteBack(host, row[12..16]);
    ReadNeWriteBack(host, row[16..24]);
    ReadNeWriteBack(host, row[24..32]);
    assert row == row[0..4] + row[4..8] + row[8..12] + row[12..16] + row[16..24] + row[24..32];
  }

  // ---------- Tables ----------

  lemma TableHeader(n: nat, rest: bytes)
    requires n <= U32_MAX
    ensures var t := Be32(n) + Be32(0) + rest;
            U32At(t, 0) == n && U32At(t, 4) == 0 && t[8..] == rest
  {
    hide Be32;
    Be32ReadBack(n);
    Be32ReadBack(0);
    var t := Be32(n) + Be32(0) + rest;
    assert t[0..4] == Be32(n) && t[4..8] == Be32(0);
  }

  lemma TableReadsBack(rows: seq<bytes>, w: nat)
    requires Uniform(rows, w) && |rows| <= U32_MAX
    ensures ParseRows(TableSection(rows), w) == Ok(rows)
  {
    TableHeader(|rows|, Flatten(rows));
    FlattenRows(rows, w);
  }

  /** An accepted table section is exactly what printing its rows gives. */
  lemma TableWritesBack(payload: bytes, w: nat)
    requires ParseRows(payload, w).Ok?
    ensures |ParseRows(payload, w).value| <= U32_MAX && TableSection(ParseRows(payload, w).value) == payload
  {
    hide Be32, Be;
    var rows := ParseRows(payload, w).value;
    RowsFlatten(payload[8..], w, U32At(payload, 0));
    WordWritesBack(payload, 0);
    WordWritesBack(payload, 4);
    assert payload == payload[0..4] + payload[4..8] + payload[8..];
  }

  /** The bytes of a 32-bit word are determined by its value. */
  lemma SampleTableReadsBack(host: Endian, es: seq<SampleEntry>)
    requires |es| <= U32_MAX
    ensures ParseSampleTable(host, TableSection(SampleRows(host, es))) == Ok(es)
  {
    hide TableSection, ParseRows, SampleRow, ReadSampleRow, Flatten;
    var rows := SampleRows(host, es);
    TableReadsBack(rows, SAMPLE_ROW);
    forall i | 0 <= i < |es|
      ensures ReadSampleRow(host, rows[i]) == es[i]
    {
      SampleRowReadsBack(host, es[i]);
    }
    assert ParseSampleTable(host, TableSection(rows)).value == es;
  }

  /** Printing what a row table was read as gives the table back. */
  lemma SampleRowsWriteBack(host: Endian, rows: seq<bytes>, es: seq<SampleEntry>)
    requires Uniform(rows, SAMPLE_ROW) && |es| == |rows|
    requires forall i :: 0 <= i < |rows| ==> es[i] == ReadSampleRow(host, rows[i])
    ensures SampleRows(host, es) == rows
  {
    hide SampleRow, ReadSampleRow;
    forall i | 0 <= i < |rows|
      ensures SampleRow(host, es[i]) == rows[i]
    {
      SampleRowWritesBack(host, rows[i]);
    }
  }

  lemma SampleTableWritesBack(host: Endian, payload: bytes)
    requires ParseSampleTable(host, payload).Ok?
    ensures TableSection(SampleRows(host, ParseSampleTable(host, payload).value)) == payload
  {
    hide TableSection, ParseRows, SampleRow, ReadSampleRow, Flatten;
    TableWritesBack(payload, SAMPLE_ROW);
    SampleRowsWriteBack(host, ParseRows(payload, SAMPLE_ROW).value, ParseSampleTable(host, payload).value);
  }

  lemma SegmentTableReadsBack(host: Endian, es: seq<SegmentEntry>)
    requires |es| <= U32_MAX
    ensures ParseSegmentTable(host, TableSection(SegmentRows(host, es))) == Ok(es)
  {
    hide TableSection, ParseRows, SegmentRow, ReadSegmentRow, Flatten;
    var rows := SegmentRows(host, es);
    TableReadsBack(rows, SEGMENT_ROW);
    forall i | 0 <= i < |es|
      ensures ReadSegmentRow(host, rows[i]) == es[i]
    {
      SegmentRowReadsBack(host, es[i]);
    }
    assert ParseSegmentTable(host, TableSection(rows)).value == es;
  }

  /** Printing what a row table was read as gives the table back. */
  lemma SegmentRowsWriteBack(host: Endian, rows: seq<bytes>, es: seq<SegmentEntry>)
    requires Uniform(rows, SEGMENT_ROW) && |es| == |rows|
    requires forall i :: 0 <= i < |rows| ==> es[i] == ReadSegmentRow(host, rows[i])
    ensures SegmentRows(host, es) == rows
  {
    hide SegmentRow, ReadSegmentRow;
    forall i | 0 <= i < |rows|
      ensures SegmentRow(host, es[i]) == rows[i]
    {
      SegmentRowWritesBack(host, rows[i]);
    }
  }

  lemma SegmentTableWritesBack(host: Endian, payload: bytes)
    requires ParseSegmentTable(host, payload).Ok?
    ensures TableSection(SegmentRows(host, ParseSegmentTable(host, payload).value)) == payload
  {
    hide TableSection, ParseRows, SegmentRow, ReadSegmentRow, Flatten;
    TableWritesBack(payload, SEGMENT_ROW);
    SegmentRowsWriteBack(host, ParseRows(payload, SEGMENT_ROW).value, ParseSegmentTable(host, payload).value);
  }

  // ---------- Metas ----------

  /** Two blobs after any 16 bytes, followed by canonical padding, read back. */
  lemma BlobsReadBack(head: bytes, sampleEntry: bytes, elst: bytes, pad: bytes)
    requires |head| == 16 && |sampleEntry| <= U32_MAX && |elst| <= U32_MAX && CanonicalPadding(pad)
    ensures ReadBlobs(head + Blobs(sampleEntry, elst) + pad) == Ok((sampleEntry, elst))
  {
    hide Be32;
    Be32ReadBack(|sampleEntry|);
    Be32ReadBack(|elst|);
    var p := head + Blobs(sampleEntry, elst) + pad;
    var e := 20 + |sampleEntry|;
    assert p[16..20] == Be32(|sampleEntry|) && p[20..e] == sampleEntry;
    assert p[e..e + 4] == Be32(|elst|) && p[e + 4..e + 4 + |elst|] == elst && p[e + 4 + |elst|..] == pad;
  }

  lemma FiveParts(b: bytes, e: nat, end: nat)
    requires 20 <= e <= end - 4 <= |b| - 4
    ensures b[..end] == b[..16] + (b[16..20] + b[20..e] + b[e..e + 4] + b[e + 4..end])
  {}

  /** Part of what comes first. */
  lemma HeadPart(head: bytes, rest: bytes, i: nat, j: nat)
    requires i <= j <= |head|
    ensures (head + rest)[i..j] == head[i..j]
  {}

  /** The parts of accepted blobs. */
  lemma BlobParts(payload: bytes) returns (e: nat, end: nat)
    requires |payload| >= 20 && ReadBlobs(payload).Ok?
    ensures 20 <= e <= end - 4 <= |payload| - 4
    ensures ReadBlobs(payload).value == (payload[20..e], payload[e + 4..end])
    ensures payload[16..20] == Be32(e - 20) && payload[e..e + 4] == Be32(end - e - 4)
    ensures e - 20 <= U32_MAX && end - e - 4 <= U32_MAX && CanonicalPadding(payload[end..])
  {
    hide Be32, CanonicalPadding, ReadBe;
    e := 20 + U32At(payload, 16) as nat;
    end := e + 4 + U32At(payload, e) as nat;
    WordWritesBack(payload, 16);
    WordWritesBack(payload, e);
  }

  /** The padding that is accepted is the one that aligns. */
  lemma PaddingIs(b: bytes, end: nat)
    requires end <= |b| && |b| % 8 == 0 && CanonicalPadding(b[end..])
    ensures b[end..] == Zeros(PadLen(end))
  {
    assert PadLen(end) == |b| - end;
  }

  /** Accepted blobs are followed by nothing but the padding that aligns the section. */
  lemma BlobsWriteBack(payload: bytes)
    requires |payload| >= 20 && |payload| % 8 == 0 && ReadBlobs(payload).Ok?
    ensures var blobs := ReadBlobs(payload).value;
            && |blobs.0| <= U32_MAX && |blobs.1| <= U32_MAX
            && Padded(payload[..16] + Blobs(blobs.0, blobs.1)) == payload
  {
    hide Be32, ReadBlobs, CanonicalPadding, PadLen;
    var e, end := BlobParts(payload);
    FiveParts(payload, e, end);
    PaddingIs(payload, end);
    assert payload[..end] + payload[end..] == payload;
  }

  lemma VideoHeadReadsBack(m: VideoTrackMeta, rest: bytes)
    ensures var p := VideoHead(m) + rest;
            && U32At(p, 0) == m.timescale && p[4..8] == m.fourcc
            && U32At(p, 8) == m.width && U32At(p, 12) == m.height
  {
    hide Be32, ReadBe;
    Be32ReadBack(m.timescale);
    Be32ReadBack(m.width);
    Be32ReadBack(m.height);
    var h := VideoHead(m);
    assert h[0..4] == Be32(m.timescale) && h[4..8] == m.fourcc && h[8..12] == Be32(m.width)
        && h[12..16] == Be32(m.height);
    HeadPart(h, rest, 0, 4);
    HeadPart(h, rest, 4, 8);
    HeadPart(h, rest, 8, 12);
    HeadPart(h, rest, 12, 16);
  }

  lemma VideoMetaReadsBack(m: VideoTrackMeta)
    requires |m.sampleEntry| <= U32_MAX && |m.elst| <= U32_MAX
    ensures ParseVideoMeta(Padded(VideoMeta(m))) == Ok(m)
  {
    hide ReadBlobs, Blobs, VideoHead, U32At, CanonicalPadding;
    var pad := Zeros(PadLen(|VideoMeta(m)|));
    ZerosPad(|VideoMeta(m)|);
    BlobsReadBack(VideoHead(m), m.sampleEntry, m.elst, pad);
    Assoc(VideoHead(m), Blobs(m.sampleEntry, m.elst), pad);
    VideoHeadReadsBack(m, Blobs(m.sampleEntry, m.elst) + pad);
  }

  lemma ZerosPad(n: nat)
    ensures CanonicalPadding(Zeros(PadLen(n)))
  {}

  lemma VideoMetaWritesBack(payload: bytes)
    requires |payload| % 8 == 0 && ParseVideoMeta(payload).Ok?
    ensures Padded(VideoMeta(ParseVideoMeta(payload).value)) == payload
  {
    hide Be32, Blobs, ReadBlobs;
    BlobsWriteBack(payload);
    WordWritesBack(payload, 0);
    WordWritesBack(payload, 8);
    WordWritesBack(payload, 12);
    assert payload[..16] == payload[0..4] + payload[4..8] + payload[8..12] + payload[12..16];
  }

  lemma AudioHeadReadsBack(m: AudioTrackMeta, rest: bytes)
    ensures var p := AudioHead(m) + rest;
            && U32At(p, 0) == m.timescale && p[4..8] == m.fourcc && U32At(p, 8) == m.sampleRate
            && p[12] == m.channelCount && p[13..16] == [0, 0, 0]
  {
    hide Be32, ReadBe;
    Be32ReadBack(m.timescale);
    Be32ReadBack(m.sampleRate);
    var h := AudioHead(m);
    assert h[0..4] == Be32(m.timescale) && h[4..8] == m.fourcc && h[8..12] == Be32(m.sampleRate);
    assert h[12] == m.channelCount && h[13..16] == [0, 0, 0];
    HeadPart(h, rest, 0, 4);
    HeadPart(h, rest, 4, 8);
    HeadPart(h, rest, 8, 12);
    HeadPart(h, rest, 13, 16);
  }

  lemma AudioMetaReadsBack(m: AudioTrackMeta)
    requires |m.sampleEntry| <= U32_MAX && |m.elst| <= U32_MAX
    ensures ParseAudioMeta(Padded(AudioMeta(m))) == Ok(m)
  {
    hide ReadBlobs, Blobs, AudioHead, U32At, CanonicalPadding;
    var pad := Zeros(PadLen(|AudioMeta(m)|));
    ZerosPad(|AudioMeta(m)|);
    BlobsReadBack(AudioHead(m), m.sampleEntry, m.elst, pad);
    Assoc(AudioHead(m), Blobs(m.sampleEntry, m.elst), pad);
    AudioHeadReadsBack(m, Blobs(m.sampleEntry, m.elst) + pad);
  }

  lemma AudioMetaWritesBack(payload: bytes)
    requires |payload| % 8 == 0 && ParseAudioMeta(payload).Ok?
    ensures Padded(AudioMeta(ParseAudioMeta(payload).value)) == payload
  {
    hide Be32, Blobs, ReadBlobs;
    BlobsWriteBack(payload);
    WordWritesBack(payload, 0);
    WordWritesBack(payload, 8);
    assert payload[12..16] == [payload[12]] + payload[13..16] == [payload[12]] + Zeros(3);
    assert payload[..16] == payload[0..4] + payload[4..8] + payload[8..12] + payload[12..16];
  }

  // ---------- Any accepted image ----------

  /** The payload of section `i`. */
  function SectionAt(b: bytes, d: seq<(u32, u64)>, i: nat): bytes
    requires Framed(b, d) && i < |d|
  {
    b[d[i].1..SectionEnd(b, d, i)]
  }

  function SectionsFrom(b: bytes, d: seq<(u32, u64)>): (ss: seq<bytes>)
    requires Framed(b, d)
    ensures |ss| == |d| && forall i :: 0 <= i < |d| ==> ss[i] == SectionAt(b, d, i)
  {
    seq(|d|, i requires 0 <= i < |d| => SectionAt(b, d, i))
  }

  lemma {:induction false} SectionsTile(b: bytes, d: seq<(u32, u64)>, i: nat)
    requires Framed(b, d) && i < |d|
    ensures d[0].1 <= d[i].1 && Flatten(SectionsFrom(b, d)[..i]) == b[d[0].1..d[i].1]
    ensures Flatten(SectionsFrom(b, d)[..i + 1]) == b[d[0].1..SectionEnd(b, d, i)]
    decreases i
  {
    hide Flatten;
    var ss := SectionsFrom(b, d);
    if i == 0 {
      FlattenNothing();
      assert ss[..0] == [];
    } else {
      SectionsTile(b, d, i - 1);
    }
    FlattenPiece(ss, i);
    assert b[d[0].1..d[i].1] + b[d[i].1..SectionEnd(b, d, i)] == b[d[0].1..SectionEnd(b, d, i)];
  }

  /**
   In every accepted image the sections are aligned, lie in directory order without gap or overlap,
   and together are everything after the header.
   */
  lemma SectionsCover(host: Endian, b: bytes)
    requires Parse(host, b).Ok?
    ensures |b| >= HEADER_FIXED_LEN && CountOk(b)
    ensures var d := Directory(b, U32At(b, 48));
            && Framed(b, d) && Flatten(SectionsFrom(b, d)) == b[HeaderEnd(|d|)..]
            && forall i :: 0 <= i < |d| ==> d[i].1 % 8 == 0
                                            && (i + 1 < |d| ==> SectionEnd(b, d, i) == d[i + 1].1 > d[i].1)
  {
    hide ReadSections, Flatten, Code, SectionAt, EntryAt, PadZero;
    var d := Directory(b, U32At(b, 48));
    DirectoryFrames(b, d);
    SectionsTile(b, d, |d| - 1);
    assert SectionsFrom(b, d)[..|d|] == SectionsFrom(b, d);
  }

  lemma {:induction false} SectionFound(b: bytes, d: seq<(u32, u64)>, kind: nat, from: nat, i: nat)
    requires Framed(b, d) && from <= i < |d| && d[i].0 == kind && forall j :: from <= j < i ==> d[j].0 != kind
    ensures SectionOfKind(b, d, kind, from) == Some(SectionAt(b, d, i))
    decreases i - from
  {
    if from < i {
      SectionFound(b, d, kind, from + 1, i);
    }
  }

  /** The directory lists exactly the builder's seven kinds, in its order. */
  ghost predicate BuilderOrder(d: seq<(u32, u64)>) {
    |d| == 7 && forall i :: 0 <= i < 7 ==> d[i].0 == Kinds()[i]
  }

  /** Then section `i` is the one that is looked up under kind `i`. */
  lemma {:induction false} SectionsInOrder(b: bytes, d: seq<(u32, u64)>)
    requires Framed(b, d) && BuilderOrder(d)
    ensures SectionOfKind(b, d, KIND_VIDEO_TRACK_META, 0) == Some(SectionAt(b, d, 0))
    ensures SectionOfKind(b, d, KIND_AUDIO_TRACK_META, 0) == Some(SectionAt(b, d, 1))
    ensures SectionOfKind(b, d, KIND_VIDEO_SAMPLE_TABLE, 0) == Some(SectionAt(b, d, 2))
    ensures SectionOfKind(b, d, KIND_AUDIO_SAMPLE_TABLE, 0) == Some(SectionAt(b, d, 3))
    ensures SectionOfKind(b, d, KIND_SEGMENT_TABLE, 0) == Some(SectionAt(b, d, 4))
    ensures SectionOfKind(b, d, KIND_PLAYLIST_BYTES, 0) == Some(SectionAt(b, d, 5))
    ensures SectionOfKind(b, d, KIND_INIT_SEGMENT_BYTES, 0) == Some(SectionAt(b, d, 6))
  {
    hide SectionAt, SectionOfKind;
    SectionFound(b, d, KIND_VIDEO_TRACK_META, 0, 0);
    SectionFound(b, d, KIND_AUDIO_TRACK_META, 0, 1);
    SectionFound(b, d, KIND_VIDEO_SAMPLE_TABLE, 0, 2);
    SectionFound(b, d, KIND_AUDIO_SAMPLE_TABLE, 0, 3);
    SectionFound(b, d, KIND_SEGMENT_TABLE, 0, 4);
    SectionFound(b, d, KIND_PLAYLIST_BYTES, 0, 5);
    SectionFound(b, d, KIND_INIT_SEGMENT_BYTES, 0, 6);
  }

  // ---------- Print, then read ----------

  lemma FixedHeaderReadsBack(v: IndexView, n: nat, rest: bytes)
    requires |v.digest| == 32 && n <= U32_MAX
    ensures var b := FixedHeader(v, n) + rest;
            && b[..4] == Code("HCMI") && U32At(b, 4) == v.maxSegmentSize && U64At(b, 8) == v.sourceLen
            && b[16..48] == v.digest && U32At(b, 48) == n && U32At(b, 52) == 0 && b[56..] == rest
  {
    hide Be32, Be64, Code;
    Be32ReadBack(v.maxSegmentSize);
    Be64ReadBack(v.sourceLen);
    Be32ReadBack(n);
    Be32ReadBack(0);
    var h := FixedHeader(v, n);
    assert h[0..4] == Code("HCMI") && h[4..8] == Be32(v.maxSegmentSize) && h[8..16] == Be64(v.sourceLen);
    assert h[16..48] == v.digest && h[48..52] == Be32(n) && h[52..56] == Be32(0);
    FrontSlices(h, rest);
  }

  /** Slices of the front part of a concatenation. */
  lemma FrontSlices(h: bytes, rest: bytes)
    ensures forall i, j :: 0 <= i <= j <= |h| ==> (h + rest)[i..j] == h[i..j]
    ensures (h + rest)[|h|..] == rest
  {}

  lemma {:induction false} EntryReadsBack(fixed: bytes, entries: seq<bytes>, rest: bytes, i: nat, kind: nat,
                                          offset: nat)
    requires |fixed| == HEADER_FIXED_LEN && Uniform(entries, SECTION_DIR_ENTRY_LEN) && i < |entries|
    requires entries[i] == DirEntry(kind, offset) && kind <= U32_MAX && offset <= U64_MAX
    ensures var b := fixed + Flatten(entries) + rest;
            HeaderEnd(i + 1) <= |b| && EntryAt(b, i) == (kind, offset) && PadZero(b, i)
  {
    hide Be32, Be64, Flatten;
    var b, e := fixed + Flatten(entries) + rest, entries[i];
    FlattenUniform(entries, SECTION_DIR_ENTRY_LEN, i);
    Be32ReadBack(kind);
    Be32ReadBack(0);
    Be64ReadBack(offset);
    assert e[0..4] == Be32(kind) && e[4..8] == Be32(0) && e[8..16] == Be64(offset);
    var pos := HeaderEnd(i);
    Middle(fixed, Flatten(entries), rest);
    SubSlice(b, |fixed|, |fixed| + |Flatten(entries)|, i * SECTION_DIR_ENTRY_LEN,
        i * SECTION_DIR_ENTRY_LEN + SECTION_DIR_ENTRY_LEN);
    assert b[pos..pos + 16] == e;
    SubSlice(b, pos, pos + 16, 0, 4);
    SubSlice(b, pos, pos + 16, 4, 8);
    SubSlice(b, pos, pos + 16, 8, 16);
  }

  lemma {:induction false} PieceReadsBack(head: bytes, ps: seq<bytes>, i: nat)
    requires |head| == HeaderEnd(|ps|) && i < |ps|
    ensures var b := head + Flatten(ps);
            && SectionOffset(ps, i + 1) == SectionOffset(ps, i) + |ps[i]| <= |b|
            && b[SectionOffset(ps, i)..SectionOffset(ps, i + 1)] == ps[i]
            && (i + 1 == |ps| ==> SectionOffset(ps, i + 1) == |b|)
  {
    hide Flatten;
    FlattenPiece(ps, i);
    var b := head + Flatten(ps);
    Middle(head, Flatten(ps), []);
    assert b == head + Flatten(ps) + [];
    SubSlice(b, |head|, |b|, |Flatten(ps[..i])|, |Flatten(ps[..i + 1])|);
    assert i + 1 == |ps| ==> ps[..i + 1] == ps;
  }
}
