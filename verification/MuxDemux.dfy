/** Reading a written segment returns the samples of the source. */
module MuxDemux {
  import opened Boxes
  import opened BoxReader
  import opened Bytes
  import opened Format
  import opened FragmentReader
  import opened Segment
  import opened SegmentWriter
  import opened Sources
  import opened Wrappers
  import Init

  /** The defaults that the init segment lays down for the two tracks. */
  const VIDEO_DEFAULTS := TrackDefaults(VIDEO_TRACK_ID, 0, 0, Init.VIDEO_DEFAULT_SAMPLE_FLAGS)
  const AUDIO_DEFAULTS := TrackDefaults(AUDIO_TRACK_ID, 0, 0, Init.AUDIO_DEFAULT_SAMPLE_FLAGS)

  /** What a reader should see of one stored sample. */
  function Expected(data: bytes, s: SampleEntry, withCts: bool, sync: bool): Sample
    requires Readable(data, s.offset, s.size)
  {
    Sample(s.dtsDelta, if withCts then s.ctsOffset else 0, sync, Slice(data, s.offset, s.size))
  }

  function ExpectedRun(data: bytes, samples: seq<SampleEntry>, withCts: bool, syncs: seq<bool>): (r: seq<Sample>)
    requires AllReadable(data, samples) && |syncs| == |samples|
    ensures |r| == |samples|
    ensures forall i :: 0 <= i < |samples| ==> r[i] == Expected(data, samples[i], withCts, syncs[i])
  {
    seq(|samples|, i requires 0 <= i < |samples| => Expected(data, samples[i], withCts, syncs[i]))
  }

  /** Only the first of `n` samples is sync. */
  function FirstOnly(n: nat): (syncs: seq<bool>)
    ensures |syncs| == n
    ensures forall i :: 0 <= i < n ==> (syncs[i] <==> i == 0)
  {
    seq(n, i => i == 0)
  }

  function AllSync(n: nat): (syncs: seq<bool>)
    ensures |syncs| == n
    ensures forall i :: 0 <= i < n ==> syncs[i]
  {
    seq(n, _ => true)
  }

  // ---------- Rows ----------

  function TrunFlagsOf(run: Run): (flags: nat)
    ensures flags <= 0xFF_FFFF
  {
    if run.AudioRun? then AUDIO_TRUN_FLAGS else if run.hasCtts then VIDEO_TRUN_FLAGS_CTS else VIDEO_TRUN_FLAGS
  }

  predicate WithCts(run: Run) {
    run.VideoRun? && run.hasCtts
  }

  function DefaultsOf(run: Run): TrackDefaults {
    if run.VideoRun? then VIDEO_DEFAULTS else AUDIO_DEFAULTS
  }

  /** Which samples of a run a reader should take for sync. */
  function SyncsOf(run: Run): (syncs: seq<bool>)
    ensures |syncs| == |run.samples|
  {
    if run.VideoRun? then FirstOnly(|run.samples|) else AllSync(|run.samples|)
  }

  lemma RowReadsBack(run: Run, s: SampleEntry)
    ensures var row := VideoRow(s, WithCts(run));
            && RowWidth(TrunFlagsOf(run)) == |row|
            && ReadRow(if WithCts(run) then 1 else 0, TrunFlagsOf(run), DefaultsOf(run), row)
               == RunRow(s.dtsDelta, s.size, DefaultsOf(run).flags, if WithCts(run) then s.ctsOffset else 0)
  {
    var row := VideoRow(s, WithCts(run));
    var a, b, c := Be32(s.dtsDelta), Be32(s.size), Be32(Unsigned32(s.ctsOffset));
    hide Be32;
    Be32ReadBack(s.dtsDelta);
    Be32ReadBack(s.size);
    Be32ReadBack(Unsigned32(s.ctsOffset));
    assert row[0..4] == a && row[4..8] == b;
    if WithCts(run) {
      assert row[8..12] == c;
    }
  }

  // ---------- Sample data ----------

  /** What is copied first stays in front. */
  lemma {:induction false} SampleBytesPrefix(data: bytes, samples: seq<SampleEntry>, i: nat)
    requires AllReadable(data, samples) && i <= |samples|
    ensures SampleBytes(data, samples[..i]) <= SampleBytes(data, samples)
    decreases |samples| - i
  {
    hide SampleBytes, SumSizes, Slice;
    if i < |samples| {
      SampleBytesStep(data, samples, i);
      SampleBytesPrefix(data, samples, i + 1);
    } else {
      assert samples[..i] == samples;
    }
  }

  /** Sample `j` lies after the samples before it. */
  lemma {:induction false} SampleAt(data: bytes, samples: seq<SampleEntry>, j: nat)
    requires AllReadable(data, samples) && j < |samples|
    ensures SumSizes(samples[..j]) + samples[j].size == SumSizes(samples[..j + 1]) <= SumSizes(samples)
    ensures SampleBytes(data, samples)[SumSizes(samples[..j])..SumSizes(samples[..j + 1])]
            == Slice(data, samples[j].offset, samples[j].size)
  {
    hide SampleBytes, SumSizes, Slice;
    SampleBytesStep(data, samples, j);
    SampleBytesPrefix(data, samples, j + 1);
    var head := SampleBytes(data, samples[..j + 1]);
    assert head[|SampleBytes(data, samples[..j])|..] == Slice(data, samples[j].offset, samples[j].size);
  }

  /** Rows that say of each sample what a reader should see. */
  ghost predicate RowsOf(rows: seq<RunRow>, samples: seq<SampleEntry>, withCts: bool, syncs: seq<bool>) {
    && |rows| == |samples| == |syncs|
    && forall i :: 0 <= i < |rows| ==> RowOf(rows[i], samples[i], withCts, syncs[i])
  }

  predicate RowOf(row: RunRow, s: SampleEntry, withCts: bool, sync: bool) {
    && row.duration == s.dtsDelta && row.size == s.size && row.ctsOffset == (if withCts then s.ctsOffset else 0)
    && IsSync(row.flags) == sync
  }

  /** Following the sizes from the right place finds the source bytes of every sample. */
  lemma {:induction false} CollectFinds(out: bytes, at: nat, data: bytes, samples: seq<SampleEntry>, withCts: bool,
                                        syncs: seq<bool>, rows: seq<RunRow>, j: nat)
    requires AllReadable(data, samples) && RowsOf(rows, samples, withCts, syncs) && j <= |samples|
    requires at + SumSizes(samples) <= |out| && out[at..at + SumSizes(samples)] == SampleBytes(data, samples)
    ensures Collect(out, rows[j..], at + SumSizes(samples[..j]))
            == Ok(ExpectedRun(data, samples, withCts, syncs)[j..])
    decreases |samples| - j
  {
    hide SampleBytes, SumSizes, Slice, IsSync, Collect;
    if j < |samples| {
      SampleAt(data, samples, j);
      SubSlice(out, at, at + SumSizes(samples), SumSizes(samples[..j]), SumSizes(samples[..j + 1]));
      CollectFinds(out, at, data, samples, withCts, syncs, rows, j + 1);
      CollectStep(out, rows, at + SumSizes(samples[..j]), j);
      var expected := ExpectedRun(data, samples, withCts, syncs);
      assert RowOf(rows[j], samples[j], withCts, syncs[j]);
      assert expected[j..] == [expected[j]] + expected[j + 1..];
    } else {
      assert rows[j..] == [] && ExpectedRun(data, samples, withCts, syncs)[j..] == [];
      CollectNothing(out, at + SumSizes(samples[..j]));
    }
  }

  lemma {:induction false} CollectNothing(out: bytes, at: nat)
    ensures Collect(out, [], at) == Ok([])
  {}

  lemma {:induction false} CollectStep(out: bytes, rows: seq<RunRow>, at: nat, j: nat)
    requires j < |rows| && at + rows[j].size <= |out|
    requires Collect(out, rows[j + 1..], at + rows[j].size).Ok?
    ensures Collect(out, rows[j..], at)
            == Ok([Sample(rows[j].duration, rows[j].ctsOffset, IsSync(rows[j].flags), out[at..at + rows[j].size])]
                  + Collect(out, rows[j + 1..], at + rows[j].size).value)
  {
    hide IsSync;
    assert rows[j..][1..] == rows[j + 1..];
  }

  // ---------- Runs ----------

  /** The word that overrides the flags of the first sample. */
  function FirstWord(run: Run): (first: Option<nat>)
    ensures first.Some? <==> Has(TrunFlagsOf(run), TRUN_FIRST_SAMPLE_FLAGS)
    ensures first.Some? ==> first.value <= U32_MAX
  {
    if run.VideoRun? then Some(FIRST_SAMPLE_FLAGS_SYNC) else None
  }

  function FirstBytes(first: Option<nat>): (b: bytes)
    ensures |b| == if first.Some? then 4 else 0
  {
    if first.Some? then Be32(first.value) else []
  }

  /** The rows of a run, with the flags of its first sample, say what a reader should see. */
  lemma RowsReadBack(run: Run)
    ensures var rows := VideoRows(run.samples, WithCts(run));
            && Uniform(rows, RowWidth(TrunFlagsOf(run)))
            && var read := ReadRows(if WithCts(run) then 1 else 0, TrunFlagsOf(run), DefaultsOf(run), rows);
               RowsOf(WithFirst(read, FirstWord(run)), run.samples, WithCts(run), SyncsOf(run))
  {
    hide Be32, ReadRow, RowWidth, VideoRow;
    forall i | 0 <= i < |run.samples|
      ensures var row := VideoRow(run.samples[i], WithCts(run));
              && RowWidth(TrunFlagsOf(run)) == |row|
              && ReadRow(if WithCts(run) then 1 else 0, TrunFlagsOf(run), DefaultsOf(run), row)
                 == RunRow(run.samples[i].dtsDelta, run.samples[i].size, DefaultsOf(run).flags,
                      if WithCts(run) then run.samples[i].ctsOffset else 0)
    {
      RowReadsBack(run, run.samples[i]);
    }
  }

  /** The header words of a run: version, flags, count and data offset. */
  lemma TrunHeadReadsBack(version: byte, flags: nat, count: nat, dataOffset: nat, rest: bytes)
    requires flags <= 0xFF_FFFF && count <= U32_MAX && dataOffset <= I32_MAX
    ensures var p := TrunHead(version, flags, count) + Be32(dataOffset) + rest;
            && p[0] == version && U32At(p, 0) % 0x100_0000 == flags && U32At(p, 4) == count
            && Signed32(U32At(p, 8)) == dataOffset && p[12..] == rest
  {
    hide Be32;
    var word := version * 0x100_0000 + flags;
    Be32ReadBack(word);
    Be32ReadBack(count);
    Be32ReadBack(dataOffset);
    TopByte(version, flags);
    ThreeWords(Be32(word), Be32(count), Be32(dataOffset), rest);
    WordMod(version, flags);
  }

  lemma ThreeWords(a: bytes, b: bytes, c: bytes, rest: bytes)
    requires |a| == |b| == |c| == 4
    ensures var p := a + b + c + rest;
            p[0..4] == a && p[4..8] == b && p[8..12] == c && p[12..] == rest && p[0] == a[0]
  {}

  lemma WordMod(version: nat, flags: nat)
    requires flags <= 0xFF_FFFF
    ensures (version * 0x100_0000 + flags) % 0x100_0000 == flags
  {}

  /** The optional word after the data offset, and the rows behind it. */
  lemma FirstWordReadsBack(p: bytes, first: Option<nat>, rows: bytes)
    requires |p| >= 12 && p[12..] == FirstBytes(first) + rows && (first.Some? ==> first.value <= U32_MAX)
    ensures p[12 + |FirstBytes(first)|..] == rows
    ensures first.Some? ==> |p| >= 16 && U32At(p, 12) == first.value
  {
    hide Be32;
    assert p[12 + |FirstBytes(first)|..] == p[12..][|FirstBytes(first)|..];
    if first.Some? {
      Be32ReadBack(first.value);
      assert p[12..16] == p[12..][..4] == Be32(first.value);
    }
  }

  /** Any run laid out as the standard says parses back to its rows. */
  lemma {:induction false} TrunParses(version: byte, flags: nat, d: TrackDefaults, dataOffset: nat,
                                      first: Option<nat>, rows: seq<bytes>)
    requires version <= 1 && flags <= 0xFF_FFFF && |rows| <= U32_MAX && dataOffset <= I32_MAX
    requires TrunFlagsKnown(flags) && Has(flags, TRUN_DATA_OFFSET)
    requires Has(flags, TRUN_FIRST_SAMPLE_FLAGS) <==> first.Some?
    requires first.Some? ==> first.value <= U32_MAX
    requires Uniform(rows, RowWidth(flags))
    ensures ParseTrun(d, TrunHead(version, flags, |rows|) + Be32(dataOffset) + (FirstBytes(first) + Flatten(rows)))
            == Ok((WithFirst(ReadRows(version, flags, d, rows), first), dataOffset))
  {
    hide Be32, TrunHead, RowWidth, ReadRows, FirstBytes, TrunFlagsKnown;
    var payload := TrunHead(version, flags, |rows|) + Be32(dataOffset) + (FirstBytes(first) + Flatten(rows));
    TrunHeadReadsBack(version, flags, |rows|, dataOffset, FirstBytes(first) + Flatten(rows));
    FirstWordReadsBack(payload, first, Flatten(rows));
    FlattenRows(rows, RowWidth(flags));
  }

  lemma FlagsKnown(run: Run)
    ensures TrunFlagsKnown(TrunFlagsOf(run)) && Has(TrunFlagsOf(run), TRUN_DATA_OFFSET)
  {}

  /** The payload of a run, in the terms of the standard. */
  lemma RunLayout(run: Run, dataOffset: nat)
    ensures run.Trun(dataOffset).payload
            == TrunHead(if WithCts(run) then 1 else 0, TrunFlagsOf(run), |run.samples|) + Be32(dataOffset)
               + (FirstBytes(FirstWord(run)) + Flatten(VideoRows(run.samples, WithCts(run))))
  {
    hide TrunHead, Be32, Flatten, VideoRows;
    if run.AudioRun? {
      assert [] + Flatten(VideoRows(run.samples, false)) == Flatten(VideoRows(run.samples, false));
    }
  }

  lemma RunParses(run: Run, dataOffset: nat)
    requires |run.samples| <= U32_MAX && dataOffset <= I32_MAX
    ensures var p := ParseTrun(DefaultsOf(run), run.Trun(dataOffset).payload);
            p.Ok? && RowsOf(p.value.0, run.samples, WithCts(run), SyncsOf(run)) && p.value.1 == dataOffset
  {
    hide Be32, TrunHead, ParseTrun, Flatten, VideoRows, ReadRows, WithFirst, RowsOf, Run.Trun, RowWidth, FirstBytes,
         TrunFlagsKnown, TrunFlagsOf, WithCts, DefaultsOf, SyncsOf, FirstWord;
    RunLayout(run, dataOffset);
    RowsReadBack(run);
    FlagsKnown(run);
    TrunParses(if WithCts(run) then 1 else 0, TrunFlagsOf(run), DefaultsOf(run), dataOffset, FirstWord(run),
               VideoRows(run.samples, WithCts(run)));
  }

  /** Reading a run back, given that the sample bytes lie at its data offset. */
  lemma {:induction false} RunReadsBack(out: bytes, moofStart: nat, at: nat, data: bytes, run: Run)
    requires AllReadable(data, run.samples) && |run.samples| <= U32_MAX
    requires moofStart <= at <= moofStart + I32_MAX && at + SumSizes(run.samples) <= |out|
    requires out[at..at + SumSizes(run.samples)] == SampleBytes(data, run.samples)
    ensures ReadTrun(out, moofStart, DefaultsOf(run), run.Trun(at - moofStart).payload)
            == Ok(ExpectedRun(data, run.samples, WithCts(run), SyncsOf(run)))
  {
    hide SampleBytes, Collect, ParseTrun, VideoTrun, AudioTrun, RowsOf, WithCts, SyncsOf, DefaultsOf, SumSizes;
    RunParses(run, at - moofStart);
    var rows := ParseTrun(DefaultsOf(run), run.Trun(at - moofStart).payload).value.0;
    var expected := ExpectedRun(data, run.samples, WithCts(run), SyncsOf(run));
    CollectFinds(out, at, data, run.samples, WithCts(run), SyncsOf(run), rows, 0);
    assert rows[0..] == rows && expected[0..] == expected && run.samples[..0] == [];
    NoSizes();
  }

  lemma NoSizes()
    ensures SumSizes([]) == 0
  {}

  // ---------- Fragments ----------

  /** Boxes side by side, none of them a vendor extension, as the scanner sees them. */
  lemma {:induction false} ScanBoxes(out: bytes, pos: nat, end: nat, boxes: seq<Plain>)
    requires pos <= end <= |out| && out[pos..end] == EncodeAll(boxes) && AllSized(boxes)
    requires forall i :: 0 <= i < |boxes| ==> boxes[i].fourcc != Code("uuid")
    ensures Scan(out, pos, end) == Ok(Headers(boxes, pos))
    ensures forall i :: 0 <= i < |boxes| ==> BoxAt(out, end, Headers(boxes, pos)[i], boxes[i])
  {
    hide Code, EncodeAll, Scan, PayloadOf, Holds, Plain.Encode;
    EncodedHolds(out, pos, end, boxes);
    ScanOfEncoded(out, pos, end, boxes);
    AllVisible(Headers(boxes, pos));
    forall i | 0 <= i < |boxes|
      ensures BoxAt(out, end, Headers(boxes, pos)[i], boxes[i])
    {
      EncodedAt(out, pos, end, boxes, i);
      PayloadSlice(out, Headers(boxes, pos)[i]);
    }
  }

  /** The header of `b`, somewhere before `end`. */
  predicate BoxAt(out: bytes, end: nat, h: BoxHeader, b: Plain) {
    && h.boxType == b.fourcc && h.headerSize == 8 && h.declaredSize == b.Size() && h.End() <= end <= |out|
    && PayloadOf(out, h) == b.payload
  }

  /** Three boxes side by side. */
  lemma {:induction false} ScanThree(out: bytes, pos: nat, end: nat, a: Plain, b: Plain, c: Plain)
    requires pos <= end <= |out| && out[pos..end] == EncodeAll([a, b, c])
    requires a.Sized() && b.Sized() && c.Sized()
    requires a.fourcc != Code("uuid") && b.fourcc != Code("uuid") && c.fourcc != Code("uuid")
    ensures var ha, hb := BoxHeader(a.fourcc, pos, 8, a.Size()), BoxHeader(b.fourcc, pos + a.Size(), 8, b.Size());
            var hc := BoxHeader(c.fourcc, pos + a.Size() + b.Size(), 8, c.Size());
            && Scan(out, pos, end) == Ok([ha, hb, hc]) && hc.End() == end
            && PayloadOf(out, ha) == a.payload && PayloadOf(out, hb) == b.payload && PayloadOf(out, hc) == c.payload
  {
    hide Code, EncodeAll, Scan, PayloadOf, Headers, Plain.Encode;
    ThreeBoxes(a, b, c);
    HeadersOfThree(a, b, c, pos);
    ScanBoxes(out, pos, end, [a, b, c]);
    var hs := Headers([a, b, c], pos);
    assert BoxAt(out, end, hs[0], a) && BoxAt(out, end, hs[1], b) && BoxAt(out, end, hs[2], c);
  }

  lemma {:induction false} HeadersOfThree(a: Plain, b: Plain, c: Plain, pos: nat)
    ensures Headers([a, b, c], pos)
            == [BoxHeader(a.fourcc, pos, 8, a.Size()), BoxHeader(b.fourcc, pos + a.Size(), 8, b.Size()),
                BoxHeader(c.fourcc, pos + a.Size() + b.Size(), 8, c.Size())]
  {
    assert [a, b, c][1..] == [b, c] && [b, c][1..] == [c] && [c][1..] == [];
    assert Headers([c], pos + a.Size() + b.Size()) == [BoxHeader(c.fourcc, pos + a.Size() + b.Size(), 8, c.Size())];
  }

  lemma TrafCodes()
    ensures Code("tfhd") != Code("tfdt") && Code("tfhd") != Code("trun") && Code("tfdt") != Code("trun")
    ensures Code("tfhd") != Code("uuid") && Code("tfdt") != Code("uuid") && Code("trun") != Code("uuid")
  {
    hide Code;
    assert Num(Code("tfhd")) == 0x7466_6864 && Num(Code("tfdt")) == 0x7466_6474;
    assert Num(Code("trun")) == 0x7472_756E && Num(Code("uuid")) == 0x7575_6964;
  }

  lemma TfhdReadsBack(trackId: u32)
    ensures ReadTfhd(Tfhd(trackId).payload) == Ok(trackId)
  {
    Be32ReadBack(TFHD_DEFAULT_BASE_IS_MOOF);
    Be32ReadBack(trackId);
    hide Be32;
    var p := Tfhd(trackId).payload;
    assert p[0..4] == Be32(TFHD_DEFAULT_BASE_IS_MOOF) && p[4..8] == Be32(trackId);
  }

  lemma TfdtReadsBack(baseDts: u64)
    ensures ReadTfdt(Tfdt(baseDts).payload) == Ok(baseDts)
  {
    TopByte(1, 0);
    Be64ReadBack(baseDts);
    hide Be32, Be64;
    var p := Tfdt(baseDts).payload;
    assert p[4..12] == Be64(baseDts);
    assert p[0] == FullHeader(1, 0)[0];
  }

  function TrackIdOf(run: Run): u32 {
    if run.VideoRun? then VIDEO_TRACK_ID else AUDIO_TRACK_ID
  }

  /** What a reader should see of one track. */
  function FragmentOf(data: bytes, baseDts: u64, run: Run): TrackFragment
    requires AllReadable(data, run.samples)
  {
    TrackFragment(TrackIdOf(run), baseDts, ExpectedRun(data, run.samples, WithCts(run), SyncsOf(run)))
  }

  lemma DefaultsFound(run: Run)
    ensures DefaultsFor([VIDEO_DEFAULTS, AUDIO_DEFAULTS], TrackIdOf(run)) == Ok(DefaultsOf(run))
  {
    assert [VIDEO_DEFAULTS, AUDIO_DEFAULTS][1..] == [AUDIO_DEFAULTS];
  }

  lemma {:induction false} TrafReadsBack(out: bytes, moofStart: nat, at: nat, data: bytes, h: BoxHeader, baseDts: u64,
                                         run: Run)
    requires AllReadable(data, run.samples) && |run.samples| <= U32_MAX
    requires moofStart <= at <= moofStart + I32_MAX && at + SumSizes(run.samples) <= |out|
    requires out[at..at + SumSizes(run.samples)] == SampleBytes(data, run.samples)
    requires h.PayloadOffset() <= h.End() <= |out|
    requires PayloadOf(out, h) == Traf(TrackIdOf(run), baseDts, run.Trun(at - moofStart)).payload
    requires run.Trun(at - moofStart).Sized()
    ensures ReadTraf(out, moofStart, [VIDEO_DEFAULTS, AUDIO_DEFAULTS], h) == Ok(FragmentOf(data, baseDts, run))
  {
    hide SampleBytes, SumSizes, Code, Run.Trun, ReadTrun, ReadTfhd, ReadTfdt, Scan, Only, PayloadOf, EncodeAll,
         DefaultsFor, DefaultsOf, WithCts, SyncsOf, ExpectedRun, TrackIdOf;
    TrafCodes();
    DefaultsFound(run);
    var trun := run.Trun(at - moofStart);
    RunIsTrun(run, at - moofStart);
    PayloadSlice(out, h);
    ScanThree(out, h.PayloadOffset(), h.End(), Tfhd(TrackIdOf(run)), Tfdt(baseDts), trun);
    var hs := Scan(out, h.PayloadOffset(), h.End()).value;
    OnlyOfThree(hs[0], hs[1], hs[2]);
    RunReadsBack(out, moofStart, at, data, run);
    TfhdReadsBack(TrackIdOf(run));
    TfdtReadsBack(baseDts);
  }

  lemma PayloadSlice(out: bytes, h: BoxHeader)
    requires h.PayloadOffset() <= h.End() <= |out|
    ensures PayloadOf(out, h) == out[h.PayloadOffset()..h.End()]
  {}

  lemma {:induction false} NoneOfType(hs: seq<BoxHeader>, fourcc: FourCC)
    requires forall i :: 0 <= i < |hs| ==> hs[i].boxType != fourcc
    ensures OfType(hs, fourcc) == []
  {
    if |hs| > 0 {
      NoneOfType(hs[1..], fourcc);
    }
  }

  /** A box whose type no other box has is the one found under its type. */
  lemma {:induction false} OnlyAt(hs: seq<BoxHeader>, i: nat)
    requires i < |hs| && forall j :: 0 <= j < |hs| && j != i ==> hs[j].boxType != hs[i].boxType
    ensures OfType(hs, hs[i].boxType) == [hs[i]] && Only(hs, hs[i].boxType) == Ok(hs[i])
  {
    if i == 0 {
      NoneOfType(hs[1..], hs[0].boxType);
    } else {
      OnlyAt(hs[1..], i - 1);
    }
  }

  /** Each of three boxes of different types is the one found under its type. */
  lemma OnlyOfThree(a: BoxHeader, b: BoxHeader, c: BoxHeader)
    requires a.boxType != b.boxType && a.boxType != c.boxType && b.boxType != c.boxType
    ensures Only([a, b, c], a.boxType) == Ok(a)
    ensures Only([a, b, c], b.boxType) == Ok(b)
    ensures Only([a, b, c], c.boxType) == Ok(c)
  {
    hide Only, OfType;
    OnlyAt([a, b, c], 0);
    OnlyAt([a, b, c], 1);
    OnlyAt([a, b, c], 2);
  }

  lemma RunIsTrun(run: Run, dataOffset: nat)
    ensures run.Trun(dataOffset).fourcc == Code("trun")
  {}

  lemma SegmentCodes()
    ensures Code("styp") != Code("moof") && Code("styp") != Code("mdat") && Code("moof") != Code("mdat")
    ensures Code("mfhd") != Code("traf")
    ensures Code("styp") != Code("uuid") && Code("moof") != Code("uuid") && Code("mdat") != Code("uuid")
    ensures Code("mfhd") != Code("uuid") && Code("traf") != Code("uuid")
  {
    hide Code;
    assert Num(Code("styp")) == 0x7374_7970 && Num(Code("moof")) == 0x6D6F_6F66;
    assert Num(Code("mdat")) == 0x6D64_6174 && Num(Code("mfhd")) == 0x6D66_6864;
    assert Num(Code("traf")) == 0x7472_6166 && Num(Code("uuid")) == 0x7575_6964;
  }

  /** Sizes inside a `moof` that fits, whatever the offsets in it. */
  lemma MoofFits(p: Parts, videoOffset: nat, audioOffset: nat)
    requires Moof(p, 0, 0).Sized()
    ensures Moof(p, videoOffset, audioOffset).Size() == Moof(p, 0, 0).Size()
    ensures VideoTraf(p, videoOffset).Sized() && AudioTraf(p, audioOffset).Sized()
    ensures VideoTrun(p.video, p.hasCtts, videoOffset).Sized() && AudioTrun(p.audio, audioOffset).Sized()
  {
    PatchMoofVideo(p, videoOffset);
    PatchMoofAudio(p, videoOffset, audioOffset);
    ThreeBoxes(Mfhd(p.k), VideoTraf(p, videoOffset), AudioTraf(p, audioOffset));
    ThreeBoxes(Tfhd(VIDEO_TRACK_ID), Tfdt(p.videoBaseDts), VideoTrun(p.video, p.hasCtts, videoOffset));
    ThreeBoxes(Tfhd(AUDIO_TRACK_ID), Tfdt(p.audioBaseDts), AudioTrun(p.audio, audioOffset));
  }

  lemma OfTypeLastTwo(a: BoxHeader, b: BoxHeader, c: BoxHeader)
    requires a.boxType != b.boxType == c.boxType
    ensures OfType([a, b, c], b.boxType) == [b, c]
  {
    assert [a, b, c][1..] == [b, c] && [b, c][1..] == [c];
    assert OfType([c], b.boxType) == [c];
  }

  /** The two payload parts lie where the data offsets point. */
  lemma {:induction false} PayloadParts(out: bytes, p: Parts, data: bytes, start: nat)
    requires AllReadable(data, p.video) && AllReadable(data, p.audio)
    requires start + SumSizes(p.video) + SumSizes(p.audio) <= |out|
    requires out[start..start + SumSizes(p.video) + SumSizes(p.audio)] == Mdat(p, data).payload
    ensures var mid := start + SumSizes(p.video);
            && out[start..mid] == SampleBytes(data, p.video)
            && out[mid..mid + SumSizes(p.audio)] == SampleBytes(data, p.audio)
  {
    hide SampleBytes, SumSizes;
    var v, a := SumSizes(p.video), SumSizes(p.audio);
    SubSlice(out, start, start + v + a, 0, v);
    SubSlice(out, start, start + v + a, v, v + a);
  }

  /** The three boxes of a segment, as the reader sees them. */
  lemma SegmentScan(out: bytes, p: Parts, data: bytes) returns (styp: BoxHeader, moof: BoxHeader, mdat: BoxHeader)
    requires PartsServable(p, data) && out == MediaSegment(p, data)
    ensures Scan(out, 0, |out|).Ok? && Only(Scan(out, 0, |out|).value, Code("moof")) == Ok(moof)
    ensures Only(Scan(out, 0, |out|).value, Code("styp")) == Ok(styp) && PayloadOf(out, styp) == Styp().payload
    ensures moof.headerSize == mdat.headerSize == 8 && moof.End() == mdat.start && mdat.End() == |out|
    ensures moof.declaredSize == Moof(p, 0, 0).Size() && mdat.declaredSize == Mdat(p, data).Size()
    ensures PayloadOf(out, moof) == Moof(p, VideoDataOffset(p), AudioDataOffset(p)).payload
    ensures PayloadOf(out, mdat) == Mdat(p, data).payload
  {
    hide Code, Moof, Mdat, Styp, EncodeAll, Scan, Only, PayloadOf, SampleBytes, SumSizes, Box, Plain.Encode,
         VideoDataOffset, AudioDataOffset, AllReadable;
    SegmentCodes();
    var v, a := VideoDataOffset(p), AudioDataOffset(p);
    MoofFits(p, v, a);
    SegmentKinds(p, v, a, data);
    assert out == out[0..|out|];
    ScanThree(out, 0, |out|, Styp(), Moof(p, v, a), Mdat(p, data));
    var hs := Scan(out, 0, |out|).value;
    OnlyOfThree(hs[0], hs[1], hs[2]);
    styp, moof, mdat := hs[0], hs[1], hs[2];
  }

  /** The reader finds `moof`, and the sample data lies where the data offsets point. */
  lemma SegmentTop(out: bytes, p: Parts, data: bytes) returns (moof: BoxHeader)
    requires PartsServable(p, data) && out == MediaSegment(p, data)
    ensures Scan(out, 0, |out|).Ok? && Only(Scan(out, 0, |out|).value, Code("moof")) == Ok(moof)
    ensures moof.headerSize == 8 && moof.declaredSize == Moof(p, 0, 0).Size() && moof.End() <= |out|
    ensures out[moof.PayloadOffset()..moof.End()] == Moof(p, VideoDataOffset(p), AudioDataOffset(p)).payload
    ensures var at, mid := moof.start + VideoDataOffset(p), moof.start + AudioDataOffset(p);
            && mid + SumSizes(p.audio) <= |out|
            && out[at..mid] == SampleBytes(data, p.video)
                && out[mid..mid + SumSizes(p.audio)] == SampleBytes(data, p.audio)
  {
    hide Code, Moof, Mdat, MediaSegment, Scan, Only, PayloadOf, SampleBytes, SumSizes;
    var styp, mdat;
    styp, moof, mdat := SegmentScan(out, p, data);
    PayloadSlice(out, moof);
    PayloadSlice(out, mdat);
    PayloadParts(out, p, data, mdat.PayloadOffset());
  }

  /** What a reader should see of the two tracks. */
  function VideoFragment(p: Parts, data: bytes): TrackFragment
    requires AllReadable(data, p.video)
  {
    TrackFragment(VIDEO_TRACK_ID, p.videoBaseDts, ExpectedRun(data, p.video, p.hasCtts, FirstOnly(|p.video|)))
  }

  function AudioFragment(p: Parts, data: bytes): TrackFragment
    requires AllReadable(data, p.audio)
  {
    TrackFragment(AUDIO_TRACK_ID, p.audioBaseDts, ExpectedRun(data, p.audio, false, AllSync(|p.audio|)))
  }

  /**
   Every written segment reads back as its two tracks: base decode times, and per sample its
   duration, composition offset, size and source bytes, in order. Of the video only the first sample
   is sync, of the audio every one.
   */
  lemma SegmentReadsBack(p: Parts, data: bytes)
    requires PartsServable(p, data) && |p.video| <= U32_MAX && |p.audio| <= U32_MAX
    ensures ReadFragment([VIDEO_DEFAULTS, AUDIO_DEFAULTS], MediaSegment(p, data))
            == Ok([VideoFragment(p, data), AudioFragment(p, data)])
  {
    hide Code, Moof, MediaSegment, Scan, Only, ReadTrafs, OfType, SampleBytes, SumSizes, ExpectedRun, VideoDataOffset,
         AudioDataOffset;
    var out := MediaSegment(p, data);
    var moof := SegmentTop(out, p, data);
    TrafsReadBack(out, p, data, moof);
  }

  lemma MoofKinds(p: Parts, videoOffset: nat, audioOffset: nat)
    ensures Mfhd(p.k).fourcc == Code("mfhd")
    ensures VideoTraf(p, videoOffset).fourcc == AudioTraf(p, audioOffset).fourcc == Code("traf")
    ensures Moof(p, videoOffset, audioOffset).payload
            == EncodeAll([Mfhd(p.k), VideoTraf(p, videoOffset), AudioTraf(p, audioOffset)])
  {}

  lemma SegmentKinds(p: Parts, videoOffset: nat, audioOffset: nat, data: bytes)
    requires AllReadable(data, p.video) && AllReadable(data, p.audio)
    ensures Styp().fourcc == Code("styp") && Mdat(p, data).fourcc == Code("mdat")
    ensures Moof(p, videoOffset, audioOffset).fourcc == Code("moof")
  {}

  lemma FragmentsOfRuns(p: Parts, data: bytes)
    requires AllReadable(data, p.video) && AllReadable(data, p.audio)
    ensures VideoFragment(p, data) == FragmentOf(data, p.videoBaseDts, VideoRun(p.video, p.hasCtts))
    ensures AudioFragment(p, data) == FragmentOf(data, p.audioBaseDts, AudioRun(p.audio))
  {
    hide ExpectedRun;
  }

  /** The two `traf` boxes in terms of their runs. */
  lemma VideoTrafOf(p: Parts, offset: nat)
    ensures var run := VideoRun(p.video, p.hasCtts);
            && VideoTraf(p, offset) == Traf(TrackIdOf(run), p.videoBaseDts, run.Trun(offset))
            && run.Trun(offset) == VideoTrun(p.video, p.hasCtts, offset)
  {}

  lemma AudioTrafOf(p: Parts, offset: nat)
    ensures var run := AudioRun(p.audio);
            && AudioTraf(p, offset) == Traf(TrackIdOf(run), p.audioBaseDts, run.Trun(offset))
            && run.Trun(offset) == AudioTrun(p.audio, offset)
  {}

  lemma OffsetsFit(p: Parts)
    requires Fits(p)
    ensures VideoDataOffset(p) <= AudioDataOffset(p) <= I32_MAX && Moof(p, 0, 0).Sized()
    ensures VideoDataOffset(p) + SumSizes(p.video) == AudioDataOffset(p)
  {}

  lemma {:induction false} VideoTrafReadsBack(out: bytes, moofStart: nat, p: Parts, data: bytes, h: BoxHeader)
    requires PartsServable(p, data) && |p.video| <= U32_MAX && h.PayloadOffset() <= h.End() <= |out|
    requires PayloadOf(out, h) == VideoTraf(p, VideoDataOffset(p)).payload
    requires moofStart + AudioDataOffset(p) <= |out|
    requires out[moofStart + VideoDataOffset(p)..moofStart + AudioDataOffset(p)] == SampleBytes(data, p.video)
    ensures ReadTraf(out, moofStart, [VIDEO_DEFAULTS, AUDIO_DEFAULTS], h) == Ok(VideoFragment(p, data))
  {
    hide Moof, PayloadOf, ReadTraf, SampleBytes, SumSizes, Traf, Run.Trun, FragmentOf, VideoFragment, TrackIdOf,
         VideoTrun, AudioTrun, VideoTraf, AudioTraf, VideoDataOffset, AudioDataOffset, Fits;
    OffsetsFit(p);
    FragmentsOfRuns(p, data);
    VideoTrafOf(p, VideoDataOffset(p));
    MoofFits(p, VideoDataOffset(p), 0);
    TrafReadsBack(out, moofStart, moofStart + VideoDataOffset(p), data, h, p.videoBaseDts,
                  VideoRun(p.video, p.hasCtts));
  }

  lemma {:induction false} AudioTrafReadsBack(out: bytes, moofStart: nat, p: Parts, data: bytes, h: BoxHeader)
    requires PartsServable(p, data) && |p.audio| <= U32_MAX && h.PayloadOffset() <= h.End() <= |out|
    requires PayloadOf(out, h) == AudioTraf(p, AudioDataOffset(p)).payload
    requires var mid := moofStart + AudioDataOffset(p);
             mid + SumSizes(p.audio) <= |out| && out[mid..mid + SumSizes(p.audio)] == SampleBytes(data, p.audio)
    ensures ReadTraf(out, moofStart, [VIDEO_DEFAULTS, AUDIO_DEFAULTS], h) == Ok(AudioFragment(p, data))
  {
    hide Moof, PayloadOf, ReadTraf, SampleBytes, SumSizes, Traf, Run.Trun, FragmentOf, AudioFragment, TrackIdOf,
         VideoTrun, AudioTrun, VideoTraf, AudioTraf, VideoDataOffset, AudioDataOffset, Fits;
    OffsetsFit(p);
    FragmentsOfRuns(p, data);
    AudioTrafOf(p, AudioDataOffset(p));
    MoofFits(p, 0, AudioDataOffset(p));
    TrafReadsBack(out, moofStart, moofStart + AudioDataOffset(p), data, h, p.audioBaseDts, AudioRun(p.audio));
  }

  /** The scanner finds the two `traf` boxes of a `moof`, with their payloads. */
  lemma MoofChildren(out: bytes, p: Parts, moof: BoxHeader) returns (b: BoxHeader, c: BoxHeader)
    requires Moof(p, 0, 0).Sized()
    requires moof.headerSize == 8 && moof.declaredSize == Moof(p, 0, 0).Size() && moof.End() <= |out|
    requires out[moof.PayloadOffset()..moof.End()] == Moof(p, VideoDataOffset(p), AudioDataOffset(p)).payload
    ensures Scan(out, moof.PayloadOffset(), moof.End()).Ok?
    ensures OfType(Scan(out, moof.PayloadOffset(), moof.End()).value, Code("traf")) == [b, c]
    ensures b.PayloadOffset() <= b.End() <= |out| && c.PayloadOffset() <= c.End() <= |out|
    ensures PayloadOf(out, b) == VideoTraf(p, VideoDataOffset(p)).payload
    ensures PayloadOf(out, c) == AudioTraf(p, AudioDataOffset(p)).payload
  {
    hide Code, EncodeAll, Scan, PayloadOf, OfType, Moof, VideoTraf, AudioTraf, Mfhd, VideoDataOffset, AudioDataOffset;
    SegmentCodes();
    var v, a := VideoDataOffset(p), AudioDataOffset(p);
    MoofKinds(p, v, a);
    MoofFits(p, v, a);
    ScanThree(out, moof.PayloadOffset(), moof.End(), Mfhd(p.k), VideoTraf(p, v), AudioTraf(p, a));
    var hs := Scan(out, moof.PayloadOffset(), moof.End()).value;
    OfTypeLastTwo(hs[0], hs[1], hs[2]);
    b, c := hs[1], hs[2];
  }

  lemma {:induction false} TrafsReadBack(out: bytes, p: Parts, data: bytes, moof: BoxHeader)
    requires PartsServable(p, data) && |p.video| <= U32_MAX && |p.audio| <= U32_MAX
    requires moof.headerSize == 8 && moof.declaredSize == Moof(p, 0, 0).Size() && moof.End() <= |out|
    requires out[moof.PayloadOffset()..moof.End()] == Moof(p, VideoDataOffset(p), AudioDataOffset(p)).payload
    requires var at, mid := moof.start + VideoDataOffset(p), moof.start + AudioDataOffset(p);
             && mid + SumSizes(p.audio) <= |out|
             && out[at..mid] == SampleBytes(data, p.video)
                 && out[mid..mid + SumSizes(p.audio)] == SampleBytes(data, p.audio)
    ensures Scan(out, moof.PayloadOffset(), moof.End()).Ok?
    ensures ReadTrafs(out, moof.start, [VIDEO_DEFAULTS, AUDIO_DEFAULTS],
                      OfType(Scan(out, moof.PayloadOffset(), moof.End()).value, Code("traf")))
            == Ok([VideoFragment(p, data), AudioFragment(p, data)])
  {
    hide Code, EncodeAll, Scan, PayloadOf, ReadTraf, ReadTrafs, OfType, SampleBytes, SumSizes, ExpectedRun;
    hide Moof, VideoTraf, AudioTraf, VideoFragment, AudioFragment;
    var b, c := MoofChildren(out, p, moof);
    VideoTrafReadsBack(out, moof.start, p, data, b);
    AudioTrafReadsBack(out, moof.start, p, data, c);
    ReadTwo(out, moof.start, [VIDEO_DEFAULTS, AUDIO_DEFAULTS], b, c);
  }

  lemma {:induction false} ReadTwo(out: bytes, moofStart: nat, defaults: seq<TrackDefaults>, b: BoxHeader, c: BoxHeader)
    requires ReadTraf(out, moofStart, defaults, b).Ok? && ReadTraf(out, moofStart, defaults, c).Ok?
    ensures ReadTrafs(out, moofStart, defaults, [b, c])
            == Ok([ReadTraf(out, moofStart, defaults, b).value, ReadTraf(out, moofStart, defaults, c).value])
  {
    hide ReadTraf;
    var x, y := ReadTraf(out, moofStart, defaults, b).value, ReadTraf(out, moofStart, defaults, c).value;
    assert [b, c][1..] == [c] && [c][1..] == [];
    assert ReadTrafs(out, moofStart, defaults, []) == Ok([]);
    assert [y] + [] == [y] && [x] + [y] == [x, y];
    assert ReadTrafs(out, moofStart, defaults, [c]) == Ok([y]);
  }

  // ---------- Segment type and sequence number ----------

  lemma MfhdReads(k: nat)
    ensures var p := Mfhd(k).payload;
            |p| == 8 && U32At(p, 0) == 0 && U32At(p, 4) == if k < U32_MAX then k + 1 else U32_MAX
  {
    hide Be32, ReadBe;
    var p := Mfhd(k).payload;
    assert p[0..4] == Be32(0) && p[4..8] == Be32(SequenceNumber(k));
    Be32ReadBack(0);
    Be32ReadBack(SequenceNumber(k));
  }

  /** The fragment header comes first in a `moof`. */
  lemma MfhdFound(out: bytes, p: Parts, moof: BoxHeader) returns (mfhd: BoxHeader)
    requires Moof(p, 0, 0).Sized()
    requires moof.headerSize == 8 && moof.declaredSize == Moof(p, 0, 0).Size() && moof.End() <= |out|
    requires out[moof.PayloadOffset()..moof.End()] == Moof(p, VideoDataOffset(p), AudioDataOffset(p)).payload
    ensures var children := Scan(out, moof.PayloadOffset(), moof.End());
            children.Ok? && Only(children.value, Code("mfhd")) == Ok(mfhd)
    ensures PayloadOf(out, mfhd) == Mfhd(p.k).payload
  {
    hide Code, EncodeAll, Scan, PayloadOf, Only, OfType, Moof, VideoTraf, AudioTraf, Mfhd, VideoDataOffset,
         AudioDataOffset;
    SegmentCodes();
    var v, a := VideoDataOffset(p), AudioDataOffset(p);
    MoofKinds(p, v, a);
    MoofFits(p, v, a);
    ScanThree(out, moof.PayloadOffset(), moof.End(), Mfhd(p.k), VideoTraf(p, v), AudioTraf(p, a));
    var hs := Scan(out, moof.PayloadOffset(), moof.End()).value;
    OnlyAt(hs, 0);
    mfhd := hs[0];
  }

  /** Segments are numbered from 1, up to the largest 32-bit number. */
  lemma SequenceReadsBack(p: Parts, data: bytes)
    requires PartsServable(p, data)
    ensures ReadSequence(MediaSegment(p, data)) == Ok(if p.k < U32_MAX then p.k + 1 else U32_MAX)
  {
    hide Code, Moof, MediaSegment, Scan, Only, PayloadOf, SampleBytes, SumSizes, VideoDataOffset, AudioDataOffset, Mfhd;
    var out := MediaSegment(p, data);
    var moof := SegmentTop(out, p, data);
    var mfhd := MfhdFound(out, p, moof);
    MfhdReads(p.k);
  }

  lemma StypReads()
    ensures var p := Styp().payload;
            |p| == 16 && p[..4] == Code("msdh") && Rows(p[8..], 4, 2) == [Code("msdh"), Code("cmfc")]
  {
    hide Code, Be32;
    var p := StypPayload();
    assert p[8..] == Code("msdh") + Code("cmfc");
    assert p[8..][..4] == Code("msdh") && p[8..][4..] == Code("cmfc") && p[8..][4..][..4] == Code("cmfc");
    assert Rows(p[8..][4..][4..], 4, 0) == [];
    assert Rows(p[8..][4..], 4, 1) == [Code("cmfc")];
  }

  /** Every segment says that it is a CMAF media segment. */
  lemma BrandsReadBack(p: Parts, data: bytes)
    requires PartsServable(p, data)
    ensures ReadBrands(MediaSegment(p, data)) == Ok([Code("msdh"), Code("msdh"), Code("cmfc")])
  {
    hide Code, Moof, Mdat, MediaSegment, Scan, Only, PayloadOf, Styp, Fits, Rows;
    var styp, moof, mdat := SegmentScan(MediaSegment(p, data), p, data);
    StypReads();
    var head: seq<bytes>, rest: seq<bytes> := [Code("msdh")], [Code("msdh"), Code("cmfc")];
    assert head + rest == [Code("msdh"), Code("msdh"), Code("cmfc")];
    assert (|PayloadOf(MediaSegment(p, data), styp)| - 8) / 4 == 2;
  }
}
