/** Media-segment assembly over a seekable sink, with data offsets patched late. */
module SegmentWriter {
  import opened Boxes
  import opened BoxWriters
  import opened Bytes
  import opened Format
  import opened Segment
  import opened Sinks
  import opened Sources
  import opened Wrappers

  const COPY_BUF_SIZE := 64 * 1024

  // ---------- Boxes of fixed size ----------

  method WriteStyp(out: Sink)
    requires out.AtEnd() && |out.Image()| + 24 <= U64_MAX
    modifies out.Obj()
    ensures out.AtEnd() && out.Image() == old(out.Image()) + Styp().Encode()
  {
    ghost var before := out.Image();
    var bx := BoxWriter.Open(out, Code("styp"));
    ghost var base := out.Image();
    out.Write(Code("msdh"));
    out.Put(Be32(0), base, Code("msdh"));
    out.Put(Code("msdh"), base, Code("msdh") + Be32(0));
    out.Put(Code("cmfc"), base, Code("msdh") + Be32(0) + Code("msdh"));
    var r := bx.Finish(None, before, StypPayload());
  }

  method WriteMfhd(out: Sink, segmentIdx: u32)
    requires out.AtEnd() && |out.Image()| + 16 <= U64_MAX
    modifies out.Obj()
    ensures out.AtEnd() && out.Image() == old(out.Image()) + Mfhd(segmentIdx).Encode()
  {
    ghost var before := out.Image();
    var bx := BoxWriter.Open(out, Code("mfhd"));
    ghost var base := out.Image();
    out.Write(FullHeader(0, 0));
    var sequenceNumber := if segmentIdx == U32_MAX then U32_MAX else segmentIdx + 1;
    out.Put(Be32(sequenceNumber), base, FullHeader(0, 0));
    var r := bx.Finish(None, before, Mfhd(segmentIdx).payload);
  }

  method WriteTfhd(out: Sink, trackId: u32)
    requires out.AtEnd() && |out.Image()| + 16 <= U64_MAX
    modifies out.Obj()
    ensures out.AtEnd() && out.Image() == old(out.Image()) + Tfhd(trackId).Encode()
  {
    ghost var before := out.Image();
    var bx := BoxWriter.Open(out, Code("tfhd"));
    ghost var base := out.Image();
    out.Write(FullHeader(0, TFHD_DEFAULT_BASE_IS_MOOF));
    out.Put(Be32(trackId), base, FullHeader(0, TFHD_DEFAULT_BASE_IS_MOOF));
    var r := bx.Finish(None, before, Tfhd(trackId).payload);
  }

  method WriteTfdt(out: Sink, baseDts: u64)
    requires out.AtEnd() && |out.Image()| + 20 <= U64_MAX
    modifies out.Obj()
    ensures out.AtEnd() && out.Image() == old(out.Image()) + Tfdt(baseDts).Encode()
  {
    ghost var before := out.Image();
    var bx := BoxWriter.Open(out, Code("tfdt"));
    ghost var base := out.Image();
    out.Write(FullHeader(1, 0));
    out.Put(Be64(baseDts), base, FullHeader(1, 0));
    var r := bx.Finish(None, before, Tfdt(baseDts).payload);
  }

  // ---------- Track runs ----------

  lemma RowAppended(p: bytes, s: SampleEntry, hasCtts: bool)
    ensures p + VideoRow(s, hasCtts) == p + Be32(s.dtsDelta) + Be32(s.size)
                                        + if hasCtts then Be32(Unsigned32(s.ctsOffset)) else []
  {
    hide Be32;
  }

  /** Write the rows of a run; audio rows are video rows without composition offsets. */
  method WriteRows(out: Sink, samples: seq<SampleEntry>, hasCtts: bool)
    requires out.AtEnd() && |out.Image()| + 12 * |samples| <= U64_MAX
    modifies out.Obj()
    ensures out.AtEnd() && out.Image() == old(out.Image()) + Flatten(VideoRows(samples, hasCtts))
  {
    hide Flatten, Be32;
    FlattenNothing();
    ghost var base := out.Image();
    ghost var rows := VideoRows(samples, hasCtts);
    for i := 0 to |samples|
      invariant out.AtEnd() && out.Image() == base + Flatten(rows[..i])
      invariant |out.Image()| <= |base| + 12 * i
    {
      ghost var p := Flatten(rows[..i]);
      var s := samples[i];
      out.Put(Be32(s.dtsDelta), base, p);
      out.Put(Be32(s.size), base, p + Be32(s.dtsDelta));
      if hasCtts {
        out.Put(Be32(Unsigned32(s.ctsOffset)), base, p + Be32(s.dtsDelta) + Be32(s.size));
      }
      RowAppended(p, s, hasCtts);
      FlattenPiece(rows, i);
    }
    assert rows[..|samples|] == rows;
  }

  /** Header, sample count and a zero data offset; returns where the offset has to be patched later. */
  method WriteTrunHead(out: Sink, version: byte, flags: nat, count: nat) returns (dataOffsetPos: nat)
    requires flags <= 0xFF_FFFF && out.AtEnd() && |out.Image()| + 12 <= U64_MAX
    modifies out.Obj()
    ensures dataOffsetPos == |old(out.Image())| + 8
    ensures out.AtEnd() && out.Image() == old(out.Image()) + (TrunHead(version, flags, count) + Be32(0))
  {
    ghost var base := out.Image();
    out.Write(FullHeader(version, flags));
    out.Put(Be32(count), base, FullHeader(version, flags));
    dataOffsetPos := out.Position();
    out.Put(Be32(0), base, TrunHead(version, flags, count));
  }

  lemma RowsSize(samples: seq<SampleEntry>, hasCtts: bool)
    ensures |Flatten(VideoRows(samples, hasCtts))| <= 12 * |samples|
  {
    FlattenUniformLength(VideoRows(samples, hasCtts), if hasCtts then 12 else 8);
  }

  method WriteVideoTrun(out: Sink, samples: seq<SampleEntry>, hasCtts: bool) returns (r: Result<nat>)
    requires out.AtEnd() && |out.Image()| + 24 + 12 * |samples| <= U64_MAX && |samples| <= U32_MAX
    modifies out.Obj()
    ensures r.Ok? <==> VideoTrun(samples, hasCtts, 0).Sized()
    ensures r.Ok? ==> r.value == |old(out.Image())| + 16
    ensures r.Ok? ==> out.AtEnd() && out.Image() == old(out.Image()) + VideoTrun(samples, hasCtts, 0).Encode()
    ensures r.Err? ==> r.error == Io
  {
    ghost var before, rows := out.Image(), Flatten(VideoRows(samples, hasCtts));
    RowsSize(samples, hasCtts);
    var bx := BoxWriter.Open(out, Code("trun"));
    ghost var base := out.Image();
    var version, flags := if hasCtts then 1 else 0, if hasCtts then VIDEO_TRUN_FLAGS_CTS else VIDEO_TRUN_FLAGS;
    var dataOffsetPos := WriteTrunHead(out, version, flags, |samples|);
    ghost var head := VideoTrunHead(samples, hasCtts) + Be32(0);
    out.Put(Be32(FIRST_SAMPLE_FLAGS_SYNC), base, head);
    WriteRows(out, samples, hasCtts);
    Assoc(base, head + Be32(FIRST_SAMPLE_FLAGS_SYNC), rows);
    Assoc(head, Be32(FIRST_SAMPLE_FLAGS_SYNC), rows);
    var _ :- bx.Finish(None, before, VideoTrun(samples, hasCtts, 0).payload);
    return Ok(dataOffsetPos);
  }

  method WriteAudioTrun(out: Sink, samples: seq<SampleEntry>) returns (r: Result<nat>)
    requires out.AtEnd() && |out.Image()| + 24 + 12 * |samples| <= U64_MAX && |samples| <= U32_MAX
    modifies out.Obj()
    ensures r.Ok? <==> AudioTrun(samples, 0).Sized()
    ensures r.Ok? ==> r.value == |old(out.Image())| + 16
    ensures r.Ok? ==> out.AtEnd() && out.Image() == old(out.Image()) + AudioTrun(samples, 0).Encode()
    ensures r.Err? ==> r.error == Io
  {
    ghost var before := out.Image();
    RowsSize(samples, false);
    var bx := BoxWriter.Open(out, Code("trun"));
    ghost var base := out.Image();
    var dataOffsetPos := WriteTrunHead(out, 0, AUDIO_TRUN_FLAGS, |samples|);
    WriteRows(out, samples, false);
    Assoc(base, TrunHead(0, AUDIO_TRUN_FLAGS, |samples|) + Be32(0), Flatten(AudioRows(samples)));
    var _ :- bx.Finish(None, before, AudioTrun(samples, 0).payload);
    return Ok(dataOffsetPos);
  }

  /** Which of the two track runs a fragment gets. */
  datatype Run = VideoRun(samples: seq<SampleEntry>, hasCtts: bool) | AudioRun(samples: seq<SampleEntry>) {
    function Trun(dataOffset: nat): Plain {
      match this
      case VideoRun(s, hasCtts) => VideoTrun(s, hasCtts, dataOffset)
      case AudioRun(s) => AudioTrun(s, dataOffset)
    }
  }

  lemma RunSize(run: Run)
    ensures run.Trun(0).Size() <= 24 + 12 * |run.samples|
  {
    RowsSize(run.samples, run.VideoRun? && run.hasCtts);
  }

  method WriteTraf(out: Sink, trackId: u32, baseDts: u64, run: Run) returns (r: Result<nat>)
    requires out.AtEnd() && |out.Image()| + 68 + 12 * |run.samples| <= U64_MAX && |run.samples| <= U32_MAX
    modifies out.Obj()
    ensures r.Ok? <==> Traf(trackId, baseDts, run.Trun(0)).Sized()
    ensures r.Ok? ==> r.value == |old(out.Image())| + 60
    ensures r.Ok? ==> out.AtEnd() && out.Image() == old(out.Image()) + Traf(trackId, baseDts, run.Trun(0)).Encode()
    ensures r.Err? ==> r.error == Io
  {
    ghost var before := out.Image();
    ghost var a, b, c := Tfhd(trackId), Tfdt(baseDts), run.Trun(0);
    ThreeBoxes(a, b, c);
    RunSize(run);
    var bx := BoxWriter.Open(out, Code("traf"));
    hide VideoTrun, AudioTrun, Be32, Code;
    ghost var base := out.Image();
    WriteTfhd(out, trackId);
    WriteTfdt(out, baseDts);
    Assoc(base, a.Encode(), b.Encode());
    var written;
    match run {
      case VideoRun(samples, hasCtts) => written := WriteVideoTrun(out, samples, hasCtts);
      case AudioRun(samples) => written := WriteAudioTrun(out, samples);
    }
    var dataOffsetPos :- written;
    Assoc(base, a.Encode() + b.Encode(), c.Encode());
    var _ :- bx.Finish(None, before, EncodeAll([a, b, c]));
    return Ok(dataOffsetPos);
  }

  lemma TrafSize(trackId: nat, baseDts: u64, run: Run)
    ensures Traf(trackId, baseDts, run.Trun(0)).Size() == 44 + run.Trun(0).Size() <= 68 + 12 * |run.samples|
  {
    RunSize(run);
    ThreeBoxes(Tfhd(trackId), Tfdt(baseDts), run.Trun(0));
  }

  lemma MoofSize(p: Parts)
    ensures VideoTraf(p, 0).Size() <= 68 + 12 * |p.video|
    ensures AudioTraf(p, 0).Size() <= 68 + 12 * |p.audio|
    ensures Moof(p, 0, 0).Size() == 24 + VideoTraf(p, 0).Size() + AudioTraf(p, 0).Size()
  {
    TrafSize(VIDEO_TRACK_ID, p.videoBaseDts, VideoRun(p.video, p.hasCtts));
    TrafSize(AUDIO_TRACK_ID, p.audioBaseDts, AudioRun(p.audio));
    ThreeBoxes(Mfhd(p.k), VideoTraf(p, 0), AudioTraf(p, 0));
  }

  method WriteVideoTraf(out: Sink, p: Parts) returns (r: Result<nat>)
    requires out.AtEnd() && |out.Image()| + 68 + 12 * |p.video| <= U64_MAX && |p.video| <= U32_MAX
    modifies out.Obj()
    ensures r.Ok? <==> VideoTraf(p, 0).Sized()
    ensures r.Ok? ==> r.value == |old(out.Image())| + 60
    ensures r.Ok? ==> out.AtEnd() && out.Image() == old(out.Image()) + VideoTraf(p, 0).Encode()
    ensures r.Err? ==> r.error == Io
  {
    r := WriteTraf(out, VIDEO_TRACK_ID, p.videoBaseDts, VideoRun(p.video, p.hasCtts));
  }

  method WriteAudioTraf(out: Sink, p: Parts) returns (r: Result<nat>)
    requires out.AtEnd() && |out.Image()| + 68 + 12 * |p.audio| <= U64_MAX && |p.audio| <= U32_MAX
    modifies out.Obj()
    ensures r.Ok? <==> AudioTraf(p, 0).Sized()
    ensures r.Ok? ==> r.value == |old(out.Image())| + 60
    ensures r.Ok? ==> out.AtEnd() && out.Image() == old(out.Image()) + AudioTraf(p, 0).Encode()
    ensures r.Err? ==> r.error == Io
  {
    r := WriteTraf(out, AUDIO_TRACK_ID, p.audioBaseDts, AudioRun(p.audio));
  }

  method WriteMoof(out: Sink, p: Parts) returns (r: Result<(nat, nat)>)
    requires out.AtEnd() && |out.Image()| + 160 + 12 * |p.video| + 12 * |p.audio| <= U64_MAX
    requires |p.video| <= U32_MAX && |p.audio| <= U32_MAX && p.k <= U32_MAX
    modifies out.Obj()
    ensures r.Ok? <==> Moof(p, 0, 0).Sized()
    ensures r.Ok? ==> r.value == (|old(out.Image())| + VideoPatchPos(), |old(out.Image())| + AudioPatchPos(p))
    ensures r.Ok? ==> out.AtEnd() && out.Image() == old(out.Image()) + Moof(p, 0, 0).Encode()
    ensures r.Err? ==> r.error == Io
  {
    ghost var before := out.Image();
    hide VideoTraf, AudioTraf, Mfhd, Code, Be32, EncodeAll, Box, OpenHeader;
    ghost var a, b, c := Mfhd(p.k), VideoTraf(p, 0), AudioTraf(p, 0);
    MoofSize(p);
    ThreeBoxes(a, b, c);
    var bx := BoxWriter.Open(out, Code("moof"));
    ghost var base := out.Image();
    WriteMfhd(out, p.k);
    var videoPos :- WriteVideoTraf(out, p);
    Assoc(base, a.Encode(), b.Encode());
    var audioPos :- WriteAudioTraf(out, p);
    Assoc(base, a.Encode() + b.Encode(), c.Encode());
    var _ :- bx.Finish(None, before, Moof(p, 0, 0).payload);
    return Ok((videoPos, audioPos));
  }

  // ---------- Sample payload ----------

  /** What has been read of a range, and the next part of it. */
  lemma SliceGrows(data: bytes, offset: nat, len: nat, n: nat)
    requires Readable(data, offset, len) && n > 0 && offset + len + n <= |data|
    ensures Readable(data, offset, len + n)
    ensures Slice(data, offset, len) + data[offset + len..offset + len + n] == Slice(data, offset, len + n)
  {}

  /** Read the next part of a sample, as long as the source allows, and write it. */
  method CopyChunk(src: Source, out: Sink, offset: nat, done: nat, remaining: nat, buf: array<byte>, ghost base: bytes)
    returns (n: nat)
    requires Readable(src.data, offset, done) && remaining > 0 && buf.Length > 0 && out.Obj() != buf
    requires out.AtEnd() && out.Image() == base + Slice(src.data, offset, done) && |out.Image()| + remaining <= U64_MAX
    modifies out.Obj(), buf
    ensures n <= remaining && (n == 0 <==> offset + done >= |src.data|)
    ensures n > 0 ==> Readable(src.data, offset, done + n)
    ensures n > 0 ==> out.AtEnd() && out.Image() == base + Slice(src.data, offset, done + n)
  {
    var chunkLen := if remaining <= buf.Length then remaining else buf.Length;
    n := src.ReadAt(offset + done, buf, 0, chunkLen);
    if n > 0 {
      SliceGrows(src.data, offset, done, n);
      assert buf[..n] == src.data[offset + done..offset + done + n];
      hide Slice, Readable;
      out.Put(buf[..n], base, Slice(src.data, offset, done));
    }
  }

  /** Copy one sample through `buf`, however short the single reads are. */
  method StreamSample(src: Source, out: Sink, sample: SampleEntry, buf: array<byte>) returns (r: Result<()>)
    requires out.AtEnd() && |out.Image()| + sample.size <= U64_MAX && buf.Length > 0
    requires out.Obj() != buf
    modifies out.Obj(), buf
    ensures r.Ok? <==> Readable(src.data, sample.offset, sample.size)
    ensures r.Ok? ==> out.AtEnd() && out.Image() == old(out.Image()) + Slice(src.data, sample.offset, sample.size)
    ensures r.Err? ==> r.error == Io
  {
    hide Slice;
    ghost var base := out.Image();
    var remaining: nat, done: nat := sample.size, 0;
    NothingRead(src.data, sample.offset, base);
    while remaining > 0
      invariant remaining + done == sample.size && Readable(src.data, sample.offset, done)
      invariant out.AtEnd() && out.Image() == base + Slice(src.data, sample.offset, done)
    {
      var n := CopyChunk(src, out, sample.offset, done, remaining, buf, base);
      if n == 0 {
        return Err(Io);
      }
      remaining, done := remaining - n, done + n;
    }
    return Ok(());
  }

  lemma NothingRead(data: bytes, offset: nat, base: bytes)
    ensures Readable(data, offset, 0) && base == base + Slice(data, offset, 0)
  {}

  /** Copy the samples one after another. */
  method StreamSamples(src: Source, out: Sink, samples: seq<SampleEntry>, buf: array<byte>) returns (r: Result<()>)
    requires out.AtEnd() && |out.Image()| + SumSizes(samples) <= U64_MAX && buf.Length > 0
    requires out.Obj() != buf
    modifies out.Obj(), buf
    ensures r.Ok? <==> AllReadable(src.data, samples)
    ensures r.Ok? ==> out.AtEnd() && out.Image() == old(out.Image()) + SampleBytes(src.data, samples)
    ensures r.Err? ==> r.error == Io
  {
    hide SumSizes, SampleBytes, Slice;
    ghost var base := out.Image();
    SampleBytesStart(src.data, samples);
    for i := 0 to |samples|
      invariant out.AtEnd() && AllReadable(src.data, samples[..i])
      invariant out.Image() == base + SampleBytes(src.data, samples[..i])
    {
      SumSizesPrefix(samples, i + 1);
      SampleBytesStep(src.data, samples, i);
      var _ :- StreamSample(src, out, samples[i], buf);
      Assoc(base, SampleBytes(src.data, samples[..i]), Slice(src.data, samples[i].offset, samples[i].size));
    }
    assert samples[..|samples|] == samples;
    return Ok(());
  }

  lemma {:induction false} SampleBytesStart(data: bytes, samples: seq<SampleEntry>)
    ensures SampleBytes(data, samples[..0]) == [] && SumSizes(samples[..0]) == 0
  {}

  /** One more sample. */
  lemma {:induction false} SampleBytesStep(data: bytes, samples: seq<SampleEntry>, i: nat)
    requires i < |samples| && AllReadable(data, samples[..i])
    ensures SumSizes(samples[..i + 1]) == SumSizes(samples[..i]) + samples[i].size
    ensures AllReadable(data, samples[..i + 1]) <==> Readable(data, samples[i].offset, samples[i].size)
    ensures AllReadable(data, samples[..i + 1]) ==>
              SampleBytes(data, samples[..i + 1])
              == SampleBytes(data, samples[..i]) + Slice(data, samples[i].offset, samples[i].size)
  {
    assert samples[..i + 1][..i] == samples[..i];
    assert samples[..i + 1][i] == samples[i];
  }

  lemma {:induction false} SumSizesPrefix(samples: seq<SampleEntry>, i: nat)
    requires i <= |samples|
    ensures SumSizes(samples[..i]) <= SumSizes(samples)
    decreases |samples|
  {
    if i < |samples| {
      SumSizesPrefix(samples[..|samples| - 1], i);
      assert samples[..|samples| - 1][..i] == samples[..i];
    } else {
      assert samples[..i] == samples;
    }
  }

  // ---------- Late patching ----------

  /** Where the data offsets lie, counted from the start of `moof`. */
  function VideoPatchPos(): nat {
    84
  }

  function AudioPatchPos(p: Parts): nat {
    84 + VideoTraf(p, 0).Size()
  }

  lemma PatchInside(a: bytes, b: bytes, c: bytes, pos: nat, patch: bytes)
    requires pos + |patch| <= |b|
    ensures Patch(a + b + c, |a| + pos, patch) == a + Patch(b, pos, patch) + c
  {
    var whole := a + b + c;
    assert whole[..|a| + pos] == a + b[..pos];
    assert whole[|a| + pos + |patch|..] == b[pos + |patch|..] + c;
  }

  lemma PatchInBox(f: FourCC, payload: bytes, pos: nat, patch: bytes)
    requires pos + |patch| <= |payload|
    ensures Patch(Box(f, payload), 8 + pos, patch) == Box(f, Patch(payload, pos, patch))
  {
    var header := Be32(8 + |payload|) + f;
    PatchInside(header, payload, [], pos, patch);
    assert Box(f, payload) == header + payload + [];
  }

  /** Patching the tail of a box that follows other contents. */
  lemma PatchLast(f: FourCC, a: bytes, b: bytes, pos: nat, patch: bytes)
    requires pos + |patch| <= |b|
    ensures Patch(Box(f, a + b), 8 + |a| + pos, patch) == Box(f, a + Patch(b, pos, patch))
  {
    hide Box;
    PatchInside(a, b, [], pos, patch);
    assert a + b + [] == a + b && a + Patch(b, pos, patch) + [] == a + Patch(b, pos, patch);
    PatchInBox(f, a + b, |a| + pos, patch);
  }

  lemma PatchRun(run: Run, was: nat, dataOffset: nat)
    ensures |run.Trun(was).payload| >= 12
    ensures Patch(run.Trun(was).payload, 8, Be32(dataOffset)) == run.Trun(dataOffset).payload
    ensures run.Trun(was).fourcc == run.Trun(dataOffset).fourcc
  {
    hide Be32, Patch, Flatten, TrunHead;
    match run {
      case VideoRun(s, hasCtts) =>
        PatchMiddle(VideoTrunHead(s, hasCtts), Be32(was),
                    Be32(FIRST_SAMPLE_FLAGS_SYNC) + Flatten(VideoRows(s, hasCtts)), Be32(dataOffset));
      case AudioRun(s) =>
        PatchMiddle(TrunHead(0, AUDIO_TRUN_FLAGS, |s|), Be32(was), Flatten(AudioRows(s)), Be32(dataOffset));
    }
  }

  lemma PatchTraf(trackId: nat, baseDts: u64, run: Run, was: nat, dataOffset: nat)
    ensures 64 <= Traf(trackId, baseDts, run.Trun(was)).Size()
    ensures Patch(Traf(trackId, baseDts, run.Trun(was)).Encode(), 60, Be32(dataOffset))
            == Traf(trackId, baseDts, run.Trun(dataOffset)).Encode()
  {
    hide Be32, Patch, Box, VideoTrun, AudioTrun, Tfhd, Tfdt, EncodeAll, Code;
    var a, b, c, patched := Tfhd(trackId), Tfdt(baseDts), run.Trun(was), run.Trun(dataOffset);
    PatchRun(run, was, dataOffset);
    PatchInBox(c.fourcc, c.payload, 8, Be32(dataOffset));
    ThreeBoxes(a, b, c);
    ThreeBoxes(a, b, patched);
    PatchLast(Code("traf"), a.Encode() + b.Encode(), c.Encode(), 16, Be32(dataOffset));
  }

  /** Patching both placeholders of a `moof` gives the `moof` with both offsets, of the same size. */
  lemma PatchMoof(p: Parts, videoOffset: nat, audioOffset: nat)
    ensures VideoPatchPos() + 4 <= Moof(p, 0, 0).Size() && AudioPatchPos(p) + 4 <= Moof(p, 0, 0).Size()
    ensures Patch(Patch(Moof(p, 0, 0).Encode(), VideoPatchPos(), Be32(videoOffset)),
                  AudioPatchPos(p), Be32(audioOffset))
            == Moof(p, videoOffset, audioOffset).Encode()
  {
    PatchMoofVideo(p, videoOffset);
    PatchMoofAudio(p, videoOffset, audioOffset);
  }

  /** Patching inside one of three boxes that lie side by side in a box. */
  lemma PatchThree(f: FourCC, a: bytes, b: bytes, c: bytes, pos: nat, patch: bytes)
    requires pos + |patch| <= |b|
    ensures Patch(Box(f, a + b + c), 8 + |a| + pos, patch) == Box(f, a + Patch(b, pos, patch) + c)
  {
    PatchInside(a, b, c, pos, patch);
    PatchInBox(f, a + b + c, |a| + pos, patch);
  }

  lemma PatchMoofVideo(p: Parts, videoOffset: nat)
    ensures VideoPatchPos() + 4 <= Moof(p, 0, 0).Size() == Moof(p, videoOffset, 0).Size()
    ensures Patch(Moof(p, 0, 0).Encode(), VideoPatchPos(), Be32(videoOffset)) == Moof(p, videoOffset, 0).Encode()
  {
    hide Be32, Patch, Box, VideoTrun, AudioTrun, Mfhd, EncodeAll, Code;
    var a, b, c := Mfhd(p.k), VideoTraf(p, 0), AudioTraf(p, 0);
    var b' := VideoTraf(p, videoOffset);
    PatchTraf(VIDEO_TRACK_ID, p.videoBaseDts, VideoRun(p.video, p.hasCtts), 0, videoOffset);
    assert Patch(b.Encode(), 60, Be32(videoOffset)) == b'.Encode();
    ThreeBoxes(a, b, c);
    ThreeBoxes(a, b', c);
    PatchThree(Code("moof"), a.Encode(), b.Encode(), c.Encode(), 60, Be32(videoOffset));
  }

  lemma PatchMoofAudio(p: Parts, videoOffset: nat, audioOffset: nat)
    ensures VideoTraf(p, 0).Size() == VideoTraf(p, videoOffset).Size()
    ensures AudioPatchPos(p) + 4 <= Moof(p, videoOffset, 0).Size() == Moof(p, videoOffset, audioOffset).Size()
    ensures Patch(Moof(p, videoOffset, 0).Encode(), AudioPatchPos(p), Be32(audioOffset))
            == Moof(p, videoOffset, audioOffset).Encode()
  {
    hide Be32, Patch, Box, VideoTrun, AudioTrun, Mfhd, EncodeAll, Code;
    var a, b, c := Mfhd(p.k), VideoTraf(p, videoOffset), AudioTraf(p, 0);
    var c' := AudioTraf(p, audioOffset);
    PatchTraf(VIDEO_TRACK_ID, p.videoBaseDts, VideoRun(p.video, p.hasCtts), 0, videoOffset);
    assert Patch(VideoTraf(p, 0).Encode(), 60, Be32(videoOffset)) == b.Encode();
    PatchTraf(AUDIO_TRACK_ID, p.audioBaseDts, AudioRun(p.audio), 0, audioOffset);
    assert Patch(c.Encode(), 60, Be32(audioOffset)) == c'.Encode();
    ThreeBoxes(a, b, c);
    ThreeBoxes(a, b, c');
    PatchLast(Code("moof"), a.Encode() + b.Encode(), c.Encode(), 60, Be32(audioOffset));
  }

  /** The payload offset relative to the `moof` box, as a signed 32-bit number. */
  function ComputeDataOffset(mdatPayloadStart: nat, moofStart: nat, trailing: nat): (r: Result<nat>)
    ensures r.Ok? <==> moofStart <= mdatPayloadStart && mdatPayloadStart - moofStart + trailing <= I32_MAX
    ensures r.Ok? ==> r.value == mdatPayloadStart - moofStart + trailing
  {
    if mdatPayloadStart < moofStart || mdatPayloadStart - moofStart + trailing > I32_MAX then Err(Io)
    else Ok(mdatPayloadStart - moofStart + trailing)
  }

  // ---------- The segment ----------

  method SliceSegmentSamples(table: seq<SampleEntry>, start: u32, count: u32) returns (r: Result<seq<SampleEntry>>)
    ensures r.Ok? <==> InTable(table, start, count)
    ensures r.Ok? ==> r.value == table[start..start + count]
    ensures r.Err? ==> r.error == SampleTableInconsistent
  {
    var end: nat := start + count;
    if end > |table| {
      return Err(SampleTableInconsistent);
    }
    return Ok(table[start..end]);
  }

  /** Payload size of a run. With at most 2^32 - 1 samples the sum cannot leave 64 bits. */
  method ComputeSize(samples: seq<SampleEntry>) returns (total: u64)
    requires |samples| <= U32_MAX
    ensures total == SumSizes(samples)
  {
    total := 0;
    for i := 0 to |samples|
      invariant total == SumSizes(samples[..i])
    {
      assert samples[..i + 1][..i] == samples[..i];
      assert SumSizes(samples[..i + 1]) <= (i + 1) * U32_MAX <= U32_MAX * U32_MAX;
      total := total + samples[i].size;
    }
    assert samples[..|samples|] == samples;
  }

  method AnyCtts(samples: seq<SampleEntry>) returns (found: bool)
    ensures found <==> exists i :: 0 <= i < |samples| && samples[i].ctsOffset != 0
  {
    for i := 0 to |samples|
      invariant forall j :: 0 <= j < i ==> samples[j].ctsOffset == 0
    {
      if samples[i].ctsOffset != 0 {
        return true;
      }
    }
    return false;
  }

  method WriteMdat(src: Source, out: Sink, p: Parts, total: u32) returns (r: Result<()>)
    requires out.AtEnd() && |out.Image()| + 8 + SumSizes(p.video) + SumSizes(p.audio) <= U64_MAX
    requires total == 8 + SumSizes(p.video) + SumSizes(p.audio)
    modifies out.Obj()
    ensures r.Ok? <==> AllReadable(src.data, p.video) && AllReadable(src.data, p.audio)
    ensures r.Ok? ==> out.AtEnd() && out.Image() == old(out.Image()) + Mdat(p, src.data).Encode()
    ensures r.Err? ==> r.error == Io
  {
    ghost var before := out.Image();
    var bx := BoxWriter.Open(out, Code("mdat"));
    ghost var base := out.Image();
    var buf := new byte[COPY_BUF_SIZE];
    var _ :- StreamSamples(src, out, p.video, buf);
    var _ :- StreamSamples(src, out, p.audio, buf);
    Assoc(base, SampleBytes(src.data, p.video), SampleBytes(src.data, p.audio));
    var done := bx.Finish(Some(total), before, Mdat(p, src.data).payload);
    return Ok(());
  }

  /** The bytes written so far sit between what was there before and the media data. */
  lemma PatchSegment(before: bytes, p: Parts, tail: bytes, videoOffset: nat, audioOffset: nat)
    ensures var start := |before|;
            var image := before + Moof(p, 0, 0).Encode() + tail;
            && start + VideoPatchPos() + 4 <= |image| && start + AudioPatchPos(p) + 4 <= |image|
            && Patch(Patch(image, start + VideoPatchPos(), Be32(videoOffset)), start + AudioPatchPos(p),
                Be32(audioOffset))
               == before + Moof(p, videoOffset, audioOffset).Encode() + tail
  {
    hide Moof, Box, Patch, Be32;
    PatchMoof(p, videoOffset, audioOffset);
    PatchMoofVideo(p, videoOffset);
    PatchInside(before, Moof(p, 0, 0).Encode(), tail, VideoPatchPos(), Be32(videoOffset));
    PatchInside(before, Moof(p, videoOffset, 0).Encode(), tail, AudioPatchPos(p), Be32(audioOffset));
  }

  /** The headroom that keeps every position of a segment within 64 bits. */
  const ROOM := 0x100_0000_0000

  /** `styp` and `moof`, with both data offsets still zero; returns where `moof` and the offsets lie. */
  method WriteHeadBoxes(out: Sink, p: Parts) returns (r: Result<(nat, (nat, nat))>)
    requires out.AtEnd() && |out.Image()| + ROOM <= U64_MAX
    requires |p.video| <= U32_MAX && |p.audio| <= U32_MAX && p.k <= U32_MAX
    modifies out.Obj()
    ensures r.Ok? <==> Moof(p, 0, 0).Sized()
    ensures r.Ok? ==> r.value.0 == |old(out.Image())| + 24
    ensures r.Ok? ==> r.value.1 == (r.value.0 + VideoPatchPos(), r.value.0 + AudioPatchPos(p))
    ensures r.Ok? ==> out.AtEnd() && out.Image() == old(out.Image()) + Styp().Encode() + Moof(p, 0, 0).Encode()
    ensures r.Err? ==> r.error == Io
  {
    hide Moof, Box, Code, Be32, EncodeAll, OpenHeader;
    WriteStyp(out);
    var moofStart := out.Position();
    var positions :- WriteMoof(out, p);
    return Ok((moofStart, positions));
  }

  /** Compute both data offsets and patch them into the placeholders. */
  method PatchDataOffsets(out: Sink, ghost head: bytes, ghost tail: bytes, ghost p: Parts,
                          moofStart: nat, positions: (nat, nat), mdatPayloadStart: nat, videoBytes: nat)
    returns (r: Result<()>)
    requires out.AtEnd() && |out.Image()| <= U64_MAX
    requires out.Image() == head + Moof(p, 0, 0).Encode() + tail
    requires moofStart == |head| && positions == (|head| + VideoPatchPos(), |head| + AudioPatchPos(p))
    requires mdatPayloadStart == |head| + VideoDataOffset(p) && videoBytes == SumSizes(p.video)
    modifies out.Obj()
    ensures r.Ok? <==> AudioDataOffset(p) <= I32_MAX
    ensures r.Ok? ==> out.AtEnd()
    ensures r.Ok? ==> out.Image() == head + Moof(p, VideoDataOffset(p), AudioDataOffset(p)).Encode() + tail
    ensures r.Err? ==> r.error == Io
  {
    hide Moof, Patch, Be32, VideoDataOffset, SumSizes, Plain.Encode;
    var videoOffset :- ComputeDataOffset(mdatPayloadStart, moofStart, 0);
    var audioOffset :- ComputeDataOffset(mdatPayloadStart, moofStart, videoBytes);
    PatchSegment(head, p, tail, videoOffset, audioOffset);
    out.PatchAt(positions.0, Be32(videoOffset));
    out.PatchAt(positions.1, Be32(audioOffset));
    return Ok(());
  }

  /** The payload of `mdat` starts where the video data offset points. */
  lemma PayloadStart(before: bytes, p: Parts)
    ensures |before + Styp().Encode() + Moof(p, 0, 0).Encode()| + 8 == |before + Styp().Encode()| + VideoDataOffset(p)
  {
    hide Moof, Styp, Box;
  }

  lemma SegmentAppended(before: bytes, p: Parts, data: bytes)
    requires AllReadable(data, p.video) && AllReadable(data, p.audio)
    ensures before + Styp().Encode() + Moof(p, VideoDataOffset(p), AudioDataOffset(p)).Encode() + Mdat(p, data).Encode()
            == before + MediaSegment(p, data)
  {
    hide Moof, Mdat, Styp, Plain.Encode, EncodeAll, VideoDataOffset, AudioDataOffset;
    AppendThree(before, Styp(), Moof(p, VideoDataOffset(p), AudioDataOffset(p)), Mdat(p, data));
  }

  method AssembleSegment(src: Source, out: Sink, p: Parts) returns (r: Result<()>)
    requires out.AtEnd() && |out.Image()| + ROOM <= U64_MAX
    requires |p.video| <= U32_MAX && |p.audio| <= U32_MAX && p.k <= U32_MAX
    modifies out.Obj()
    ensures r.Ok? <==> PartsServable(p, src.data)
    ensures r.Ok? ==> out.AtEnd() && out.Image() == old(out.Image()) + MediaSegment(p, src.data)
    ensures r.Err? ==> r.error == Io
  {
    hide Moof, Mdat, Styp, Be32, EncodeAll, SumSizes, SampleBytes, VideoDataOffset, AudioDataOffset, AllReadable,
         MediaSegment, Plain.Encode;
    ghost var before := out.Image();
    var videoBytes := ComputeSize(p.video);
    var audioBytes := ComputeSize(p.audio);
    var head :- WriteHeadBoxes(out, p);
    PayloadStart(before, p);
    var mdatPayloadStart := out.Position() + 8;
    var total := (videoBytes as nat) + (audioBytes as nat) + 8;
    if total > U32_MAX {
      return Err(Io);
    }
    var _ :- WriteMdat(src, out, p, total);
    var _ :- PatchDataOffsets(out, before + Styp().Encode(), Mdat(p, src.data).Encode(), p,
                              head.0, head.1, mdatPayloadStart, videoBytes);
    SegmentAppended(before, p, src.data);
    return Ok(());
  }

  /** Look up a segment and the rows it covers. */
  method ResolveParts(index: IndexView, segmentIdx: u32) returns (r: Result<Parts>)
    requires segmentIdx < |index.segments|
    ensures r.Ok? <==> HasParts(index, segmentIdx)
    ensures r.Ok? ==> r.value == PartsOf(index, segmentIdx)
    ensures r.Ok? ==> |r.value.video| <= U32_MAX && |r.value.audio| <= U32_MAX && r.value.k == segmentIdx
    ensures r.Err? ==> r.error == SampleTableInconsistent
  {
    var segment := index.segments[segmentIdx];
    var video :- SliceSegmentSamples(index.videoSamples, segment.videoStart, segment.videoCount);
    var audio :- SliceSegmentSamples(index.audioSamples, segment.audioStart, segment.audioCount);
    if |video| == 0 || |audio| == 0 {
      return Err(SampleTableInconsistent);
    }
    var hasCtts := AnyCtts(index.videoSamples);
    return Ok(Parts(segmentIdx, segment.videoBaseDts, segment.audioBaseDts, video, audio, hasCtts));
  }

  /**
   Write segment `segmentIdx`. It succeeds exactly when the segment is servable, whatever the sink
   and however the source splits its reads, and then what it appends depends on nothing else.
   */
  method WriteMediaSegment(index: IndexView, segmentIdx: u32, src: Source, out: Sink) returns (r: Result<()>)
    requires out.AtEnd() && |out.Image()| + ROOM <= U64_MAX
    modifies out.Obj()
    ensures r.Ok? <==> Servable(index, segmentIdx, src.data)
    ensures r.Ok? ==> out.AtEnd()
    ensures r.Ok? ==> out.Image() == old(out.Image()) + MediaSegment(PartsOf(index, segmentIdx), src.data)
    ensures segmentIdx >= |index.segments| ==>
              r == Err(SegmentIndexOutOfRange(segmentIdx, |index.segments|)) && out.Image() == old(out.Image())
  {
    if segmentIdx >= |index.segments| {
      return Err(SegmentIndexOutOfRange(segmentIdx, |index.segments|));
    }
    var parts :- ResolveParts(index, segmentIdx);
    r := AssembleSegment(src, out, parts);
  }
}
