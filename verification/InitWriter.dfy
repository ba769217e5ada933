/** Writing the init segment over a seekable sink. */
module InitWriter {
  import opened Boxes
  import opened BoxWriters
  import opened Bytes
  import opened Format
  import opened Init
  import opened Sinks
  import opened Wrappers

  method WriteWords(out: Sink, ns: seq<nat>, ghost base: bytes, ghost p: bytes) returns (ghost q: bytes)
    requires out.AtEnd() && out.Image() == base + p && |out.Image()| + 4 * |ns| <= U64_MAX
    modifies out.Obj()
    ensures q == p + Words(ns) && out.AtEnd() && out.Image() == base + q
  {
    hide Be32;
    q := p;
    for i := 0 to |ns|
      invariant q == p + Words(ns[..i]) && out.AtEnd() && out.Image() == base + q
    {
      assert ns[..i + 1][..i] == ns[..i];
      Assoc(p, Words(ns[..i]), Be32(ns[i]));
      q := out.Append(Be32(ns[i]), base, q);
    }
    assert ns[..|ns|] == ns;
  }

  method WriteFtyp(out: Sink)
    requires out.AtEnd() && |out.Image()| + 24 <= U64_MAX
    modifies out.Obj()
    ensures out.AtEnd() && out.Image() == old(out.Image()) + Ftyp().Encode()
  {
    hide Be32, Be64, Be16, Words, Code, Box, OpenHeader, TkhdTimes, MvhdTimes;
    ghost var before := out.Image();
    var bx := BoxWriter.Open(out, Code("ftyp"));
    ghost var base, p := out.Image(), Code("cmfc");
    out.Write(Code("cmfc"));
    p := out.Append(Be32(0), base, p);
    p := out.Append(Code("iso6"), base, p);
    p := out.Append(Code("cmfc"), base, p);
    var r := bx.Finish(None, before, Ftyp().payload);
  }

  method WriteMvhdTimes(out: Sink)
    requires out.AtEnd() && |out.Image()| + 32 <= U64_MAX
    modifies out.Obj()
    ensures out.AtEnd() && out.Image() == old(out.Image()) + MvhdTimes()
  {
    hide Be32, Be64;
    ghost var base, p := out.Image(), FullHeader(1, 0);
    out.Write(FullHeader(1, 0));
    p := out.Append(Be64(0), base, p);
    p := out.Append(Be64(0), base, p);
    p := out.Append(Be32(MOVIE_TIMESCALE), base, p);
    p := out.Append(Be64(0), base, p);
  }

  /** Rate and volume, and the reserved fields behind them. */
  method WriteMvhdRate(out: Sink, ghost base: bytes, ghost p: bytes) returns (ghost q: bytes)
    requires out.AtEnd() && out.Image() == base + p && |out.Image()| + 16 <= U64_MAX
    modifies out.Obj()
    ensures q == p + Be32(0x1_0000) + Be16(0x0100) + Be16(0) + Be32(0) + Be32(0)
    ensures out.AtEnd() && out.Image() == base + q
  {
    hide Be32, Be16;
    q := out.Append(Be32(0x1_0000), base, p);
    q := out.Append(Be16(0x0100), base, q);
    q := out.Append(Be16(0), base, q);
    q := out.Append(Be32(0), base, q);
    q := out.Append(Be32(0), base, q);
  }

  method WriteMvhd(out: Sink)
    requires out.AtEnd() && |out.Image()| + 120 <= U64_MAX
    modifies out.Obj()
    ensures out.AtEnd() && out.Image() == old(out.Image()) + Mvhd().Encode()
  {
    hide Be32, Be64, Be16, Words, Code, Box, OpenHeader, TkhdTimes, MvhdTimes;
    ghost var before := out.Image();
    var bx := BoxWriter.Open(out, Code("mvhd"));
    ghost var base, p := out.Image(), MvhdTimes();
    WriteMvhdTimes(out);
    p := WriteMvhdRate(out, base, p);
    p := WriteWords(out, IDENTITY_MATRIX, base, p);
    p := WriteWords(out, [0, 0, 0, 0, 0, 0], base, p);
    p := out.Append(Be32(NEXT_TRACK_ID), base, p);
    var r := bx.Finish(None, before, Mvhd().payload);
  }

  method WriteTkhdTimes(out: Sink, trackId: nat)
    requires out.AtEnd() && |out.Image()| + 36 <= U64_MAX
    modifies out.Obj()
    ensures out.AtEnd() && out.Image() == old(out.Image()) + TkhdTimes(trackId)
  {
    hide Be32, Be64;
    ghost var base, p := out.Image(), FullHeader(1, TKHD_FLAGS_ENABLED);
    out.Write(FullHeader(1, TKHD_FLAGS_ENABLED));
    p := out.Append(Be64(0), base, p);
    p := out.Append(Be64(0), base, p);
    p := out.Append(Be32(trackId), base, p);
    p := out.Append(Be32(0), base, p);
    p := out.Append(Be64(0), base, p);
  }

  /** Layer, alternate group and volume, between reserved fields. */
  method WriteTkhdFlags(out: Sink, isAudio: bool, ghost base: bytes, ghost p: bytes) returns (ghost q: bytes)
    requires out.AtEnd() && out.Image() == base + p && |out.Image()| + 16 <= U64_MAX
    modifies out.Obj()
    ensures q == p + Be32(0) + Be32(0) + Be16(0) + Be16(0) + Be16(if isAudio then 0x0100 else 0) + Be16(0)
    ensures out.AtEnd() && out.Image() == base + q
  {
    hide Be32, Be16;
    q := out.Append(Be32(0), base, p);
    q := out.Append(Be32(0), base, q);
    q := out.Append(Be16(0), base, q);
    q := out.Append(Be16(0), base, q);
    q := out.Append(Be16(if isAudio then 0x0100 else 0), base, q);
    q := out.Append(Be16(0), base, q);
  }

  method WriteTkhd(out: Sink, trackId: nat, isAudio: bool, width: u32, height: u32)
    requires out.AtEnd() && |out.Image()| + 104 <= U64_MAX
    modifies out.Obj()
    ensures out.AtEnd() && out.Image() == old(out.Image()) + Tkhd(trackId, isAudio, width, height).Encode()
  {
    hide Be32, Be64, Be16, Words, Code, Box, OpenHeader, TkhdTimes, MvhdTimes;
    ghost var before := out.Image();
    var bx := BoxWriter.Open(out, Code("tkhd"));
    ghost var base, p := out.Image(), TkhdTimes(trackId);
    WriteTkhdTimes(out, trackId);
    p := WriteTkhdFlags(out, isAudio, base, p);
    p := WriteWords(out, IDENTITY_MATRIX, base, p);
    p := out.Append(Be32(Fixed1616(width)), base, p);
    p := out.Append(Be32(Fixed1616(height)), base, p);
    var r := bx.Finish(None, before, Tkhd(trackId, isAudio, width, height).payload);
  }

  method WriteMdhd(out: Sink, timescale: u32)
    requires out.AtEnd() && |out.Image()| + 44 <= U64_MAX
    modifies out.Obj()
    ensures out.AtEnd() && out.Image() == old(out.Image()) + Mdhd(timescale).Encode()
  {
    hide Be32, Be64, Be16, Words, Code, Box, OpenHeader, TkhdTimes, MvhdTimes;
    ghost var before := out.Image();
    var bx := BoxWriter.Open(out, Code("mdhd"));
    ghost var base, p := out.Image(), FullHeader(1, 0);
    out.Write(FullHeader(1, 0));
    p := out.Append(Be64(0), base, p);
    p := out.Append(Be64(0), base, p);
    p := out.Append(Be32(timescale), base, p);
    p := out.Append(Be64(0), base, p);
    p := out.Append(Be16(LANGUAGE_UND), base, p);
    p := out.Append(Be16(0), base, p);
    var r := bx.Finish(None, before, Mdhd(timescale).payload);
  }

  method WriteHdlr(out: Sink, handler: FourCC, name: bytes)
    requires out.AtEnd() && |out.Image()| + 33 + |name| <= U64_MAX
    requires |name| <= 0xFFFF
    modifies out.Obj()
    ensures out.AtEnd() && out.Image() == old(out.Image()) + Hdlr(handler, name).Encode()
  {
    hide Be32, Be64, Be16, Words, Code, Box, OpenHeader, TkhdTimes, MvhdTimes;
    ghost var before := out.Image();
    var bx := BoxWriter.Open(out, Code("hdlr"));
    ghost var base, p := out.Image(), FullHeader(0, 0);
    out.Write(FullHeader(0, 0));
    p := out.Append(Be32(0), base, p);
    p := out.Append(handler, base, p);
    p := out.Append(Be32(0), base, p);
    p := out.Append(Be32(0), base, p);
    p := out.Append(Be32(0), base, p);
    p := out.Append(name, base, p);
    p := out.Append([0], base, p);
    var r := bx.Finish(None, before, Hdlr(handler, name).payload);
  }

  method WriteVmhd(out: Sink)
    requires out.AtEnd() && |out.Image()| + 20 <= U64_MAX
    modifies out.Obj()
    ensures out.AtEnd() && out.Image() == old(out.Image()) + Vmhd().Encode()
  {
    hide Be32, Be64, Be16, Words, Code, Box, OpenHeader, TkhdTimes, MvhdTimes;
    ghost var before := out.Image();
    var bx := BoxWriter.Open(out, Code("vmhd"));
    ghost var base, p := out.Image(), FullHeader(0, 1);
    out.Write(FullHeader(0, 1));
    p := out.Append(Be16(0), base, p);
    p := out.Append(Be16(0), base, p);
    p := out.Append(Be16(0), base, p);
    p := out.Append(Be16(0), base, p);
    var r := bx.Finish(None, before, Vmhd().payload);
  }

  method WriteSmhd(out: Sink)
    requires out.AtEnd() && |out.Image()| + 16 <= U64_MAX
    modifies out.Obj()
    ensures out.AtEnd() && out.Image() == old(out.Image()) + Smhd().Encode()
  {
    hide Be32, Be64, Be16, Words, Code, Box, OpenHeader, TkhdTimes, MvhdTimes;
    ghost var before := out.Image();
    var bx := BoxWriter.Open(out, Code("smhd"));
    ghost var base, p := out.Image(), FullHeader(0, 0);
    out.Write(FullHeader(0, 0));
    p := out.Append(Be16(0), base, p);
    p := out.Append(Be16(0), base, p);
    var r := bx.Finish(None, before, Smhd().payload);
  }

  method WriteUrl(out: Sink)
    requires out.AtEnd() && |out.Image()| + 12 <= U64_MAX
    modifies out.Obj()
    ensures out.AtEnd() && out.Image() == old(out.Image()) + Url().Encode()
  {
    hide Be32, Be64, Be16, Words, Code, Box, OpenHeader, TkhdTimes, MvhdTimes;
    ghost var before := out.Image();
    var bx := BoxWriter.Open(out, Code("url "));
    ghost var base, p := out.Image(), FullHeader(0, 1);
    out.Write(FullHeader(0, 1));
    var r := bx.Finish(None, before, Url().payload);
  }

  /** A table box with no entries. */
  method WriteEmptyTable(out: Sink, fourcc: FourCC)
    requires out.AtEnd() && |out.Image()| + 16 <= U64_MAX
    modifies out.Obj()
    ensures out.AtEnd() && out.Image() == old(out.Image()) + EmptyTable(fourcc).Encode()
  {
    hide Be32, Be64, Be16, Words, Code, Box, OpenHeader, TkhdTimes, MvhdTimes;
    ghost var before := out.Image();
    var bx := BoxWriter.Open(out, fourcc);
    ghost var base, p := out.Image(), FullHeader(0, 0);
    out.Write(FullHeader(0, 0));
    p := out.Append(Be32(0), base, p);
    var r := bx.Finish(None, before, EmptyTable(fourcc).payload);
  }

  method WriteEmptyStsz(out: Sink)
    requires out.AtEnd() && |out.Image()| + 20 <= U64_MAX
    modifies out.Obj()
    ensures out.AtEnd() && out.Image() == old(out.Image()) + EmptyStsz().Encode()
  {
    hide Be32, Be64, Be16, Words, Code, Box, OpenHeader, TkhdTimes, MvhdTimes;
    ghost var before := out.Image();
    var bx := BoxWriter.Open(out, Code("stsz"));
    ghost var base, p := out.Image(), FullHeader(0, 0);
    out.Write(FullHeader(0, 0));
    p := out.Append(Be32(0), base, p);
    p := out.Append(Be32(0), base, p);
    var r := bx.Finish(None, before, EmptyStsz().payload);
  }

  method WriteTrex(out: Sink, trackId: nat, flags: nat)
    requires out.AtEnd() && |out.Image()| + 32 <= U64_MAX
    modifies out.Obj()
    ensures out.AtEnd() && out.Image() == old(out.Image()) + Trex(trackId, flags).Encode()
  {
    hide Be32, Be64, Be16, Words, Code, Box, OpenHeader, TkhdTimes, MvhdTimes;
    ghost var before := out.Image();
    var bx := BoxWriter.Open(out, Code("trex"));
    ghost var base, p := out.Image(), FullHeader(0, 0);
    out.Write(FullHeader(0, 0));
    p := out.Append(Be32(trackId), base, p);
    p := out.Append(Be32(1), base, p);
    p := out.Append(Be32(0), base, p);
    p := out.Append(Be32(0), base, p);
    p := out.Append(Be32(flags), base, p);
    var r := bx.Finish(None, before, Trex(trackId, flags).payload);
  }

  method WriteDref(out: Sink)
    requires out.AtEnd() && |out.Image()| + 28 <= U64_MAX
    modifies out.Obj()
    ensures out.AtEnd() && out.Image() == old(out.Image()) + Dref().Encode()
  {
    hide Be32, Code, Box, OpenHeader, Url;
    ghost var before := out.Image();
    var bx := BoxWriter.Open(out, Code("dref"));
    ghost var base := out.Image();
    out.Write(FullHeader(0, 0));
    out.Put(Be32(1), base, FullHeader(0, 0));
    ghost var head := FullHeader(0, 0) + Be32(1);
    WriteUrl(out);
    Assoc(base, head, Url().Encode());
    var r := bx.Finish(None, before, Dref().payload);
  }

  method WriteDinf(out: Sink)
    requires out.AtEnd() && |out.Image()| + 36 <= U64_MAX
    modifies out.Obj()
    ensures out.AtEnd() && out.Image() == old(out.Image()) + Dinf().Encode()
  {
    hide Code, Box, OpenHeader, Dref;
    ghost var before := out.Image();
    var bx := BoxWriter.Open(out, Code("dinf"));
    WriteDref(out);
    var r := bx.Finish(None, before, Dinf().payload);
  }

  // ---------- Boxes that grow with the blobs ----------

  method WriteStsd(out: Sink, sampleEntry: bytes) returns (r: Result<()>)
    requires out.AtEnd() && |out.Image()| + 16 + |sampleEntry| <= U64_MAX
    modifies out.Obj()
    ensures r.Ok? <==> Stsd(sampleEntry).Sized()
    ensures r.Ok? ==> out.AtEnd() && out.Image() == old(out.Image()) + Stsd(sampleEntry).Encode()
    ensures r.Err? ==> r.error == Io
  {
    hide Be32, Code, Box, OpenHeader;
    ghost var before := out.Image();
    var bx := BoxWriter.Open(out, Code("stsd"));
    ghost var base, p := out.Image(), FullHeader(0, 0);
    out.Write(FullHeader(0, 0));
    p := out.Append(Be32(1), base, p);
    p := out.Append(sampleEntry, base, p);
    var _ :- bx.Finish(None, before, Stsd(sampleEntry).payload);
    return Ok(());
  }

  method WriteStbl(out: Sink, sampleEntry: bytes) returns (r: Result<()>)
    requires out.AtEnd() && |out.Image()| + 92 + |sampleEntry| <= U64_MAX
    modifies out.Obj()
    ensures r.Ok? <==> 92 + |sampleEntry| <= U32_MAX
    ensures r.Ok? ==> out.AtEnd() && out.Image() == old(out.Image()) + Stbl(sampleEntry).Encode()
    ensures r.Err? ==> r.error == Io
  {
    hide Code, Box, OpenHeader, Stsd, EmptyTable, EmptyStsz, EncodeAll;
    ghost var before, bs := out.Image(), StblBoxes(sampleEntry);
    EncodeAllSize(bs);
    FiveSizes(bs);
    var bx := BoxWriter.Open(out, Code("stbl"));
    ghost var base := out.Image();
    var _ :- WriteStsd(out, sampleEntry);
    WriteEmptyTable(out, Code("stts"));
    WriteEmptyTable(out, Code("stsc"));
    WriteEmptyStsz(out);
    WriteEmptyTable(out, Code("stco"));
    AppendFive(base, Stsd(sampleEntry), EmptyTable(Code("stts")), EmptyTable(Code("stsc")), EmptyStsz(),
        EmptyTable(Code("stco")));
    var _ :- bx.Finish(None, before, EncodeAll(bs));
    return Ok(());
  }

  method WriteMediaHeader(out: Sink, t: Track)
    requires out.AtEnd() && |out.Image()| + 20 <= U64_MAX
    modifies out.Obj()
    ensures out.AtEnd() && out.Image() == old(out.Image()) + t.MediaHeader().Encode()
  {
    hide Vmhd, Smhd;
    match t {
      case Video(_) => WriteVmhd(out);
      case Audio(_) => WriteSmhd(out);
    }
  }

  method WriteMinf(out: Sink, t: Track) returns (r: Result<()>)
    requires out.AtEnd() && |out.Image()| + Minf(t).Size() <= U64_MAX
    modifies out.Obj()
    ensures r.Ok? <==> Minf(t).Sized()
    ensures r.Ok? ==> out.AtEnd() && out.Image() == old(out.Image()) + Minf(t).Encode()
    ensures r.Err? ==> r.error == Io
  {
    TrakSize(t);
    hide Code, Box, OpenHeader, Dinf, Stbl, EncodeAll, Track.MediaHeader, Track.SampleEntry;
    ghost var before, bs := out.Image(), MinfBoxes(t);
    var bx := BoxWriter.Open(out, Code("minf"));
    ghost var base := out.Image();
    WriteMediaHeader(out, t);
    WriteDinf(out);
    var _ :- WriteStbl(out, t.SampleEntry());
    AppendThree(base, t.MediaHeader(), Dinf(), Stbl(t.SampleEntry()));
    var _ :- bx.Finish(None, before, EncodeAll(bs));
    return Ok(());
  }

  method WriteMdia(out: Sink, t: Track) returns (r: Result<()>)
    requires out.AtEnd() && |out.Image()| + Mdia(t).Size() <= U64_MAX
    modifies out.Obj()
    ensures r.Ok? <==> Mdia(t).Sized()
    ensures r.Ok? ==> out.AtEnd() && out.Image() == old(out.Image()) + Mdia(t).Encode()
    ensures r.Err? ==> r.error == Io
  {
    TrakSize(t);
    hide Code, Box, OpenHeader, Mdhd, Hdlr, Minf, EncodeAll, Track.Name, Track.Handler, Track.Timescale;
    ghost var before, bs := out.Image(), MdiaBoxes(t);
    var bx := BoxWriter.Open(out, Code("mdia"));
    ghost var base := out.Image();
    WriteMdhd(out, t.Timescale());
    WriteHdlr(out, t.Handler(), t.Name());
    var _ :- WriteMinf(out, t);
    AppendThree(base, Mdhd(t.Timescale()), Hdlr(t.Handler(), t.Name()), Minf(t));
    var _ :- bx.Finish(None, before, EncodeAll(bs));
    return Ok(());
  }

  /** The edit list goes out byte for byte. */
  method WriteTrak(out: Sink, t: Track) returns (r: Result<()>)
    requires out.AtEnd() && |out.Image()| + Trak(t).Size() <= U64_MAX
    modifies out.Obj()
    ensures r.Ok? <==> Trak(t).Sized()
    ensures r.Ok? ==> out.AtEnd() && out.Image() == old(out.Image()) + Trak(t).Encode()
    ensures r.Err? ==> r.error == Io
  {
    TrakSize(t);
    hide Code, Box, OpenHeader, Tkhd, Mdia;
    ghost var before := out.Image();
    var bx := BoxWriter.Open(out, Code("trak"));
    ghost var base, p := out.Image(), TrackTkhd(t).Encode();
    WriteTkhd(out, t.Id(), t.Audio?, t.Width(), t.Height());
    assert p + t.Elst() == if |t.Elst()| == 0 then p else p + t.Elst();
    if |t.Elst()| != 0 {
      out.Put(t.Elst(), base, p);
    }
    var _ :- WriteMdia(out, t);
    Assoc(base, p + t.Elst(), Mdia(t).Encode());
    var _ :- bx.Finish(None, before, Trak(t).payload);
    return Ok(());
  }

  method WriteMvex(out: Sink)
    requires out.AtEnd() && |out.Image()| + 72 <= U64_MAX
    modifies out.Obj()
    ensures out.AtEnd() && out.Image() == old(out.Image()) + Mvex().Encode()
  {
    hide Code, Box, OpenHeader, Trex, EncodeAll;
    ghost var before, bs := out.Image(), MvexBoxes();
    EncodeAllSize(bs);
    TwoSizes(bs);
    var bx := BoxWriter.Open(out, Code("mvex"));
    ghost var base := out.Image();
    WriteTrex(out, VIDEO_TRACK_ID, VIDEO_DEFAULT_SAMPLE_FLAGS);
    WriteTrex(out, AUDIO_TRACK_ID, AUDIO_DEFAULT_SAMPLE_FLAGS);
    AppendTwo(base, Trex(VIDEO_TRACK_ID, VIDEO_DEFAULT_SAMPLE_FLAGS), Trex(AUDIO_TRACK_ID, AUDIO_DEFAULT_SAMPLE_FLAGS));
    var r := bx.Finish(None, before, EncodeAll(bs));
  }

  method WriteMoov(out: Sink, video: VideoTrackMeta, audio: AudioTrackMeta) returns (r: Result<()>)
    requires out.AtEnd() && |out.Image()| + Moov(video, audio).Size() <= U64_MAX
    modifies out.Obj()
    ensures r.Ok? <==> Moov(video, audio).Sized()
    ensures r.Ok? ==> out.AtEnd() && out.Image() == old(out.Image()) + Moov(video, audio).Encode()
    ensures r.Err? ==> r.error == Io
  {
    MoovSize(video, audio);
    hide Code, Box, OpenHeader, Mvhd, Trak, Mvex, EncodeAll;
    ghost var before, bs := out.Image(), MoovBoxes(video, audio);
    var bx := BoxWriter.Open(out, Code("moov"));
    ghost var base := out.Image();
    WriteMvhd(out);
    var _ :- WriteTrak(out, Video(video));
    var _ :- WriteTrak(out, Audio(audio));
    WriteMvex(out);
    AppendFour(base, Mvhd(), Trak(Video(video)), Trak(Audio(audio)), Mvex());
    var _ :- bx.Finish(None, before, EncodeAll(bs));
    return Ok(());
  }

  /** Fails exactly when the blobs do not fit a 32-bit `moov`. */
  method WriteInitSegment(out: Sink, video: VideoTrackMeta, audio: AudioTrackMeta) returns (r: Result<()>)
    requires out.AtEnd() && |out.Image()| + |InitSegment(video, audio)| <= U64_MAX
    modifies out.Obj()
    ensures r.Ok? <==> Moov(video, audio).Sized()
    ensures r.Ok? ==> out.AtEnd() && out.Image() == old(out.Image()) + InitSegment(video, audio)
    ensures r.Err? ==> r.error == Io
  {
    hide Moov, EncodeAll, Ftyp;
    ghost var base, bs := out.Image(), InitBoxes(video, audio);
    EncodeAllSize(bs);
    TwoSizes(bs);
    WriteFtyp(out);
    var _ :- WriteMoov(out, video, audio);
    AppendTwo(base, Ftyp(), Moov(video, audio));
    return Ok(());
  }
}
