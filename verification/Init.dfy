/**
 The CMAF init segment: `ftyp`, then `moov` with one `trak` per track (chapter 8 of ISO/IEC 14496-12).
 Sample entries and edit lists pass through as they were found.
 */
module Init {
  import opened Boxes
  import opened Bytes
  import opened Format

  const MOVIE_TIMESCALE := 1000
  const VIDEO_TRACK_ID := 1
  const AUDIO_TRACK_ID := 2
  const NEXT_TRACK_ID := 3
  const VIDEO_DEFAULT_SAMPLE_FLAGS := 0x0101_0000
  const AUDIO_DEFAULT_SAMPLE_FLAGS := 0x0200_0000
  const TKHD_FLAGS_ENABLED := 7
  const LANGUAGE_UND := 0x55C4

  function Be16(n: nat): (b: bytes)
    ensures |b| == 2
  {
    Be(2, n)
  }

  /** Numbers as 32-bit words, one after another. */
  function Words(ns: seq<nat>): (b: bytes)
    ensures |b| == 4 * |ns|
  {
    if |ns| == 0 then [] else Words(ns[..|ns| - 1]) + Be32(ns[|ns| - 1])
  }

  const IDENTITY_MATRIX: seq<nat> := [0x1_0000, 0, 0, 0, 0x1_0000, 0, 0, 0, 0x4000_0000]

  /** Fixed-point 16.16; too large a number saturates. */
  function Fixed1616(value: u32): (f: u32)
    ensures value <= 0xFFFF ==> f / 0x1_0000 == value
    ensures value > 0xFFFF ==> f == U32_MAX
  {
    if value * 0x1_0000 > U32_MAX then U32_MAX else value * 0x1_0000
  }

  function FtypPayload(): (b: bytes)
    ensures |b| == 16
  {
    Code("cmfc") + Be32(0) + Code("iso6") + Code("cmfc")
  }

  function Ftyp(): (b: Plain)
    ensures b.Size() == 24
  {
    Plain(Code("ftyp"), FtypPayload())
  }

  /** Version 1: creation time, modification time, timescale, duration. */
  function MvhdTimes(): (b: bytes)
    ensures |b| == 32
  {
    FullHeader(1, 0) + Be64(0) + Be64(0) + Be32(MOVIE_TIMESCALE) + Be64(0)
  }

  function MvhdPayload(): (b: bytes)
    ensures |b| == 112
  {
    MvhdTimes() + Be32(0x1_0000) + Be16(0x0100) + Be16(0)
    + Be32(0) + Be32(0) + Words(IDENTITY_MATRIX) + Words([0, 0, 0, 0, 0, 0]) + Be32(NEXT_TRACK_ID)
  }

  function Mvhd(): (b: Plain)
    ensures b.Size() == 120
  {
    Plain(Code("mvhd"), MvhdPayload())
  }

  /** Version 1: creation time, modification time, track, duration. */
  function TkhdTimes(trackId: nat): (b: bytes)
    ensures |b| == 36
  {
    FullHeader(1, TKHD_FLAGS_ENABLED) + Be64(0) + Be64(0) + Be32(trackId) + Be32(0) + Be64(0)
  }

  function TkhdPayload(trackId: nat, isAudio: bool, width: u32, height: u32): (b: bytes)
    ensures |b| == 96
  {
    TkhdTimes(trackId) + Be32(0) + Be32(0)
    + Be16(0) + Be16(0) + Be16(if isAudio then 0x0100 else 0) + Be16(0) + Words(IDENTITY_MATRIX)
    + Be32(Fixed1616(width)) + Be32(Fixed1616(height))
  }

  function Tkhd(trackId: nat, isAudio: bool, width: u32, height: u32): (b: Plain)
    ensures b.Size() == 104
  {
    Plain(Code("tkhd"), TkhdPayload(trackId, isAudio, width, height))
  }

  function MdhdPayload(timescale: u32): (b: bytes)
    ensures |b| == 36
  {
    FullHeader(1, 0) + Be64(0) + Be64(0) + Be32(timescale) + Be64(0) + Be16(LANGUAGE_UND) + Be16(0)
  }

  function Mdhd(timescale: u32): (b: Plain)
    ensures b.Size() == 44
  {
    Plain(Code("mdhd"), MdhdPayload(timescale))
  }

  function HdlrPayload(handler: FourCC, name: bytes): (b: bytes)
    ensures |b| == 25 + |name|
  {
    FullHeader(0, 0) + Be32(0) + handler + Be32(0) + Be32(0) + Be32(0) + name + [0]
  }

  function Hdlr(handler: FourCC, name: bytes): (b: Plain)
    ensures b.Size() == 33 + |name|
  {
    Plain(Code("hdlr"), HdlrPayload(handler, name))
  }

  function Vmhd(): (b: Plain)
    ensures b.Size() == 20
  {
    Plain(Code("vmhd"), FullHeader(0, 1) + Be16(0) + Be16(0) + Be16(0) + Be16(0))
  }

  function Smhd(): (b: Plain)
    ensures b.Size() == 16
  {
    Plain(Code("smhd"), FullHeader(0, 0) + Be16(0) + Be16(0))
  }

  function Url(): (b: Plain)
    ensures b.Size() == 12
  {
    Plain(Code("url "), FullHeader(0, 1))
  }

  function Dref(): (b: Plain)
    ensures b.Size() == 28
  {
    Plain(Code("dref"), FullHeader(0, 0) + Be32(1) + Url().Encode())
  }

  function Dinf(): (b: Plain)
    ensures b.Size() == 36
  {
    Plain(Code("dinf"), Dref().Encode())
  }

  function Stsd(sampleEntry: bytes): (b: Plain)
    ensures b.Size() == 16 + |sampleEntry|
  {
    Plain(Code("stsd"), FullHeader(0, 0) + Be32(1) + sampleEntry)
  }

  function EmptyTable(fourcc: FourCC): (b: Plain)
    ensures b.Size() == 16
  {
    Plain(fourcc, FullHeader(0, 0) + Be32(0))
  }

  function EmptyStsz(): (b: Plain)
    ensures b.Size() == 20
  {
    Plain(Code("stsz"), FullHeader(0, 0) + Be32(0) + Be32(0))
  }

  function StblBoxes(sampleEntry: bytes): (bs: seq<Plain>)
    ensures |bs| == 5
  {
    [Stsd(sampleEntry), EmptyTable(Code("stts")), EmptyTable(Code("stsc")), EmptyStsz(), EmptyTable(Code("stco"))]
  }

  function Stbl(sampleEntry: bytes): Plain {
    Plain(Code("stbl"), EncodeAll(StblBoxes(sampleEntry)))
  }

  /** One of the two tracks of an init segment. */
  datatype Track = Video(v: VideoTrackMeta) | Audio(a: AudioTrackMeta) {
    function Id(): nat {
      if Video? then VIDEO_TRACK_ID else AUDIO_TRACK_ID
    }

    function Width(): u32 {
      if Video? then v.width else 0
    }

    function Height(): u32 {
      if Video? then v.height else 0
    }

    function Timescale(): u32 {
      if Video? then v.timescale else a.timescale
    }

    function Handler(): FourCC {
      if Video? then Code("vide") else Code("soun")
    }

    function Name(): (b: bytes)
      ensures |b| == 12
    {
      if Video? then Ascii("VideoHandler") else Ascii("SoundHandler")
    }

    function MediaHeader(): (b: Plain)
      ensures b.Size() <= 20
    {
      if Video? then Vmhd() else Smhd()
    }

    function SampleEntry(): bytes {
      if Video? then v.sampleEntry else a.sampleEntry
    }

    function Elst(): bytes {
      if Video? then v.elst else a.elst
    }
  }

  function MinfBoxes(t: Track): (bs: seq<Plain>)
    ensures |bs| == 3
  {
    [t.MediaHeader(), Dinf(), Stbl(t.SampleEntry())]
  }

  function Minf(t: Track): Plain {
    Plain(Code("minf"), EncodeAll(MinfBoxes(t)))
  }

  function MdiaBoxes(t: Track): (bs: seq<Plain>)
    ensures |bs| == 3
  {
    [Mdhd(t.Timescale()), Hdlr(t.Handler(), t.Name()), Minf(t)]
  }

  function Mdia(t: Track): Plain {
    Plain(Code("mdia"), EncodeAll(MdiaBoxes(t)))
  }

  function TrackTkhd(t: Track): (b: Plain)
    ensures b.Size() == 104
  {
    Tkhd(t.Id(), t.Audio?, t.Width(), t.Height())
  }

  /** The edit list, when there is one, stands between the track header and the media. */
  function Trak(t: Track): Plain {
    Plain(Code("trak"), TrackTkhd(t).Encode() + t.Elst() + Mdia(t).Encode())
  }

  function Trex(trackId: nat, flags: nat): (b: Plain)
    ensures b.Size() == 32
  {
    Plain(Code("trex"), FullHeader(0, 0) + Be32(trackId) + Be32(1) + Be32(0) + Be32(0) + Be32(flags))
  }

  function MvexBoxes(): (bs: seq<Plain>)
    ensures |bs| == 2
  {
    [Trex(VIDEO_TRACK_ID, VIDEO_DEFAULT_SAMPLE_FLAGS), Trex(AUDIO_TRACK_ID, AUDIO_DEFAULT_SAMPLE_FLAGS)]
  }

  function Mvex(): Plain {
    Plain(Code("mvex"), EncodeAll(MvexBoxes()))
  }

  function MoovBoxes(video: VideoTrackMeta, audio: AudioTrackMeta): (bs: seq<Plain>)
    ensures |bs| == 4
  {
    [Mvhd(), Trak(Video(video)), Trak(Audio(audio)), Mvex()]
  }

  function Moov(video: VideoTrackMeta, audio: AudioTrackMeta): Plain {
    Plain(Code("moov"), EncodeAll(MoovBoxes(video, audio)))
  }

  function InitBoxes(video: VideoTrackMeta, audio: AudioTrackMeta): (bs: seq<Plain>)
    ensures |bs| == 2
  {
    [Ftyp(), Moov(video, audio)]
  }

  /** The whole init segment. */
  function InitSegment(video: VideoTrackMeta, audio: AudioTrackMeta): bytes {
    EncodeAll(InitBoxes(video, audio))
  }

  // ---------- Sizes ----------

  function SizeOfAll(bs: seq<Plain>): nat {
    if |bs| == 0 then 0 else bs[0].Size() + SizeOfAll(bs[1..])
  }

  lemma {:induction false} EncodeAllSize(bs: seq<Plain>)
    ensures |EncodeAll(bs)| == SizeOfAll(bs)
  {
    if |bs| > 0 {
      EncodeAllSize(bs[1..]);
    }
  }

  lemma TrakSize(t: Track)
    ensures Stbl(t.SampleEntry()).Size() == 92 + |t.SampleEntry()|
    ensures Minf(t).Size() == 44 + t.MediaHeader().Size() + Stbl(t.SampleEntry()).Size()
    ensures Mdia(t).Size() == 97 + Minf(t).Size()
    ensures Trak(t).Size() == 112 + |t.Elst()| + Mdia(t).Size()
  {
    EncodeAllSize(StblBoxes(t.SampleEntry()));
    EncodeAllSize(MinfBoxes(t));
    EncodeAllSize(MdiaBoxes(t));
    FiveSizes(StblBoxes(t.SampleEntry()));
    ThreeSizes(MinfBoxes(t));
    ThreeSizes(MdiaBoxes(t));
  }

  lemma {:induction false} TwoSizes(bs: seq<Plain>)
    requires |bs| == 2
    ensures SizeOfAll(bs) == bs[0].Size() + bs[1].Size()
  {
    assert bs[1..] == [bs[1]];
    assert SizeOfAll([bs[1]]) == bs[1].Size();
  }

  lemma {:induction false} ThreeSizes(bs: seq<Plain>)
    requires |bs| == 3
    ensures SizeOfAll(bs) == bs[0].Size() + bs[1].Size() + bs[2].Size()
  {
    TwoSizes(bs[1..]);
  }

  lemma {:induction false} FiveSizes(bs: seq<Plain>)
    requires |bs| == 5
    ensures SizeOfAll(bs) == bs[0].Size() + bs[1].Size() + bs[2].Size() + bs[3].Size() + bs[4].Size()
  {
    ThreeSizes(bs[2..]);
    assert bs[1..][1..] == bs[2..];
  }

  lemma MoovSize(video: VideoTrackMeta, audio: AudioTrackMeta)
    ensures Mvex().Size() == 72
    ensures Moov(video, audio).Size() == 200 + Trak(Video(video)).Size() + Trak(Audio(audio)).Size()
  {
    var bs := MoovBoxes(video, audio);
    EncodeAllSize(MvexBoxes());
    TwoSizes(MvexBoxes());
    EncodeAllSize(bs);
    ThreeSizes(bs[1..]);
  }
}
