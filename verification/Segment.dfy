/**
 The byte form of a CMAF media segment: `styp`, then `moof` with one `traf` per track, then `mdat`
 (sections 8.8.4 to 8.8.12 of ISO/IEC 14496-12).
 */
module Segment {
  import opened Boxes
  import opened Bytes
  import opened Format
  import opened Sources

  const VIDEO_TRACK_ID := 1
  const AUDIO_TRACK_ID := 2
  const TFHD_DEFAULT_BASE_IS_MOOF := 0x02_0000
  const VIDEO_TRUN_FLAGS := 0x0305
  const VIDEO_TRUN_FLAGS_CTS := 0x0B05
  const AUDIO_TRUN_FLAGS := 0x0301
  const FIRST_SAMPLE_FLAGS_SYNC := 0x0200_0000

  function SumSizes(samples: seq<SampleEntry>): (n: nat)
    ensures n <= |samples| * U32_MAX
  {
    if |samples| == 0 then 0 else SumSizes(samples[..|samples| - 1]) + samples[|samples| - 1].size
  }

  predicate AllReadable(data: bytes, samples: seq<SampleEntry>) {
    forall i :: 0 <= i < |samples| ==> Readable(data, samples[i].offset, samples[i].size)
  }

  /** The source bytes of the samples, one after another. */
  function SampleBytes(data: bytes, samples: seq<SampleEntry>): (b: bytes)
    requires AllReadable(data, samples)
    ensures |b| == SumSizes(samples)
  {
    if |samples| == 0 then []
    else
      var last := |samples| - 1;
      SampleBytes(data, samples[..last]) + Slice(data, samples[last].offset, samples[last].size)
  }

  function StypPayload(): (b: bytes)
    ensures |b| == 16
  {
    Code("msdh") + Be32(0) + Code("msdh") + Code("cmfc")
  }

  function Styp(): (b: Plain)
    ensures b.Size() == 24
  {
    Plain(Code("styp"), StypPayload())
  }

  /** Sequence numbers count from 1 and saturate. */
  function SequenceNumber(k: nat): nat {
    if k < U32_MAX then k + 1 else U32_MAX
  }

  function Mfhd(k: nat): (b: Plain)
    ensures b.Size() == 16
  {
    Plain(Code("mfhd"), FullHeader(0, 0) + Be32(SequenceNumber(k)))
  }

  function Tfhd(trackId: nat): (b: Plain)
    ensures b.Size() == 16
  {
    Plain(Code("tfhd"), FullHeader(0, TFHD_DEFAULT_BASE_IS_MOOF) + Be32(trackId))
  }

  function Tfdt(baseDts: u64): (b: Plain)
    ensures b.Size() == 20
  {
    Plain(Code("tfdt"), FullHeader(1, 0) + Be64(baseDts))
  }

  function VideoRow(s: SampleEntry, hasCtts: bool): (b: bytes)
    ensures |b| == if hasCtts then 12 else 8
  {
    Be32(s.dtsDelta) + Be32(s.size) + if hasCtts then Be32(Unsigned32(s.ctsOffset)) else []
  }

  function VideoRows(samples: seq<SampleEntry>, hasCtts: bool): (rows: seq<bytes>)
    ensures |rows| == |samples| && Uniform(rows, if hasCtts then 12 else 8)
    ensures forall i :: 0 <= i < |samples| ==> rows[i] == VideoRow(samples[i], hasCtts)
  {
    seq(|samples|, i requires 0 <= i < |samples| => VideoRow(samples[i], hasCtts))
  }

  function AudioRows(samples: seq<SampleEntry>): (rows: seq<bytes>)
    ensures |rows| == |samples| && Uniform(rows, 8)
    ensures forall i :: 0 <= i < |samples| ==> rows[i] == VideoRow(samples[i], false)
  {
    VideoRows(samples, false)
  }

  /** What precedes the data offset in a `trun`. */
  function TrunHead(version: byte, flags: nat, count: nat): (b: bytes)
    requires flags <= 0xFF_FFFF
    ensures |b| == 8
  {
    FullHeader(version, flags) + Be32(count)
  }

  function VideoTrunHead(samples: seq<SampleEntry>, hasCtts: bool): (b: bytes)
    ensures |b| == 8
  {
    if hasCtts then TrunHead(1, VIDEO_TRUN_FLAGS_CTS, |samples|) else TrunHead(0, VIDEO_TRUN_FLAGS, |samples|)
  }

  function VideoTrun(samples: seq<SampleEntry>, hasCtts: bool, dataOffset: nat): Plain {
    Plain(Code("trun"), VideoTrunHead(samples, hasCtts) + Be32(dataOffset)
          + (Be32(FIRST_SAMPLE_FLAGS_SYNC) + Flatten(VideoRows(samples, hasCtts))))
  }

  function AudioTrun(samples: seq<SampleEntry>, dataOffset: nat): Plain {
    Plain(Code("trun"), TrunHead(0, AUDIO_TRUN_FLAGS, |samples|) + Be32(dataOffset)
          + Flatten(AudioRows(samples)))
  }

  function Traf(trackId: nat, baseDts: u64, trun: Plain): Plain {
    Plain(Code("traf"), EncodeAll([Tfhd(trackId), Tfdt(baseDts), trun]))
  }

  /** What one segment carries. */
  datatype Parts = Parts(
    k: nat, videoBaseDts: u64, audioBaseDts: u64,
    video: seq<SampleEntry>, audio: seq<SampleEntry>, hasCtts: bool)

  function VideoTraf(p: Parts, dataOffset: nat): Plain {
    Traf(VIDEO_TRACK_ID, p.videoBaseDts, VideoTrun(p.video, p.hasCtts, dataOffset))
  }

  function AudioTraf(p: Parts, dataOffset: nat): Plain {
    Traf(AUDIO_TRACK_ID, p.audioBaseDts, AudioTrun(p.audio, dataOffset))
  }

  function Moof(p: Parts, videoOffset: nat, audioOffset: nat): Plain {
    Plain(Code("moof"), EncodeAll([Mfhd(p.k), VideoTraf(p, videoOffset), AudioTraf(p, audioOffset)]))
  }

  function Mdat(p: Parts, data: bytes): (b: Plain)
    requires AllReadable(data, p.video) && AllReadable(data, p.audio)
    ensures b.Size() == 8 + SumSizes(p.video) + SumSizes(p.audio)
  {
    Plain(Code("mdat"), SampleBytes(data, p.video) + SampleBytes(data, p.audio))
  }

  /** Data offsets count from the start of the `moof` box. */
  function VideoDataOffset(p: Parts): nat {
    Moof(p, 0, 0).Size() + 8
  }

  function AudioDataOffset(p: Parts): nat {
    VideoDataOffset(p) + SumSizes(p.video)
  }

  /** The three boxes of a media segment. */
  function SegmentBoxes(p: Parts, data: bytes): (bs: seq<Plain>)
    requires AllReadable(data, p.video) && AllReadable(data, p.audio)
    ensures |bs| == 3
  {
    [Styp(), Moof(p, VideoDataOffset(p), AudioDataOffset(p)), Mdat(p, data)]
  }

  function MediaSegment(p: Parts, data: bytes): bytes
    requires AllReadable(data, p.video) && AllReadable(data, p.audio)
  {
    EncodeAll(SegmentBoxes(p, data))
  }

  // ---------- Segments of an index ----------

  /** Segment `k` exists and its sample ranges are non-empty parts of the tables. */
  predicate HasParts(view: IndexView, k: nat) {
    && k < |view.segments|
    && InTable(view.videoSamples, view.segments[k].videoStart, view.segments[k].videoCount)
    && InTable(view.audioSamples, view.segments[k].audioStart, view.segments[k].audioCount)
    && view.segments[k].videoCount > 0 && view.segments[k].audioCount > 0
  }

  predicate HasCtts(view: IndexView) {
    exists i :: 0 <= i < |view.videoSamples| && view.videoSamples[i].ctsOffset != 0
  }

  function PartsOf(view: IndexView, k: nat): (p: Parts)
    requires HasParts(view, k)
  {
    var s := view.segments[k];
    Parts(k, s.videoBaseDts, s.audioBaseDts,
          view.videoSamples[s.videoStart..s.videoStart + s.videoCount],
          view.audioSamples[s.audioStart..s.audioStart + s.audioCount],
          HasCtts(view))
  }

  /** Both boxes that grow with the samples fit 32 bits, and the offsets fit signed 32 bits. */
  predicate Fits(p: Parts) {
    && Moof(p, 0, 0).Sized()
    && 8 + SumSizes(p.video) + SumSizes(p.audio) <= U32_MAX
    && AudioDataOffset(p) <= I32_MAX
  }

  /** These parts can be written from this source. */
  predicate PartsServable(p: Parts, data: bytes) {
    Fits(p) && AllReadable(data, p.video) && AllReadable(data, p.audio)
  }

  /** Exactly when segment `k` can be written from this source. */
  predicate Servable(view: IndexView, k: nat, data: bytes) {
    HasParts(view, k) && PartsServable(PartsOf(view, k), data)
  }

  /** The bytes of segment `k`. */
  function ServedBytes(view: IndexView, k: nat, data: bytes): bytes
    requires Servable(view, k, data)
  {
    MediaSegment(PartsOf(view, k), data)
  }
}
