/** Row types shared by the index, the splitter and the writers. */
module Format {
  import opened Boxes
  import opened Bytes
  import opened Wrappers

  /** One walked sample, before it is stored. */
  datatype RawSampleEntry = RawSampleEntry(offset: u64, size: u32, dtsDelta: u32, ctsOffset: i32, isSync: bool)

  /** One stored sample row. `dtsDelta` is the sample's duration, up to the next sample's DTS. */
  datatype SampleEntry = SampleEntry(offset: u64, size: u32, dtsDelta: u32, ctsOffset: i32, flags: u32) {
    /** Bit 0 of the flags. */
    predicate IsSync() {
      flags % 2 == 1
    }
  }

  datatype SegmentEntry = SegmentEntry(
    videoStart: u32, videoCount: u32, audioStart: u32, audioCount: u32,
    videoBaseDts: u64, audioBaseDts: u64)

  const SAMPLE_FLAG_IS_SYNC: u32 := 1

  datatype VideoTrackMeta = VideoTrackMeta(
    timescale: u32, fourcc: FourCC, width: u32, height: u32, sampleEntry: bytes, elst: bytes)

  datatype AudioTrackMeta = AudioTrackMeta(
    timescale: u32, fourcc: FourCC, sampleRate: u32, channelCount: byte, sampleEntry: bytes, elst: bytes)

  /** Everything an index holds. */
  datatype IndexView = IndexView(
    maxSegmentSize: u32, sourceLen: u64, digest: bytes,
    video: VideoTrackMeta, audio: AudioTrackMeta,
    videoSamples: seq<SampleEntry>, audioSamples: seq<SampleEntry>, segments: seq<SegmentEntry>,
    initBytes: bytes, playlist: Option<bytes>)

  function ToSampleEntry(r: RawSampleEntry): SampleEntry {
    SampleEntry(r.offset, r.size, r.dtsDelta, r.ctsOffset, if r.isSync then SAMPLE_FLAG_IS_SYNC else 0)
  }

  function ToSampleEntries(rs: seq<RawSampleEntry>): (es: seq<SampleEntry>)
    ensures |es| == |rs|
    ensures forall i :: 0 <= i < |rs| ==> es[i] == ToSampleEntry(rs[i])
  {
    seq(|rs|, i requires 0 <= i < |rs| => ToSampleEntry(rs[i]))
  }

  /** Start DTS of sample `i`: the durations of the samples before it. */
  function Dts(s: seq<RawSampleEntry>, i: nat): (t: nat)
    requires i <= |s|
    ensures t <= i * U32_MAX
  {
    if i == 0 then 0 else Dts(s, i - 1) + s[i - 1].dtsDelta
  }

  lemma DtsNext(s: seq<RawSampleEntry>, i: nat)
    requires i < |s|
    ensures Dts(s, i + 1) == Dts(s, i) + s[i].dtsDelta
  {}

  /** With at most 2^32 - 1 samples no start time leaves 64 bits. */
  lemma {:induction false} DtsFits(s: seq<RawSampleEntry>, i: nat)
    requires i <= |s| <= U32_MAX
    ensures Dts(s, i) <= U64_MAX
  {
    assert i * U32_MAX <= U32_MAX * U32_MAX;
  }

  lemma {:induction false} DtsMonotone(s: seq<RawSampleEntry>, i: nat, j: nat)
    requires i <= j <= |s|
    ensures Dts(s, i) <= Dts(s, j)
    decreases j
  {
    if i < j {
      DtsMonotone(s, i, j - 1);
    }
  }

  /** These rows lie in the table. */
  predicate InTable(table: seq<SampleEntry>, start: nat, count: nat) {
    start + count <= |table|
  }

  lemma Scale(x: nat, y: nat, b: nat)
    requires x <= y
    ensures x * b <= y * b
  {}

  /** Total duration of stored rows. */
  function Ticks(es: seq<SampleEntry>): (t: nat)
    ensures t <= |es| * U32_MAX
  {
    if |es| == 0 then 0 else Ticks(es[..|es| - 1]) + es[|es| - 1].dtsDelta
  }

  /** A run of rows lasts as long as the distance between its ends. */
  lemma {:induction false} TicksSpan(s: seq<RawSampleEntry>, lo: nat, hi: nat)
    requires lo <= hi <= |s|
    ensures Dts(s, lo) + Ticks(ToSampleEntries(s)[lo..hi]) == Dts(s, hi)
    decreases hi
  {
    if lo < hi {
      TicksSpan(s, lo, hi - 1);
      assert ToSampleEntries(s)[lo..hi][..hi - lo - 1] == ToSampleEntries(s)[lo..hi - 1];
    }
  }
}
