/** The `.idx` format: what each section looks like, and how an image is read. */
module Idx {
  import opened Boxes
  import opened Bytes
  import opened Format
  import opened Wrappers

  const HEADER_FIXED_LEN := 56
  const SECTION_DIR_ENTRY_LEN := 16
  const MAX_SECTIONS := 64
  const SAMPLE_ROW := 24
  const SEGMENT_ROW := 32

  const KIND_VIDEO_TRACK_META := 0x01
  const KIND_AUDIO_TRACK_META := 0x02
  const KIND_VIDEO_SAMPLE_TABLE := 0x03
  const KIND_AUDIO_SAMPLE_TABLE := 0x04
  const KIND_SEGMENT_TABLE := 0x05
  const KIND_INIT_SEGMENT_BYTES := 0x06
  const KIND_PLAYLIST_BYTES := 0x07

  // ---------- Rows, in the byte order of the host ----------

  function SampleRow(host: Endian, s: SampleEntry): (b: bytes)
    ensures |b| == SAMPLE_ROW
  {
    Ne(host, 8, s.offset) + Ne(host, 4, s.size) + Ne(host, 4, s.dtsDelta)
    + Ne(host, 4, Unsigned32(s.ctsOffset)) + Ne(host, 4, s.flags)
  }

  function SegmentRow(host: Endian, s: SegmentEntry): (b: bytes)
    ensures |b| == SEGMENT_ROW
  {
    Ne(host, 4, s.videoStart) + Ne(host, 4, s.videoCount) + Ne(host, 4, s.audioStart) + Ne(host, 4, s.audioCount)
    + Ne(host, 8, s.videoBaseDts) + Ne(host, 8, s.audioBaseDts)
  }

  function Ne32(host: Endian, b: bytes, pos: nat): (n: u32)
    requires pos + 4 <= |b|
  {
    Pow256Values();
    ReadNe(host, b[pos..pos + 4])
  }

  function Ne64(host: Endian, b: bytes, pos: nat): (n: u64)
    requires pos + 8 <= |b|
  {
    Pow256Values();
    ReadNe(host, b[pos..pos + 8])
  }

  function ReadSampleRow(host: Endian, row: bytes): SampleEntry
    requires |row| == SAMPLE_ROW
  {
    SampleEntry(Ne64(host, row, 0), Ne32(host, row, 8), Ne32(host, row, 12),
                Signed32(Ne32(host, row, 16)), Ne32(host, row, 20))
  }

  function ReadSegmentRow(host: Endian, row: bytes): SegmentEntry
    requires |row| == SEGMENT_ROW
  {
    SegmentEntry(Ne32(host, row, 0), Ne32(host, row, 4), Ne32(host, row, 8), Ne32(host, row, 12),
                 Ne64(host, row, 16), Ne64(host, row, 24))
  }

  function SampleRows(host: Endian, es: seq<SampleEntry>): (rows: seq<bytes>)
    ensures |rows| == |es| && Uniform(rows, SAMPLE_ROW)
    ensures forall i :: 0 <= i < |es| ==> rows[i] == SampleRow(host, es[i])
  {
    seq(|es|, i requires 0 <= i < |es| => SampleRow(host, es[i]))
  }

  function SegmentRows(host: Endian, es: seq<SegmentEntry>): (rows: seq<bytes>)
    ensures |rows| == |es| && Uniform(rows, SEGMENT_ROW)
    ensures forall i :: 0 <= i < |es| ==> rows[i] == SegmentRow(host, es[i])
  {
    seq(|es|, i requires 0 <= i < |es| => SegmentRow(host, es[i]))
  }

  // ---------- Sections ----------

  /** A count, a zero word, and the rows. */
  function TableSection(rows: seq<bytes>): (b: bytes)
    ensures |b| == 8 + |Flatten(rows)|
  {
    Be32(|rows|) + Be32(0) + Flatten(rows)
  }

  /** The end of both meta sections: two byte blobs, each after its length. */
  function Blobs(sampleEntry: bytes, elst: bytes): (b: bytes)
    ensures |b| == 8 + |sampleEntry| + |elst|
  {
    Be32(|sampleEntry|) + sampleEntry + Be32(|elst|) + elst
  }

  function VideoHead(m: VideoTrackMeta): (b: bytes)
    ensures |b| == 16
  {
    Be32(m.timescale) + m.fourcc + Be32(m.width) + Be32(m.height)
  }

  function AudioHead(m: AudioTrackMeta): (b: bytes)
    ensures |b| == 16
  {
    Be32(m.timescale) + m.fourcc + Be32(m.sampleRate) + ([m.channelCount] + Zeros(3))
  }

  function VideoMeta(m: VideoTrackMeta): (b: bytes)
    ensures |b| == 24 + |m.sampleEntry| + |m.elst|
  {
    VideoHead(m) + Blobs(m.sampleEntry, m.elst)
  }

  function AudioMeta(m: AudioTrackMeta): (b: bytes)
    ensures |b| == 24 + |m.sampleEntry| + |m.elst|
  {
    AudioHead(m) + Blobs(m.sampleEntry, m.elst)
  }

  /** Zero bytes needed to reach a multiple of 8. */
  function PadLen(n: nat): (p: nat)
    ensures p < 8 && (n + p) % 8 == 0
  {
    if n % 8 == 0 then 0 else 8 - n % 8
  }

  function Padded(b: bytes): (r: bytes)
    ensures |r| % 8 == 0 && |b| <= |r| < |b| + 8
  {
    b + Zeros(PadLen(|b|))
  }

  // ---------- The image ----------

  /** Section kinds in the order in which they are laid out. */
  function Kinds(): (ks: seq<nat>)
    ensures |ks| == 7
  {
    [KIND_VIDEO_TRACK_META, KIND_AUDIO_TRACK_META, KIND_VIDEO_SAMPLE_TABLE, KIND_AUDIO_SAMPLE_TABLE,
     KIND_SEGMENT_TABLE, KIND_PLAYLIST_BYTES, KIND_INIT_SEGMENT_BYTES]
  }

  function Contents(host: Endian, v: IndexView, playlist: bytes): (cs: seq<bytes>)
    ensures |cs| == 7
  {
    [VideoMeta(v.video), AudioMeta(v.audio), TableSection(SampleRows(host, v.videoSamples)),
     TableSection(SampleRows(host, v.audioSamples)), TableSection(SegmentRows(host, v.segments)),
     playlist, v.initBytes]
  }

  /** Every section but the last is padded, so that each starts on a multiple of 8. */
  function Pieces(cs: seq<bytes>): (ps: seq<bytes>)
    ensures |ps| == |cs|
    ensures forall i :: 0 <= i < |cs| ==> ps[i] == if i + 1 < |cs| then Padded(cs[i]) else cs[i]
  {
    seq(|cs|, i requires 0 <= i < |cs| => if i + 1 < |cs| then Padded(cs[i]) else cs[i])
  }

  function HeaderEnd(n: nat): nat {
    HEADER_FIXED_LEN + n * SECTION_DIR_ENTRY_LEN
  }

  /** Where section `i` starts. */
  function SectionOffset(ps: seq<bytes>, i: nat): nat
    requires i <= |ps|
  {
    HeaderEnd(|ps|) + |Flatten(ps[..i])|
  }

  function FixedHeader(v: IndexView, n: nat): (b: bytes)
    requires |v.digest| == 32
    ensures |b| == HEADER_FIXED_LEN
  {
    Code("HCMI") + Be32(v.maxSegmentSize) + Be64(v.sourceLen) + v.digest + Be32(n) + Be32(0)
  }

  function DirEntry(kind: nat, offset: nat): (b: bytes)
    ensures |b| == SECTION_DIR_ENTRY_LEN
  {
    Be32(kind) + Be32(0) + Be64(offset)
  }

  function DirEntries(kinds: seq<nat>, ps: seq<bytes>): (es: seq<bytes>)
    requires |kinds| == |ps|
    ensures |es| == |ps| && Uniform(es, SECTION_DIR_ENTRY_LEN)
    ensures forall i :: 0 <= i < |ps| ==> es[i] == DirEntry(kinds[i], SectionOffset(ps, i))
  {
    seq(|ps|, i requires 0 <= i < |ps| => DirEntry(kinds[i], SectionOffset(ps, i)))
  }

  /** A whole image with these sections. */
  function ImageOf(v: IndexView, kinds: seq<nat>, ps: seq<bytes>): bytes
    requires |v.digest| == 32 && |kinds| == |ps|
  {
    FixedHeader(v, |ps|) + Flatten(DirEntries(kinds, ps)) + Flatten(ps)
  }

  /** What the builder writes for an index with a playlist. */
  function Image(host: Endian, v: IndexView, playlist: bytes): bytes
    requires |v.digest| == 32
  {
    ImageOf(v, Kinds(), Pieces(Contents(host, v, playlist)))
  }

  // ---------- Reading ----------

  /** What follows a track's declared contents: at most 7 zero bytes. */
  predicate CanonicalPadding(b: bytes) {
    |b| < 8 && forall i :: 0 <= i < |b| ==> b[i] == 0
  }

  /** The two blobs of a meta section that start at byte 16. */
  function ReadBlobs(payload: bytes): (r: Result<(bytes, bytes)>)
    requires |payload| >= 20
  {
    var entryEnd := 20 + U32At(payload, 16) as nat;
    if |payload| < entryEnd + 4 then Err(MalformedIndexSection)
    else
      var elstEnd := entryEnd + 4 + U32At(payload, entryEnd) as nat;
      if |payload| < elstEnd || !CanonicalPadding(payload[elstEnd..]) then Err(MalformedIndexSection)
      else Ok((payload[20..entryEnd], payload[entryEnd + 4..elstEnd]))
  }

  function ParseVideoMeta(payload: bytes): Result<VideoTrackMeta> {
    if |payload| < 20 then Err(MalformedIndexSection)
    else
      var blobs :- ReadBlobs(payload);
      Ok(VideoTrackMeta(U32At(payload, 0), payload[4..8], U32At(payload, 8), U32At(payload, 12), blobs.0, blobs.1))
  }

  function ParseAudioMeta(payload: bytes): Result<AudioTrackMeta> {
    if |payload| < 20 || payload[13..16] != [0, 0, 0] then Err(MalformedIndexSection)
    else
      var blobs :- ReadBlobs(payload);
      Ok(AudioTrackMeta(U32At(payload, 0), payload[4..8], U32At(payload, 8), payload[12], blobs.0, blobs.1))
  }

  /** The rows of a table section of `w`-byte rows. */
  function ParseRows(payload: bytes, w: nat): (r: Result<seq<bytes>>)
    ensures r.Ok? ==> Uniform(r.value, w)
  {
    if |payload| < 8 || U32At(payload, 4) != 0 then Err(MalformedIndexSection)
    else
      var n: nat := U32At(payload, 0);
      if |payload| - 8 != n * w then Err(MalformedIndexSection) else Ok(Rows(payload[8..], w, n))
  }

  function ParseSampleTable(host: Endian, payload: bytes): Result<seq<SampleEntry>> {
    var rows :- ParseRows(payload, SAMPLE_ROW);
    Ok(seq(|rows|, i requires 0 <= i < |rows| => ReadSampleRow(host, rows[i])))
  }

  function ParseSegmentTable(host: Endian, payload: bytes): Result<seq<SegmentEntry>> {
    var rows :- ParseRows(payload, SEGMENT_ROW);
    Ok(seq(|rows|, i requires 0 <= i < |rows| => ReadSegmentRow(host, rows[i])))
  }

  /** Kind and offset of directory entry `i`. */
  function EntryAt(b: bytes, i: nat): (u32, u64)
    requires HeaderEnd(i + 1) <= |b|
  {
    (U32At(b, HeaderEnd(i)), U64At(b, HeaderEnd(i) + 8))
  }

  function Directory(b: bytes, n: nat): (d: seq<(u32, u64)>)
    requires HeaderEnd(n) <= |b|
    ensures |d| == n && forall i :: 0 <= i < n ==> d[i] == EntryAt(b, i)
  {
    seq(n, i requires 0 <= i < n => EntryAt(b, i))
  }

  /** The padding word of directory entry `i` is zero. */
  predicate PadZero(b: bytes, i: nat)
    requires HeaderEnd(i + 1) <= |b|
  {
    U32At(b, HeaderEnd(i) + 4) == 0
  }

  /** Padding words are zero; offsets start at the header's end, ascend, stay inside and are aligned; kinds differ. */
  ghost predicate DirectoryOk(b: bytes, d: seq<(u32, u64)>)
    requires 0 < |d| && HeaderEnd(|d|) <= |b|
  {
    && (forall i :: 0 <= i < |d| ==> PadZero(b, i))
    && d[0].1 == HeaderEnd(|d|)
    && (forall i :: 0 <= i < |d| - 1 ==> d[i].1 < d[i + 1].1)
    && d[|d| - 1].1 <= |b|
    && (forall i :: 0 <= i < |d| ==> d[i].1 % 8 == 0)
    && (forall i, j :: 0 <= i < j < |d| ==> d[i].0 != d[j].0)
  }

  /** Where section `i` of the directory ends. */
  function SectionEnd(b: bytes, d: seq<(u32, u64)>, i: nat): nat
    requires i < |d|
  {
    if i + 1 < |d| then d[i + 1].1 else |b|
  }

  predicate Framed(b: bytes, d: seq<(u32, u64)>) {
    forall i :: 0 <= i < |d| ==> d[i].1 <= SectionEnd(b, d, i) <= |b|
  }

  /** The payload of the first section of this kind. */
  function SectionOfKind(b: bytes, d: seq<(u32, u64)>, kind: nat, from: nat): Option<bytes>
    requires Framed(b, d) && from <= |d|
    decreases |d| - from
  {
    if from == |d| then None
    else if d[from].0 == kind then Some(b[d[from].1..SectionEnd(b, d, from)])
    else SectionOfKind(b, d, kind, from + 1)
  }

  function Required(o: Option<bytes>): Result<bytes> {
    if o.None? then Err(MalformedIndexSection) else Ok(o.value)
  }

  /** Read the sections that a checked directory names. */
  function ReadSections(host: Endian, b: bytes, d: seq<(u32, u64)>): Result<IndexView>
    requires |b| >= HEADER_FIXED_LEN && Framed(b, d)
  {
    var videoMeta :- Required(SectionOfKind(b, d, KIND_VIDEO_TRACK_META, 0));
    var audioMeta :- Required(SectionOfKind(b, d, KIND_AUDIO_TRACK_META, 0));
    var videoTable :- Required(SectionOfKind(b, d, KIND_VIDEO_SAMPLE_TABLE, 0));
    var audioTable :- Required(SectionOfKind(b, d, KIND_AUDIO_SAMPLE_TABLE, 0));
    var segmentTable :- Required(SectionOfKind(b, d, KIND_SEGMENT_TABLE, 0));
    var initBytes :- Required(SectionOfKind(b, d, KIND_INIT_SEGMENT_BYTES, 0));
    var video :- ParseVideoMeta(videoMeta);
    var audio :- ParseAudioMeta(audioMeta);
    var videoSamples :- ParseSampleTable(host, videoTable);
    var audioSamples :- ParseSampleTable(host, audioTable);
    var segments :- ParseSegmentTable(host, segmentTable);
    Ok(IndexView(U32At(b, 4), U64At(b, 8), b[16..48], video, audio, videoSamples, audioSamples, segments,
                 initBytes, SectionOfKind(b, d, KIND_PLAYLIST_BYTES, 0)))
  }

  /** A directory of `n` sections fits, and its reserved word is zero. */
  predicate CountOk(b: bytes)
    requires |b| >= HEADER_FIXED_LEN
  {
    U32At(b, 52) == 0 && 0 < U32At(b, 48) <= MAX_SECTIONS && HeaderEnd(U32At(b, 48)) <= |b|
  }

  lemma {:induction false} AscendingOffsets(d: seq<(u32, u64)>, i: nat, j: nat)
    requires i <= j < |d| && forall k :: 0 <= k < |d| - 1 ==> d[k].1 < d[k + 1].1
    ensures d[i].1 <= d[j].1
    decreases j
  {
    if i < j {
      AscendingOffsets(d, i, j - 1);
    }
  }

  lemma DirectoryFrames(b: bytes, d: seq<(u32, u64)>)
    requires 0 < |d| && HeaderEnd(|d|) <= |b| && DirectoryOk(b, d)
    ensures Framed(b, d)
  {
    forall i | 0 <= i < |d|
      ensures d[i].1 <= SectionEnd(b, d, i) <= |b|
    {
      AscendingOffsets(d, i, |d| - 1);
      if i + 1 < |d| {
        AscendingOffsets(d, i + 1, |d| - 1);
      }
    }
  }

  /** What opening an image returns. */
  ghost function Parse(host: Endian, b: bytes): Result<IndexView> {
    if |b| < HEADER_FIXED_LEN then Err(MalformedIndexDirectory)
    else if b[..4] != Code("HCMI") then Err(IndexMagicMismatch)
    else if !CountOk(b) then Err(MalformedIndexDirectory)
    else
      var d := Directory(b, U32At(b, 48));
      if !DirectoryOk(b, d) then Err(MalformedIndexDirectory)
      else
        DirectoryFrames(b, d);
        ReadSections(host, b, d)
  }
}
