/** Building an index image, with a dry run of every segment before anything is stored. */
module Builder {
  import opened Bytes
  import opened Format
  import opened Idx
  import opened IdxBuilder
  import opened InitLaws
  import opened Playlist
  import opened SampleTable
  import opened Segment
  import opened SegmentWriter
  import opened Sinks
  import opened Sources
  import opened Splitter
  import opened SplitLaws
  import opened Wrappers
  import Init
  import InitWriter
  import Moov
  import MoovLaws

  const HASH_BUF_SIZE := 64 * 1024

  type Digest = b: bytes | |b| == 32 witness Zeros(32)

  /** What the build depends on besides the file: byte order, nominal duration, digest, duration texts. */
  datatype Settings = Settings(host: Endian, nominalTicks: u64, digest: bytes -> Digest, text: DurationText)

  // ---------- When a build succeeds, and with what ----------

  /** The file has one video and one audio track whose blobs and samples can be read. */
  ghost predicate Demuxed(data: bytes, sourceLen: nat) {
    && Moov.Parsed(data, sourceLen).Ok?
    && var m := Moov.Parsed(data, sourceLen).value;
       && BlobsReadable(data, m.video) && BlobsReadable(data, m.audio)
       && HoldsSamples(data, m.video.sampleTable) && HoldsSamples(data, m.audio.sampleTable)
  }

  ghost function VideoRaw(data: bytes, sourceLen: nat): seq<RawSampleEntry>
    requires Demuxed(data, sourceLen)
  {
    SamplesAt(data, Moov.Parsed(data, sourceLen).value.video.sampleTable)
  }

  ghost function AudioRaw(data: bytes, sourceLen: nat): seq<RawSampleEntry>
    requires Demuxed(data, sourceLen)
  {
    SamplesAt(data, Moov.Parsed(data, sourceLen).value.audio.sampleTable)
  }

  /** The index of this file with this segment table, before init segment, playlist and size bound are known. */
  ghost function DraftView(cfg: Settings, data: bytes, sourceLen: u64, segs: seq<SegmentEntry>): IndexView
    requires Demuxed(data, sourceLen) && sourceLen <= |data|
  {
    var m := Moov.Parsed(data, sourceLen).value;
    IndexView(0, sourceLen, cfg.digest(data[..sourceLen]), VideoMetaOf(data, m.video), AudioMetaOf(data, m.audio),
              ToSampleEntries(VideoRaw(data, sourceLen)), ToSampleEntries(AudioRaw(data, sourceLen)), segs, [], None)
  }

  /** This segment table is the split of the file. */
  ghost predicate SplitOf(cfg: Settings, data: bytes, sourceLen: nat, segs: seq<SegmentEntry>)
    requires Demuxed(data, sourceLen)
  {
    var m := Moov.Parsed(data, sourceLen).value;
    IsSplit(VideoRaw(data, sourceLen), AudioRaw(data, sourceLen), m.video.timescale, m.audio.timescale,
            Nominal(cfg.nominalTicks), segs)
  }

  /** Segment `k` can be served, and its size fits 32 bits. */
  predicate ServesSized(view: IndexView, k: nat, data: bytes, limit: nat) {
    Servable(view, k, data) && |ServedBytes(view, k, data)| <= limit
  }

  /** This segment table is the split of the file, and all its segments can be served. */
  ghost predicate BuildableWith(cfg: Settings, data: bytes, sourceLen: u64, segs: seq<SegmentEntry>)
    requires Demuxed(data, sourceLen) && sourceLen <= |data|
  {
    && SplitOf(cfg, data, sourceLen, segs)
    && forall k :: 0 <= k < |segs| ==> ServesSized(DraftView(cfg, data, sourceLen, segs), k, data, U32_MAX)
  }

  /** Exactly when a build succeeds. */
  ghost predicate Buildable(cfg: Settings, data: bytes, sourceLen: u64) {
    && Demuxed(data, sourceLen) && sourceLen <= |data|
    && (var m := Moov.Parsed(data, sourceLen).value;
        Init.Moov(VideoMetaOf(data, m.video), AudioMetaOf(data, m.audio)).Sized())
    && exists segs :: BuildableWith(cfg, data, sourceLen, segs)
  }

  /** Segment `k` is exactly this long. */
  predicate ServesExactly(view: IndexView, k: nat, data: bytes, size: nat) {
    Servable(view, k, data) && |ServedBytes(view, k, data)| == size
  }

  /** The first `n` segments can be served, and `max` is the size of the largest of them. */
  ghost predicate LargestSegment(view: IndexView, data: bytes, n: nat, max: nat) {
    && (forall k :: 0 <= k < n ==> ServesSized(view, k, data, max))
    && (n == 0 ==> max == 0)
    && (n > 0 ==> exists k :: 0 <= k < n && ServesExactly(view, k, data, max))
  }

  predicate AllServable(view: IndexView, data: bytes) {
    forall k :: 0 <= k < |view.segments| ==> Servable(view, k, data)
  }

  /** The draft, with init segment, playlist and size bound filled in. */
  function Complete(draft: IndexView, text: DurationText, max: u32): IndexView
    requires Listable(draft)
  {
    draft.(maxSegmentSize := max, initBytes := Init.InitSegment(draft.video, draft.audio),
           playlist := Some(Unlines(RenderedLines(draft, text))))
  }

  /** The index is the completed draft of this file. */
  ghost predicate Completed(cfg: Settings, data: bytes, sourceLen: u64, view: IndexView) {
    && Demuxed(data, sourceLen) && sourceLen <= |data|
    && SplitOf(cfg, data, sourceLen, view.segments)
    && var draft := DraftView(cfg, data, sourceLen, view.segments);
       && Listable(draft) && Init.Moov(draft.video, draft.audio).Sized()
       && view == Complete(draft, cfg.text, view.maxSegmentSize)
  }

  /** What a finished index promises about the file it was built from. */
  ghost predicate Certified(cfg: Settings, data: bytes, sourceLen: u64, view: IndexView) {
    && AllServable(view, data)
    && LargestSegment(view, data, |view.segments|, view.maxSegmentSize)
    && Completed(cfg, data, sourceLen, view)
  }

  /** These bytes are the image of a certified index. */
  ghost predicate IsIndexOf(cfg: Settings, data: bytes, sourceLen: u64, image: bytes) {
    exists view :: Certified(cfg, data, sourceLen, view) && HasImage(cfg.host, view, image)
  }

  /** These bytes are the image of this index. */
  ghost predicate HasImage(host: Endian, view: IndexView, image: bytes) {
    |view.digest| == 32 && view.playlist.Some? && image == Image(host, view, view.playlist.value)
  }

  // ---------- Steps ----------

  /** Read one range of the file. */
  method ReadByteRange(src: Source, range: ByteRange) returns (r: Result<bytes>)
    ensures r.Ok? <==> InFile(src.data, range)
    ensures r.Ok? ==> r.value == Blob(src.data, range)
    ensures r.Err? ==> r.error == Io
  {
    r := ReadBytes(src, range.offset, range.len);
  }

  /** Hash the whole source, however short its reads are. */
  method DigestOfSource(src: Source, len: nat, digest: bytes -> Digest) returns (r: Result<Digest>)
    ensures r.Ok? <==> len <= |src.data|
    ensures r.Ok? ==> r.value == digest(src.data[..len])
    ensures r.Err? ==> r.error == Io
  {
    var hashed: bytes := [];
    var buf := new byte[HASH_BUF_SIZE];
    var pos := 0;
    while pos < len
      invariant pos <= len && pos <= |src.data| && hashed == src.data[..pos]
    {
      var want := if len - pos <= buf.Length then len - pos else buf.Length;
      var n := src.ReadAt(pos, buf, 0, want);
      if n == 0 {
        return Err(Io);
      }
      assert buf[..n] == buf[0..n] == src.data[pos..pos + n];
      assert src.data[..pos] + src.data[pos..pos + n] == src.data[..pos + n];
      hashed := hashed + buf[..n];
      pos := pos + n;
    }
    return Ok(digest(hashed));
  }

  /** One more segment. */
  lemma LargestGrows(view: IndexView, data: bytes, n: nat, max: nat, size: nat)
    requires LargestSegment(view, data, n, max) && ServesExactly(view, n, data, size)
    ensures LargestSegment(view, data, n + 1, if size > max then size else max)
  {
    hide Servable, ServedBytes;
    var larger := if size > max then size else max;
    forall k | 0 <= k <= n
      ensures ServesSized(view, k, data, larger)
    {
      assert k < n ==> ServesSized(view, k, data, max);
    }
    if size <= max && n > 0 {
      var k :| 0 <= k < n && ServesExactly(view, k, data, max);
      assert k < n + 1;
    }
  }

  /** Write every segment to a sink that only counts, and keep the largest size. */
  method DryRun(view: IndexView, src: Source) returns (r: Result<u32>)
    requires |view.segments| <= U32_MAX
    ensures r.Ok? <==> forall k :: 0 <= k < |view.segments| ==> ServesSized(view, k, src.data, U32_MAX)
    ensures r.Ok? ==> forall k :: 0 <= k < |view.segments| ==> Servable(view, k, src.data)
    ensures r.Ok? ==> LargestSegment(view, src.data, |view.segments|, r.value)
  {
    hide Servable, ServedBytes;
    var max: u32 := 0;
    for idx := 0 to |view.segments|
      invariant forall k :: 0 <= k < idx ==> ServesSized(view, k, src.data, U32_MAX)
      invariant forall k :: 0 <= k < idx ==> Servable(view, k, src.data)
      invariant LargestSegment(view, src.data, idx, max)
    {
      var size :- SegmentSize(view, idx, src);
      LargestGrows(view, src.data, idx, max, size);
      if size > max {
        max := size;
      }
    }
    return Ok(max);
  }

  /** The size of one segment, by writing it to a counting sink. */
  method SegmentSize(view: IndexView, idx: u32, src: Source) returns (r: Result<u32>)
    requires idx < |view.segments|
    ensures r.Ok? <==> ServesSized(view, idx, src.data, U32_MAX)
    ensures r.Ok? ==> ServesExactly(view, idx, src.data, r.value)
  {
    hide MediaSegment, PartsOf, PartsServable, HasParts;
    var counting := new CountingSink();
    var sink := Counting(counting);
    var _ :- WriteMediaSegment(view, idx, src, sink);
    assert sink.Image() == [] + ServedBytes(view, idx, src.data);
    if counting.len > U32_MAX {
      return Err(Io);
    }
    return Ok(counting.len);
  }

  /** Serving depends on the tables and segments only. */
  lemma SameServing(v: IndexView, w: IndexView, k: nat, data: bytes)
    requires v.videoSamples == w.videoSamples && v.audioSamples == w.audioSamples && v.segments == w.segments
    ensures Servable(v, k, data) <==> Servable(w, k, data)
    ensures Servable(v, k, data) ==> ServedBytes(v, k, data) == ServedBytes(w, k, data)
  {
    hide MediaSegment, PartsServable;
    assert HasCtts(v) == HasCtts(w);
    assert HasParts(v, k) ==> PartsOf(v, k) == PartsOf(w, k);
  }

  // ---------- The build ----------

  /** Demux, split, and read everything the index stores from the file. */
  method Draft(cfg: Settings, src: Source, sourceLen: u64) returns (r: Result<IndexView>)
    ensures r.Ok? <==> && Demuxed(src.data, sourceLen) && sourceLen <= |src.data|
                       && exists segs :: SplitOf(cfg, src.data, sourceLen, segs)
    ensures r.Ok? ==> SplitOf(cfg, src.data, sourceLen, r.value.segments)
    ensures r.Ok? ==> r.value == DraftView(cfg, src.data, sourceLen, r.value.segments)
  {
    hide Moov.Parsed, HoldsSamples, SamplesAt, IsSplit, Splittable;
    var m :- Moov.ParseTopLevel(src, sourceLen);
    var video :- Walk(src, m.video.sampleTable);
    var audio :- Walk(src, m.audio.sampleTable);
    var segments :- SplitTracks(video, audio, m.video.timescale, m.audio.timescale, cfg.nominalTicks);
    var videoEntry :- ReadByteRange(src, m.video.sampleEntry);
    var videoElst :- ReadElst(src, m.video);
    var audioEntry :- ReadByteRange(src, m.audio.sampleEntry);
    var audioElst :- ReadElst(src, m.audio);
    var digest :- DigestOfSource(src, sourceLen, cfg.digest);
    assert SplitOf(cfg, src.data, sourceLen, segments);
    return Ok(IndexView(
      0, sourceLen, digest,
      VideoTrackMeta(m.video.timescale, m.video.fourcc, m.video.width, m.video.height, videoEntry, videoElst),
      AudioTrackMeta(m.audio.timescale, m.audio.fourcc, m.audio.sampleRate, m.audio.channelCount,
                     audioEntry, audioElst),
      ToSampleEntries(video), ToSampleEntries(audio), segments, [], None));
  }

  /** The splitter, in the terms of its laws. */
  method SplitTracks(video: seq<RawSampleEntry>, audio: seq<RawSampleEntry>, vts: u32, ats: u32, nominalTicks: u64)
    returns (r: Result<seq<SegmentEntry>>)
    ensures r.Ok? <==> exists segs :: IsSplit(video, audio, vts, ats, Nominal(nominalTicks), segs)
    ensures r.Ok? ==> IsSplit(video, audio, vts, ats, Nominal(nominalTicks), r.value)
  {
    hide Splittable, IsTable, Cuts;
    r := Split(video, audio, vts, ats, nominalTicks);
    assert r.Ok? ==> IsSplit(video, audio, vts, ats, Nominal(nominalTicks), r.value);
  }

  method ReadElst(src: Source, t: Moov.ParsedTrack) returns (r: Result<bytes>)
    ensures r.Ok? <==> (t.elst.Some? ==> InFile(src.data, t.elst.value))
    ensures r.Ok? ==> r.value == if t.elst.Some? then Blob(src.data, t.elst.value) else []
  {
    if t.elst.None? {
      return Ok([]);
    }
    r := ReadByteRange(src, t.elst.value);
  }

  /** The init segment, written to memory. */
  method RenderInit(video: VideoTrackMeta, audio: AudioTrackMeta) returns (r: Result<bytes>)
    requires |Init.InitSegment(video, audio)| <= U64_MAX
    ensures r.Ok? <==> Init.Moov(video, audio).Sized()
    ensures r.Ok? ==> r.value == Init.InitSegment(video, audio)
  {
    hide Init.InitSegment, Init.Moov;
    var cursor := new MemCursor();
    var sink := Memory(cursor);
    assert sink.Image() == [];
    assert [] + Init.InitSegment(video, audio) == Init.InitSegment(video, audio);
    var _ :- InitWriter.WriteInitSegment(sink, video, audio);
    return Ok(cursor.buf);
  }

  /** A split never leaves the tables, and has at most as many segments as there are video samples. */
  lemma SplitIsListable(cfg: Settings, data: bytes, sourceLen: u64, segs: seq<SegmentEntry>)
    requires Demuxed(data, sourceLen) && sourceLen <= |data| && SplitOf(cfg, data, sourceLen, segs)
    ensures Listable(DraftView(cfg, data, sourceLen, segs))
    ensures |segs| <= |VideoRaw(data, sourceLen)| <= U32_MAX && |AudioRaw(data, sourceLen)| <= U32_MAX
  {
    hide Moov.Parsed, HoldsSamples, SamplesAt, InFile, Blob, VideoRaw, AudioRaw, IsSplit;
    var m := Moov.Parsed(data, sourceLen).value;
    SplitInputs(VideoRaw(data, sourceLen), AudioRaw(data, sourceLen), m.video.timescale, m.audio.timescale,
                Nominal(cfg.nominalTicks), segs);
  }

  lemma SplitInputs(video: seq<RawSampleEntry>, audio: seq<RawSampleEntry>, vts: nat, ats: nat, nominal: nat,
                    segs: seq<SegmentEntry>)
    requires IsSplit(video, audio, vts, ats, nominal, segs)
    ensures vts != 0 && |segs| <= |video| <= U32_MAX && |audio| <= U32_MAX
    ensures forall k :: 0 <= k < |segs| ==> HasVideo(segs[k], ToSampleEntries(video))
  {
    hide ScaledCeil, AtOrAfter, AudioFrom, Cuts, BoundaryOk, IsTable;
    forall k | 0 <= k < |segs|
      ensures HasVideo(segs[k], ToSampleEntries(video))
    {
      RowTimes(video, audio, vts, ats, nominal, segs, k);
    }
  }

  lemma InitSize(video: VideoTrackMeta, audio: AudioTrackMeta)
    ensures |Init.InitSegment(video, audio)| == 24 + Init.Moov(video, audio).Size()
    ensures Init.Moov(video, audio).Size()
            <= 1000 + |video.sampleEntry| + |video.elst| + |audio.sampleEntry| + |audio.elst|
    ensures Init.Moov(video, audio).Size()
            >= |video.sampleEntry| + |video.elst| + |audio.sampleEntry| + |audio.elst|
  {
    hide Init.Moov, Init.Trak, Init.Mdia, Init.Minf, Init.Stbl, Init.Track.MediaHeader, Init.SizeOfAll;
    Init.MoovSize(video, audio);
    Init.TrakSize(Init.Video(video));
    Init.TrakSize(Init.Audio(audio));
    Init.EncodeAllSize(Init.InitBoxes(video, audio));
    Init.TwoSizes(Init.InitBoxes(video, audio));
  }

  /** The blobs of a draft are separate parts of the file. */
  lemma DraftBlobs(cfg: Settings, data: bytes, sourceLen: u64, segs: seq<SegmentEntry>)
    requires Demuxed(data, sourceLen) && sourceLen <= |data| <= ISIZE_MAX
    ensures var v := DraftView(cfg, data, sourceLen, segs); |Init.InitSegment(v.video, v.audio)| <= U64_MAX
  {
    hide Moov.Parsed, HoldsSamples, SamplesAt, Init.InitSegment, Init.Moov;
    var v := DraftView(cfg, data, sourceLen, segs);
    InitSize(v.video, v.audio);
    MoovLaws.BlobsFit(data, sourceLen, Moov.Parsed(data, sourceLen).value);
  }

  /** The table and the sizes that make a file buildable are unique. */
  lemma OnlySplit(cfg: Settings, data: bytes, sourceLen: u64, segs: seq<SegmentEntry>, others: seq<SegmentEntry>)
    requires Demuxed(data, sourceLen) && SplitOf(cfg, data, sourceLen, segs) && SplitOf(cfg, data, sourceLen, others)
    ensures segs == others
  {
    hide Moov.Parsed, HoldsSamples, SamplesAt, IsSplit, VideoRaw, AudioRaw;
    var m := Moov.Parsed(data, sourceLen).value;
    Unique(VideoRaw(data, sourceLen), AudioRaw(data, sourceLen), m.video.timescale, m.audio.timescale,
           Nominal(cfg.nominalTicks), segs, others);
  }

  /** Nothing in the draft is too large for the format, given an init segment that fits. */
  predicate Storable(draft: IndexView) {
    && |draft.digest| == 32 && Listable(draft) && |Init.InitSegment(draft.video, draft.audio)| <= U64_MAX
    && |draft.videoSamples| <= U32_MAX && |draft.audioSamples| <= U32_MAX && |draft.segments| <= U32_MAX
  }

  /** These bytes are the image of the draft, completed with the size of its largest segment. */
  ghost predicate Publishes(cfg: Settings, draft: IndexView, data: bytes, image: bytes)
    requires Storable(draft)
  {
    && Init.Moov(draft.video, draft.audio).Sized() && AllServable(draft, data)
    && exists max: u32 :: LargestSegment(draft, data, |draft.segments|, max) && image == CompleteImage(cfg, draft, max)
  }

  ghost function CompleteImage(cfg: Settings, draft: IndexView, max: u32): bytes
    requires Storable(draft)
  {
    var view := Complete(draft, cfg.text, max);
    Image(cfg.host, view, view.playlist.value)
  }

  /** The playlist field is not stored from the view but given to the printer. */
  lemma ImageIgnoresPlaylistField(host: Endian, v: IndexView, w: IndexView, playlist: bytes)
    requires |v.digest| == 32 && w == v.(playlist := w.playlist)
    ensures Image(host, v, playlist) == Image(host, w, playlist)
  {
    hide VideoMeta, AudioMeta, TableSection, SampleRows, SegmentRows, Pieces;
  }

  /** The init segment of the draft fits, and so do all its segments. */
  predicate Publishable(draft: IndexView, data: bytes) {
    && Init.Moov(draft.video, draft.audio).Sized()
    && forall k :: 0 <= k < |draft.segments| ==> ServesSized(draft, k, data, U32_MAX)
  }

  /** Render init segment and playlist, dry-run every segment, and lay out the image. */
  method Publish(cfg: Settings, draft: IndexView, src: Source) returns (r: Result<bytes>)
    requires Storable(draft)
    ensures r.Ok? <==> Publishable(draft, src.data)
    ensures r.Ok? ==> Publishes(cfg, draft, src.data, r.value)
  {
    hide Init.Moov, Init.InitSegment, Listable, RenderedLines, Unlines, Servable, ServesSized, LargestSegment, Image;
    var initBytes :- RenderInit(draft.video, draft.audio);
    InitSize(draft.video, draft.audio);
    var playlist := RenderPlaylist(draft, cfg.text);
    var max :- DryRun(draft, src);
    var filled := draft.(maxSegmentSize := max, initBytes := initBytes);
    var image := Serialise(cfg.host, filled, playlist.value);
    ImageIgnoresPlaylistField(cfg.host, filled, Complete(draft, cfg.text, max), playlist.value);
    return Ok(image.value);
  }

  /** What is known of every draft. */
  lemma DraftFacts(cfg: Settings, data: bytes, sourceLen: u64, segs: seq<SegmentEntry>)
    requires Demuxed(data, sourceLen) && sourceLen <= |data| <= ISIZE_MAX && SplitOf(cfg, data, sourceLen, segs)
    ensures Storable(DraftView(cfg, data, sourceLen, segs))
    ensures DraftView(cfg, data, sourceLen, segs).segments == segs
  {
    hide Demuxed, Moov.Parsed, VideoRaw, AudioRaw, SplitOf, Listable, Init.InitSegment, VideoMetaOf, AudioMetaOf;
    SplitIsListable(cfg, data, sourceLen, segs);
    DraftBlobs(cfg, data, sourceLen, segs);
  }

  /** Completing a draft changes nothing that serving or the playlist depend on. */
  lemma CompleteServes(draft: IndexView, text: DurationText, max: u32, data: bytes, n: nat)
    requires Listable(draft) && n <= |draft.segments|
    ensures AllServable(draft, data) <==> AllServable(Complete(draft, text, max), data)
    ensures LargestSegment(draft, data, n, max) ==> LargestSegment(Complete(draft, text, max), data, n, max)
  {
    hide Listable, RenderedLines, Unlines, Servable, ServedBytes, Init.InitSegment;
    var view := Complete(draft, text, max);
    forall k | 0 <= k < |draft.segments|
      ensures Servable(draft, k, data) <==> Servable(view, k, data)
      ensures Servable(draft, k, data) ==> ServedBytes(draft, k, data) == ServedBytes(view, k, data)
      ensures ServesSized(draft, k, data, max) ==> ServesSized(view, k, data, max)
    {
      SameServing(draft, view, k, data);
    }
    if LargestSegment(draft, data, n, max) && n > 0 {
      var k :| 0 <= k < n && ServesExactly(draft, k, data, max);
      assert ServesExactly(view, k, data, max);
    }
  }

  /** A published draft is the index of its file. */
  lemma PublishedIsIndex(cfg: Settings, data: bytes, sourceLen: u64, segs: seq<SegmentEntry>, image: bytes)
    requires Demuxed(data, sourceLen) && sourceLen <= |data| && SplitOf(cfg, data, sourceLen, segs)
    requires Storable(DraftView(cfg, data, sourceLen, segs))
             && Publishes(cfg, DraftView(cfg, data, sourceLen, segs), data, image)
    ensures IsIndexOf(cfg, data, sourceLen, image)
  {
    hide Demuxed, Listable, RenderedLines, Unlines, Servable, LargestSegment, Image, SplitOf, Init.InitSegment,
         Init.Moov, VideoMetaOf, AudioMetaOf, Moov.Parsed, VideoRaw, AudioRaw;
    var draft := DraftView(cfg, data, sourceLen, segs);
    var max: u32 :| LargestSegment(draft, data, |draft.segments|, max) && image == CompleteImage(cfg, draft, max);
    CompleteServes(draft, cfg.text, max, data, |draft.segments|);
    assert Certified(cfg, data, sourceLen, Complete(draft, cfg.text, max));
  }

  /** Whether a build succeeds can be read off the one split of the file. */
  lemma BuildableBySplit(cfg: Settings, data: bytes, sourceLen: u64, segs: seq<SegmentEntry>)
    requires Demuxed(data, sourceLen) && sourceLen <= |data| && SplitOf(cfg, data, sourceLen, segs)
    ensures Buildable(cfg, data, sourceLen) <==> Publishable(DraftView(cfg, data, sourceLen, segs), data)
  {
    hide Moov.Parsed, HoldsSamples, SamplesAt, Init.Moov, ServesSized, VideoRaw, AudioRaw, IsSplit, VideoMetaOf,
         AudioMetaOf;
    if Buildable(cfg, data, sourceLen) {
      var others :| BuildableWith(cfg, data, sourceLen, others);
      OnlySplit(cfg, data, sourceLen, segs, others);
    }
    if forall k :: 0 <= k < |segs| ==> ServesSized(DraftView(cfg, data, sourceLen, segs), k, data, U32_MAX) {
      assert BuildableWith(cfg, data, sourceLen, segs);
    }
  }

  lemma BuildableSplits(cfg: Settings, data: bytes, sourceLen: u64)
    requires Buildable(cfg, data, sourceLen)
    ensures exists segs :: SplitOf(cfg, data, sourceLen, segs)
  {
    hide Demuxed, SplitOf, DraftView, ServesSized, Init.Moov;
    var segs :| BuildableWith(cfg, data, sourceLen, segs);
  }

  /**
   Build the index of a file. It succeeds exactly when the file demuxes, splits, and every segment can
   be served from it; what it returns is then the image of an index that is certified for that file.
   */
  method Build(cfg: Settings, src: Source, sourceLen: u64) returns (r: Result<bytes>)
    ensures r.Ok? <==> Buildable(cfg, src.data, sourceLen)
    ensures r.Ok? ==> IsIndexOf(cfg, src.data, sourceLen, r.value)
  {
    hide Demuxed, DraftView, SplitOf, ServesSized, Init.Moov, Storable, Publishes, IsIndexOf, BuildableWith,
         Moov.Parsed;
    if Buildable(cfg, src.data, sourceLen) {
      BuildableSplits(cfg, src.data, sourceLen);
    }
    var draft :- Draft(cfg, src, sourceLen);
    DraftFacts(cfg, src.data, sourceLen, draft.segments);
    BuildableBySplit(cfg, src.data, sourceLen, draft.segments);
    var image :- Publish(cfg, draft, src);
    PublishedIsIndex(cfg, src.data, sourceLen, draft.segments, image);
    return Ok(image);
  }
}
