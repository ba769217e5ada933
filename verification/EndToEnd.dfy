/** From the image of an index to what a player sees: the theorems of the parts, put together. */
module EndToEnd {
  import opened Boxes
  import opened Bytes
  import opened Builder
  import opened Format
  import opened FragmentReader
  import opened Idx
  import opened IdxBuilder
  import opened IdxRoundTrip
  import opened InitLaws
  import opened InitReader
  import opened InitReading
  import opened InitRoundTrip
  import opened MuxDemux
  import opened Playback
  import opened Player
  import opened Playlist
  import opened PlaylistReader
  import opened SampleTable
  import opened Segment
  import opened SegmentNames
  import opened Sources
  import opened Splitter
  import opened SplitLaws
  import opened SyncLaws
  import opened Wrappers
  import Init
  import Moov

  /** A certified index has room for everything it stores. */
  lemma CertifiedStores(cfg: Settings, data: bytes, sourceLen: u64, view: IndexView)
    requires Certified(cfg, data, sourceLen, view)
    ensures |view.digest| == 32 && Encodable(view) && view.playlist.Some?
    ensures |view.playlist.value| > 0 && |view.playlist.value| % 8 == 0
  {
    hide Demuxed, SplitOf, Listable, RenderedLines, Unlines, AllServable, LargestSegment, Init.InitSegment, Init.Moov,
         VideoRaw, AudioRaw, VideoMetaOf, AudioMetaOf, Moov.Parsed;
    SplitIsListable(cfg, data, sourceLen, view.segments);
    InitSize(view.video, view.audio);
    RenderedAligned(DraftView(cfg, data, sourceLen, view.segments), cfg.text);
  }

  /** A certified index names the file it is for: by its length, and by the digest of all of it. */
  lemma IndexIdentifies(cfg: Settings, data: bytes, sourceLen: u64, view: IndexView)
    requires Certified(cfg, data, sourceLen, view)
    ensures view.sourceLen == sourceLen <= |data| && view.digest == cfg.digest(data[..sourceLen])
  {
    hide Demuxed, SplitOf, Listable, RenderedLines, Unlines, AllServable, LargestSegment, Init.InitSegment, Init.Moov,
         VideoRaw, AudioRaw, VideoMetaOf, AudioMetaOf, Moov.Parsed;
  }

  /** Opening what a build returned gives back the certified index. */
  lemma BuiltImageOpens(cfg: Settings, data: bytes, sourceLen: u64, image: bytes)
    requires IsIndexOf(cfg, data, sourceLen, image) && |image| <= U64_MAX
    ensures Parse(cfg.host, image).Ok? && Certified(cfg, data, sourceLen, Parse(cfg.host, image).value)
  {
    hide Certified, Image, Parse, Encodable;
    var view :| Certified(cfg, data, sourceLen, view) && HasImage(cfg.host, view, image);
    CertifiedStores(cfg, data, sourceLen, view);
    RoundTripExact(cfg.host, view, view.playlist.value);
    assert view.(playlist := Some(view.playlist.value)) == view;
  }

  /** The segments of a certified index tile both tables. */
  lemma CertifiedTiles(cfg: Settings, data: bytes, sourceLen: u64, view: IndexView)
    requires Certified(cfg, data, sourceLen, view)
    ensures Tiled(view)
  {
    hide Listable, RenderedLines, Unlines, AllServable, LargestSegment, Init.InitSegment, Init.Moov, VideoRaw,
         AudioRaw, VideoMetaOf, AudioMetaOf, Moov.Parsed, IsSplit, HoldsSamples;
    var m := Moov.Parsed(data, sourceLen).value;
    Partition(VideoRaw(data, sourceLen), AudioRaw(data, sourceLen), m.video.timescale, m.audio.timescale,
              Nominal(cfg.nominalTicks), view.segments);
  }

  lemma CertifiedHasInit(cfg: Settings, data: bytes, sourceLen: u64, view: IndexView)
    requires Certified(cfg, data, sourceLen, view)
    ensures HasInit(view)
  {
    hide Demuxed, SplitOf, Listable, RenderedLines, Unlines, AllServable, LargestSegment, Init.InitSegment, Init.Moov,
         DraftView;
  }

  /** Name `k` of the playlist asks for segment `k`, which can be served and keeps to the size bound. */
  predicate NameServes(view: IndexView, data: bytes, k: nat)
    requires view.playlist.Some?
  {
    && k < |NamesIn(view)| && ParseSegmentIdx(NamesIn(view)[k]) == Some(k)
    && ServesSized(view, k, data, view.maxSegmentSize)
  }

  /** The playlist names every segment, in order. */
  predicate NamesServe(view: IndexView, data: bytes) {
    && view.playlist.Some? && |NamesIn(view)| == |view.segments|
    && forall k :: 0 <= k < |view.segments| ==> NameServes(view, data, k)
  }

  /** The playlist of a certified index names all its segments in order, and the server takes every name. */
  lemma PlaylistLeadsToSegments(cfg: Settings, data: bytes, sourceLen: u64, view: IndexView)
    requires Certified(cfg, data, sourceLen, view) && NoLineBreaks(cfg.text)
    ensures NamesServe(view, data)
  {
    hide Demuxed, SplitOf, Listable, RenderedLines, Unlines, Servable, ServedBytes, Init.InitSegment, Init.Moov,
         VideoRaw, AudioRaw, VideoMetaOf, AudioMetaOf, Moov.Parsed, ParseSegmentIdx, Uris, LinesOf, NoLineBreaks;
    SplitIsListable(cfg, data, sourceLen, view.segments);
    var draft := DraftView(cfg, data, sourceLen, view.segments);
    ReaderFindsSegments(draft, cfg.text);
    forall k | 0 <= k < |view.segments|
      ensures NameServes(view, data, k)
    {
      PlaylistNamesSegments(draft, cfg.text, k);
    }
  }

  /**
   Following the playlist gives exactly these samples of the file. Composition offsets come with the video
   only; of the video the samples that start a segment are sync, of the audio every one.
   */
  predicate WatchesAll(view: IndexView, data: bytes, video: seq<RawSampleEntry>, audio: seq<RawSampleEntry>) {
    && view.playlist.Some? && InSource(data, video) && InSource(data, audio)
    && Watched(view, data, NamesIn(view), VIDEO_TRACK_ID) == SourceRun(data, video, true, StartFlags(view, |video|))
    && Watched(view, data, NamesIn(view), AUDIO_TRACK_ID) == SourceRun(data, audio, false, AllSync(|audio|))
  }

  /** Following the playlist plays the two tracks of this file. */
  ghost predicate WatchesFile(view: IndexView, data: bytes, sourceLen: u64) {
    Demuxed(data, sourceLen) && WatchesAll(view, data, VideoRaw(data, sourceLen), AudioRaw(data, sourceLen))
  }

  /** The tracks of the file as the init segment should describe them. */
  function VideoDescription(data: bytes, t: Moov.ParsedTrack): InitTrack
    requires InFile(data, t.sampleEntry)
  {
    InitTrack(VIDEO_TRACK_ID, Code("vide"), Ascii("VideoHandler"), t.timescale, Ascii("und"), 0, t.width, t.height,
              Blob(data, t.sampleEntry))
  }

  function AudioDescription(data: bytes, t: Moov.ParsedTrack): InitTrack
    requires InFile(data, t.sampleEntry)
  {
    InitTrack(AUDIO_TRACK_ID, Code("soun"), Ascii("SoundHandler"), t.timescale, Ascii("und"), 0x100, 0, 0,
              Blob(data, t.sampleEntry))
  }

  /** Both edit lists of the file, where it has them, state their size. */
  ghost predicate EditsStateSize(data: bytes, sourceLen: nat)
    requires Demuxed(data, sourceLen)
  {
    var m := Moov.Parsed(data, sourceLen).value;
    StatesSize(ElstOf(data, m.video)) && StatesSize(ElstOf(data, m.audio))
  }

  /**
   A player that wants the video of this file gets its description and exactly its samples, and likewise
   for the audio, if the edit lists of the file state their size; else it finds no media for some track.
   */
  ghost predicate ViewsFile(view: IndexView, data: bytes, sourceLen: u64)
    requires WatchesFile(view, data, sourceLen)
  {
    var m := Moov.Parsed(data, sourceLen).value;
    var video, audio := VideoRaw(data, sourceLen), AudioRaw(data, sourceLen);
    if EditsStateSize(data, sourceLen) then
      && Viewed(view, data, Code("vide"))
         == Ok((VideoDescription(data, m.video), SourceRun(data, video, true, StartFlags(view, |video|))))
      && Viewed(view, data, Code("soun"))
         == Ok((AudioDescription(data, m.audio), SourceRun(data, audio, false, AllSync(|audio|))))
    else
      && Viewed(view, data, Code("vide")) == Err(MissingAtom)
      && Viewed(view, data, Code("soun")) == Err(MissingAtom)
  }

  /** Following the playlist plays both tracks of this file, and a player can tell them apart as far as it can be. */
  ghost predicate PlaysTracks(view: IndexView, data: bytes, sourceLen: u64) {
    WatchesFile(view, data, sourceLen) && ViewsFile(view, data, sourceLen)
  }

  /** The image opens, and a player gets the two tracks of this file from it. */
  ghost predicate PlaysFile(host: Endian, image: bytes, data: bytes, sourceLen: u64) {
    Parse(host, image).Ok? && PlaysTracks(Parse(host, image).value, data, sourceLen)
  }

  /** What an index certifies is enough to play the file. */
  lemma CertifiedWatchesAll(cfg: Settings, data: bytes, sourceLen: u64, view: IndexView)
    requires Certified(cfg, data, sourceLen, view) && NoLineBreaks(cfg.text)
    ensures WatchesFile(view, data, sourceLen)
  {
    hide Demuxed, SplitOf, Listable, RenderedLines, Unlines, Servable, ServedBytes, Init.InitSegment, Init.Moov,
         VideoRaw, AudioRaw, VideoMetaOf, AudioMetaOf, Moov.Parsed, ParseSegmentIdx, Uris, LinesOf, NoLineBreaks,
         Played, Watched, ExpectedRun, SourceRun, InSource, Tiled, HasInit, LargestSegment, StartFlags, AllReadable;
    CertifiedTiles(cfg, data, sourceLen, view);
    CertifiedHasInit(cfg, data, sourceLen, view);
    SplitIsListable(cfg, data, sourceLen, view.segments);
    ReaderFindsSegments(DraftView(cfg, data, sourceLen, view.segments), cfg.text);
    WatchedIsPlayed(view, data, |view.segments|);
    PlaysEverything(view, data);
    var video, audio := VideoRaw(data, sourceLen), AudioRaw(data, sourceLen);
    StoredRun(data, video, true, StartFlags(view, |video|));
    StoredRun(data, audio, false, AllSync(|audio|));
  }

  /** The init segment of a certified index can be read back. */
  lemma CertifiedWritable(cfg: Settings, data: bytes, sourceLen: u64, view: IndexView)
    requires Certified(cfg, data, sourceLen, view)
    ensures Writable(view.video, view.audio) && view.initBytes == Init.InitSegment(view.video, view.audio)
    ensures view.video.width <= 0xFFFF && view.video.height <= 0xFFFF
  {
    hide SplitOf, Listable, RenderedLines, Unlines, AllServable, LargestSegment, Init.InitSegment, Init.Moov,
         HoldsSamples, Moov.Parsed, EditBox, EntryBox;
    ParsedFacts(data, sourceLen);
  }

  /** The stored tracks are described as the file describes them. */
  ghost predicate Describes(view: IndexView, data: bytes, sourceLen: nat) {
    && Demuxed(data, sourceLen)
    && var m := Moov.Parsed(data, sourceLen).value;
       && TrackOf(Init.Video(view.video)) == VideoDescription(data, m.video)
       && TrackOf(Init.Audio(view.audio)) == AudioDescription(data, m.audio)
  }

  /** What the init segment says of the two tracks is what the file says. */
  lemma CertifiedDescribes(cfg: Settings, data: bytes, sourceLen: u64, view: IndexView)
    requires Certified(cfg, data, sourceLen, view)
    ensures Describes(view, data, sourceLen)
  {
    hide SplitOf, Listable, RenderedLines, Unlines, AllServable, LargestSegment, Init.InitSegment, Init.Moov,
         HoldsSamples, Moov.Parsed, Code, Blob, InFile, Writable;
    CertifiedWritable(cfg, data, sourceLen, view);
  }

  /** Handlers tell the two tracks of an init segment apart. */
  lemma TracksByHandler(v: VideoTrackMeta, a: AudioTrackMeta)
    ensures TrackFor(MovieOf(v, a).tracks, Code("vide")) == Ok(TrackOf(Init.Video(v)))
    ensures TrackFor(MovieOf(v, a).tracks, Code("soun")) == Ok(TrackOf(Init.Audio(a)))
  {
    hide Code;
    assert Num(Code("vide")) == 0x7669_6465 && Num(Code("soun")) == 0x736F_756E;
    var x, y := TrackOf(Init.Video(v)), TrackOf(Init.Audio(a));
    assert [x, y][1..] == [y] && [y][1..] == [];
    assert TrackFor([], Code("vide")).Err? && TrackFor([], Code("soun")).Err?;
    assert TrackFor([y], Code("vide")).Err? && TrackFor([y], Code("soun")) == Ok(y);
  }

  lemma CertifiedViews(cfg: Settings, data: bytes, sourceLen: u64, view: IndexView)
    requires Certified(cfg, data, sourceLen, view) && NoLineBreaks(cfg.text)
    ensures PlaysTracks(view, data, sourceLen)
  {
    hide SplitOf, Listable, RenderedLines, Unlines, AllServable, LargestSegment, Init.InitSegment, HoldsSamples,
         Moov.Parsed, Code, Blob, InFile, Writable, VideoDescription, AudioDescription, TrackFor, MovieOf, TrackOf,
         ReadInit, Watched, NamesIn, SourceRun, StartFlags, StatesSize, VideoRaw, AudioRaw, InSource, NoLineBreaks,
         Init.Moov;
    CertifiedWatchesAll(cfg, data, sourceLen, view);
    CertifiedWritable(cfg, data, sourceLen, view);
    CertifiedDescribes(cfg, data, sourceLen, view);
    InitReads(view.video, view.audio);
    TracksByHandler(view.video, view.audio);
    TrackIds(view.video, view.audio);
  }

  lemma TrackIds(v: VideoTrackMeta, a: AudioTrackMeta)
    ensures TrackOf(Init.Video(v)).id == VIDEO_TRACK_ID && TrackOf(Init.Audio(a)).id == AUDIO_TRACK_ID
  {
    hide Code;
  }

  /**
   The service as a whole. Whatever file an image was built from, a player that opens the image, looks the
   ids of its tracks up in the init segment and asks for the names in the playlist one by one gets exactly
   the samples of the file's two tracks, in order, with their bytes, durations and (for video) composition
   offsets, together with the sample entry they are decoded with.
   */
  lemma PlayerGetsSource(cfg: Settings, data: bytes, sourceLen: u64, image: bytes)
    requires IsIndexOf(cfg, data, sourceLen, image) && |image| <= U64_MAX && NoLineBreaks(cfg.text)
    ensures PlaysFile(cfg.host, image, data, sourceLen)
  {
    hide Parse, Certified, IsIndexOf, PlaysTracks, NoLineBreaks;
    BuiltImageOpens(cfg, data, sourceLen, image);
    CertifiedViews(cfg, data, sourceLen, Parse(cfg.host, image).value);
  }

  /** What was read carries the sync flags of the file. */
  ghost predicate FlagsAre(read: seq<Sample>, raw: seq<RawSampleEntry>) {
    |read| == |raw| && forall i :: 0 <= i < |raw| ==> read[i].sync == raw[i].isSync
  }

  /** When a player sees the sync samples of the file: a condition on the file alone, for either track. */
  ghost predicate SyncsExactly(view: IndexView, data: bytes, sourceLen: u64, nominal: nat) {
    && Demuxed(data, sourceLen) && view.playlist.Some?
    && var video, audio := VideoRaw(data, sourceLen), AudioRaw(data, sourceLen);
       && (FlagsAre(Watched(view, data, NamesIn(view), VIDEO_TRACK_ID), video) <==> SyncsFarApart(video, nominal))
       && (FlagsAre(Watched(view, data, NamesIn(view), AUDIO_TRACK_ID), audio) <==> EverySync(audio))
  }

  predicate EverySync(raw: seq<RawSampleEntry>) {
    forall i :: 0 <= i < |raw| ==> raw[i].isSync
  }

  /** The video flags of what was played are where segments start. */
  lemma VideoSyncsAre(view: IndexView, data: bytes, raw: seq<RawSampleEntry>)
    requires InSource(data, raw)
    ensures FlagsAre(SourceRun(data, raw, true, StartFlags(view, |raw|)), raw) <==> StartsAreSyncs(view, raw)
  {
    hide StartsAt;
    var read := SourceRun(data, raw, true, StartFlags(view, |raw|));
    assert forall i :: 0 <= i < |raw| ==> read[i].sync == StartsAt(view, i);
  }

  lemma AudioSyncsAre(data: bytes, raw: seq<RawSampleEntry>)
    requires InSource(data, raw)
    ensures FlagsAre(SourceRun(data, raw, false, AllSync(|raw|)), raw) <==> EverySync(raw)
  {
    var read := SourceRun(data, raw, false, AllSync(|raw|));
    assert forall i :: 0 <= i < |raw| ==> read[i].sync;
  }

  /**
   A player that follows the playlist sees the sync samples of the file's video exactly when no two of
   them are closer than the nominal duration, and those of the audio exactly when all of it is sync.
   */
  lemma PlayerGetsSyncs(cfg: Settings, data: bytes, sourceLen: u64, view: IndexView)
    requires Certified(cfg, data, sourceLen, view) && NoLineBreaks(cfg.text)
    ensures SyncsExactly(view, data, sourceLen, Nominal(cfg.nominalTicks))
  {
    hide HoldsSamples, Listable, RenderedLines, Unlines, AllServable, Init.InitSegment, Init.Moov, VideoRaw,
         AudioRaw, InSource, Moov.Parsed, IsSplit, LargestSegment, BlobsReadable, ElstOf, Watched, SourceRun,
         Tiled, StartFlags, FlagsAre, EverySync, StartsAreSyncs, SyncsFarApart, NoLineBreaks, NamesIn;
    CertifiedWatchesAll(cfg, data, sourceLen, view);
    CertifiedTiles(cfg, data, sourceLen, view);
    VideoSyncsAre(view, data, VideoRaw(data, sourceLen));
    AudioSyncsAre(data, AudioRaw(data, sourceLen));
    FileSyncsSurvive(view, VideoRaw(data, sourceLen), AudioRaw(data, sourceLen), Nominal(cfg.nominalTicks));
  }

  /** Fragment `f` plays the samples of `raw` from `start` on, each at its own time. */
  ghost predicate OnTime(f: TrackFragment, raw: seq<RawSampleEntry>, start: nat, count: nat) {
    && |f.samples| == count && start + count <= |raw|
    && forall j :: 0 <= j <= count ==> DecodeTime(f, j) == Dts(raw, start + j)
  }

  /** Segment `k` plays its samples at their own times. */
  ghost predicate KeepsTime(view: IndexView, data: bytes, sourceLen: u64, k: nat) {
    && Demuxed(data, sourceLen) && Servable(view, k, data)
    && var served, s := Served(view, data, k), view.segments[k];
       && served.Ok? && |served.value| == 2
       && OnTime(served.value[0], VideoRaw(data, sourceLen), s.videoStart, s.videoCount)
       && OnTime(served.value[1], AudioRaw(data, sourceLen), s.audioStart, s.audioCount)
  }

  /** Every served sample decodes at its own time in the file, and segments join without gap or overlap. */
  lemma PlayerKeepsTime(cfg: Settings, data: bytes, sourceLen: u64, view: IndexView, k: nat)
    requires Certified(cfg, data, sourceLen, view) && k < |view.segments|
    ensures KeepsTime(view, data, sourceLen, k)
  {
    hide HoldsSamples, Listable, RenderedLines, Unlines, Servable, Served, Init.InitSegment, Init.Moov, VideoRaw,
         AudioRaw, AllReadable, Moov.Parsed, IsSplit, LargestSegment, Dts, DecodeTime, BlobsReadable, ElstOf,
         HasInit;
    var m := Moov.Parsed(data, sourceLen).value;
    SplitTimes(VideoRaw(data, sourceLen), AudioRaw(data, sourceLen), m.video.timescale, m.audio.timescale,
               Nominal(cfg.nominalTicks), view.segments, k);
    CertifiedHasInit(cfg, data, sourceLen, view);
    TimelineIsSource(view, data, VideoRaw(data, sourceLen), AudioRaw(data, sourceLen), Nominal(cfg.nominalTicks), k);
  }

  /** How long segment `k` lasts, by the start times of the file's video samples. */
  function Lasting(video: seq<RawSampleEntry>, s: SegmentEntry): nat
    requires s.videoStart + s.videoCount <= |video|
  {
    DtsMonotone(video, s.videoStart, s.videoStart + s.videoCount);
    Dts(video, s.videoStart + s.videoCount) - Dts(video, s.videoStart)
  }

  /** This entry asks for segment `k` and says how long it lasts. */
  predicate EntryTells(e: Entry, video: seq<RawSampleEntry>, segs: seq<SegmentEntry>, k: nat, timescale: nat,
                       text: DurationText)
    requires k < |segs|
  {
    && ParseSegmentIdx(e.uri) == Some(k)
    && segs[k].videoStart + segs[k].videoCount <= |video|
    && e.duration == text(Lasting(video, segs[k]), timescale)
  }

  /** A reader of the playlist learns where everything is and how long it lasts. */
  ghost predicate TellsTimes(view: IndexView, video: seq<RawSampleEntry>, timescale: nat, text: DurationText) {
    && view.playlist.Some?
    && var read := ReadPlaylist(view.playlist.value);
       && read.Ok? && read.value.init == Some(Ascii("init.mp4")) && read.value.ended
       && |read.value.entries| == |view.segments|
       && forall k :: 0 <= k < |view.segments| ==>
                        EntryTells(read.value.entries[k], video, view.segments, k, timescale, text)
  }

  /** The times that the playlist tells are those of the file's video. */
  ghost predicate TellsFile(view: IndexView, data: bytes, sourceLen: nat, text: DurationText) {
    && Demuxed(data, sourceLen)
    && TellsTimes(view, VideoRaw(data, sourceLen), Moov.Parsed(data, sourceLen).value.video.timescale, text)
  }

  lemma EntriesTell(view: IndexView, video: seq<RawSampleEntry>, text: DurationText, k: nat)
    requires Listable(view) && view.videoSamples == ToSampleEntries(video) && k < |view.segments|
    requires |view.segments| <= U32_MAX
    requires view.segments[k].videoStart + view.segments[k].videoCount <= |video|
    ensures EntryTells(Announced(view, text).entries[k], video, view.segments, k, view.video.timescale, text)
  {
    hide SegmentName, ParseSegmentIdx, Dts, SegmentTicks, ToSampleEntries;
    NameReadsBack(k);
    TicksOf(view.segments[k], video);
  }

  /**
   A reader of the stored playlist finds one entry for each segment, which asks the server for it and says
   how long its video lasts in the file; the init segment where the server has it; and the end.
   */
  lemma PlaylistTellsTimes(cfg: Settings, data: bytes, sourceLen: u64, view: IndexView)
    requires Certified(cfg, data, sourceLen, view) && NoLineBreaks(cfg.text) && NoCommas(cfg.text)
    ensures TellsFile(view, data, sourceLen, cfg.text)
  {
    hide RenderedLines, Unlines, AllServable, Init.InitSegment, Init.Moov, IsSplit, LargestSegment, BlobsReadable,
         VideoRaw, AudioRaw, Moov.Parsed, ParseSegmentIdx, NoLineBreaks, NoCommas, ReadPlaylist, Dts, SegmentTicks,
         HoldsSamples, ElstOf, EntryTells;
    SplitIsListable(cfg, data, sourceLen, view.segments);
    var draft, m := DraftView(cfg, data, sourceLen, view.segments), Moov.Parsed(data, sourceLen).value;
    ReaderGetsPlaylist(draft, cfg.text);
    forall k | 0 <= k < |view.segments|
      ensures EntryTells(Announced(draft, cfg.text).entries[k], VideoRaw(data, sourceLen), view.segments, k,
                         m.video.timescale, cfg.text)
    {
      RowTimes(VideoRaw(data, sourceLen), AudioRaw(data, sourceLen), m.video.timescale, m.audio.timescale,
               Nominal(cfg.nominalTicks), view.segments, k);
      EntriesTell(draft, VideoRaw(data, sourceLen), cfg.text, k);
    }
  }

  /** The stored init segment describes the tracks of the file, unless an edit list does not state its size. */
  lemma InitDescribesFile(cfg: Settings, data: bytes, sourceLen: u64, view: IndexView)
    requires Certified(cfg, data, sourceLen, view)
    ensures ParsesTo(view.initBytes, |view.initBytes|, (view.video, view.audio))
            <==> StatesSize(view.video.elst) && StatesSize(view.audio.elst)
  {
    hide SplitOf, Listable, RenderedLines, Unlines, AllServable, LargestSegment, Init.InitSegment, Init.Moov,
         VideoRaw, AudioRaw, Moov.Parsed, StatesSize, HoldsSamples;
    InitReadsBack(data, sourceLen, view.video, view.audio);
  }
}
