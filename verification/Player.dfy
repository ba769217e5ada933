/**
 A player: it follows the playlist, asks for every name, and keeps the fragments that carry the id which
 the init segment gives to the track it wants. What it should get is said in terms of the file alone.
 */
module Player {
  import opened Boxes
  import opened Bytes
  import opened Format
  import opened FragmentReader
  import opened InitReader
  import opened MuxDemux
  import opened Playback
  import opened Playlist
  import opened Segment
  import opened SegmentNames
  import opened Sources
  import opened Wrappers

  // ---------- What a player does ----------

  /** The names in the playlist, as a player finds them. */
  function NamesIn(view: IndexView): seq<bytes>
    requires view.playlist.Some?
  {
    Uris(LinesOf(view.playlist.value))
  }

  /** The samples of all the fragments of one track. */
  function SamplesOf(fragments: seq<TrackFragment>, id: nat): seq<Sample> {
    if |fragments| == 0 then []
    else (if fragments[0].trackId == id then fragments[0].samples else []) + SamplesOf(fragments[1..], id)
  }

  /** What a player reads of one track when it asks for this name. */
  function Fetched(view: IndexView, data: bytes, name: bytes, id: nat): seq<Sample> {
    match ParseSegmentIdx(name)
    case None => []
    case Some(k) =>
      if !Servable(view, k, data) then []
      else
        match Served(view, data, k)
        case Err(_) => []
        case Ok(fragments) => SamplesOf(fragments, id)
  }

  /** What a player has read of one track after asking for these names in order. */
  function Watched(view: IndexView, data: bytes, names: seq<bytes>, id: nat): seq<Sample> {
    if |names| == 0 then []
    else Watched(view, data, names[..|names| - 1], id) + Fetched(view, data, names[|names| - 1], id)
  }

  /** The one track of a kind. */
  function TrackFor(tracks: seq<InitTrack>, handler: FourCC): Result<InitTrack> {
    if |tracks| == 0 then Err(MissingAtom)
    else if tracks[0].handler == handler then
      if TrackFor(tracks[1..], handler).Ok? then Err(MalformedAtom) else Ok(tracks[0])
    else TrackFor(tracks[1..], handler)
  }

  /** What a player gets to know of the track of a kind, and all the samples it gets of that track. */
  function Viewed(view: IndexView, data: bytes, handler: FourCC): Result<(InitTrack, seq<Sample>)>
    requires view.playlist.Some?
  {
    var movie :- ReadInit(view.initBytes);
    var track :- TrackFor(movie.tracks, handler);
    Ok((track, Watched(view, data, NamesIn(view), track.id)))
  }

  // ---------- What it should get ----------

  /** The bytes of every sample are in the file. */
  predicate InSource(data: bytes, raw: seq<RawSampleEntry>) {
    forall i :: 0 <= i < |raw| ==> Readable(data, raw[i].offset, raw[i].size)
  }

  /** A sample of the file as a player should see it. */
  function SourceSample(data: bytes, raw: RawSampleEntry, withCts: bool, sync: bool): Sample
    requires Readable(data, raw.offset, raw.size)
  {
    Sample(raw.dtsDelta, if withCts then raw.ctsOffset else 0, sync, Slice(data, raw.offset, raw.size))
  }

  function SourceRun(data: bytes, raw: seq<RawSampleEntry>, withCts: bool, syncs: seq<bool>): (r: seq<Sample>)
    requires InSource(data, raw) && |syncs| == |raw|
    ensures |r| == |raw|
    ensures forall i :: 0 <= i < |raw| ==> r[i] == SourceSample(data, raw[i], withCts, syncs[i])
  {
    seq(|raw|, i requires 0 <= i < |raw| => SourceSample(data, raw[i], withCts, syncs[i]))
  }

  // ---------- It does ----------

  /** The stored form of a track keeps everything a player needs. */
  lemma StoredRun(data: bytes, raw: seq<RawSampleEntry>, withCts: bool, syncs: seq<bool>)
    requires AllReadable(data, ToSampleEntries(raw)) && |syncs| == |raw|
    ensures InSource(data, raw)
    ensures ExpectedRun(data, ToSampleEntries(raw), withCts, syncs) == SourceRun(data, raw, withCts, syncs)
  {
    hide Slice, Readable;
    var es := ToSampleEntries(raw);
    forall i | 0 <= i < |raw|
      ensures Readable(data, raw[i].offset, raw[i].size)
    {
      assert Readable(data, es[i].offset, es[i].size);
    }
  }

  /** The two fragments of a segment are told apart by their ids. */
  lemma FragmentsByTrack(video: TrackFragment, audio: TrackFragment)
    requires video.trackId == VIDEO_TRACK_ID && audio.trackId == AUDIO_TRACK_ID
    ensures SamplesOf([video, audio], VIDEO_TRACK_ID) == video.samples
    ensures SamplesOf([video, audio], AUDIO_TRACK_ID) == audio.samples
  {
    assert [video, audio][1..] == [audio] && [audio][1..] == [];
    assert SamplesOf([], VIDEO_TRACK_ID) == SamplesOf([], AUDIO_TRACK_ID) == [];
    assert SamplesOf([audio], VIDEO_TRACK_ID) == [] && SamplesOf([audio], AUDIO_TRACK_ID) == audio.samples;
  }

  lemma FetchedSegment(view: IndexView, data: bytes, k: nat)
    requires k < U32_MAX && Servable(view, k, data) && HasInit(view)
    ensures Fetched(view, data, SegmentName(k), VIDEO_TRACK_ID) == VideoOf(view, data, k)
    ensures Fetched(view, data, SegmentName(k), AUDIO_TRACK_ID) == AudioOf(view, data, k)
  {
    hide Servable, Served, SegmentName, ParseSegmentIdx, HasInit, SamplesOf, VideoOf, AudioOf;
    NameReadsBack(k);
    ServedSegment(view, data, k);
    var served := Served(view, data, k).value;
    FragmentsByTrack(served[0], served[1]);
  }

  lemma {:induction false} WatchedIsPlayed(view: IndexView, data: bytes, n: nat)
    requires HasInit(view) && n <= |view.segments| <= U32_MAX && forall k :: 0 <= k < n ==> Servable(view, k, data)
    ensures Watched(view, data, Names(n), VIDEO_TRACK_ID) == Played(view, data, 0, n)
    ensures Watched(view, data, Names(n), AUDIO_TRACK_ID) == Played(view, data, 1, n)
    decreases n
  {
    hide Servable, Served, SegmentName, Fetched, HasInit, Played, VideoOf, AudioOf;
    if n == 0 {
      NothingPlayed(view, data);
    } else {
      WatchedIsPlayed(view, data, n - 1);
      FetchedSegment(view, data, n - 1);
      PlayedStep(view, data, n);
      assert Names(n)[..n - 1] == Names(n - 1);
    }
  }
}
