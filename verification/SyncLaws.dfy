/**
 Which sync flags of the file a player still sees. A segment marks its first video sample as sync and
 no other, and all of its audio; the flags in the index are not written.
 */
module SyncLaws {
  import opened Bytes
  import opened Format
  import opened FragmentReader
  import opened Playback
  import opened Segment
  import opened SplitLaws

  /** The samples that were read carry the sync flags of the index. */
  ghost predicate SyncsAre(read: seq<Sample>, samples: seq<SampleEntry>) {
    |read| == |samples| && forall j :: 0 <= j < |read| ==> read[j].sync == samples[j].IsSync()
  }

  /** A video sample of a served segment reads as sync exactly when it is the first; an audio sample always does. */
  lemma ServedSyncs(view: IndexView, data: bytes, k: nat)
    requires Servable(view, k, data) && HasInit(view)
    ensures var served := Served(view, data, k);
            && served.Ok? && |served.value| == 2
            && |served.value[0].samples| == |PartsOf(view, k).video|
            && |served.value[1].samples| == |PartsOf(view, k).audio|
            && (forall j :: 0 <= j < |PartsOf(view, k).video| ==> (served.value[0].samples[j].sync <==> j == 0))
            && (forall j :: 0 <= j < |PartsOf(view, k).audio| ==> served.value[1].samples[j].sync)
  {
    hide Served, Fits, HasInit;
    ServedSegment(view, data, k);
  }

  /** No sample but the first is sync. */
  predicate FirstAlone(samples: seq<SampleEntry>) {
    forall j :: 0 < j < |samples| ==> !samples[j].IsSync()
  }

  /** The sync flags of the video of segment `k` are those in the index. */
  ghost predicate VideoSyncsKept(view: IndexView, data: bytes, k: nat)
    requires Servable(view, k, data)
  {
    var served := Served(view, data, k);
    served.Ok? && |served.value| == 2 && SyncsAre(served.value[0].samples, PartsOf(view, k).video)
  }

  ghost predicate AudioSyncsKept(view: IndexView, data: bytes, k: nat)
    requires Servable(view, k, data)
  {
    var served := Served(view, data, k);
    served.Ok? && |served.value| == 2 && SyncsAre(served.value[1].samples, PartsOf(view, k).audio)
  }

  predicate FirstIsSync(samples: seq<SampleEntry>) {
    |samples| > 0 && samples[0].IsSync()
  }

  predicate EveryIsSync(samples: seq<SampleEntry>) {
    forall j :: 0 <= j < |samples| ==> samples[j].IsSync()
  }

  /** Flags read as "only the first" are those of the samples exactly when only the first is sync. */
  lemma FirstOnlyAre(read: seq<Sample>, samples: seq<SampleEntry>)
    requires |read| == |samples| > 0 && forall j :: 0 <= j < |read| ==> (read[j].sync <==> j == 0)
    ensures SyncsAre(read, samples) <==> FirstIsSync(samples) && FirstAlone(samples)
  {
    hide SampleEntry.IsSync;
    assert read[0].sync;
    if SyncsAre(read, samples) {
      forall j | 0 < j < |samples|
        ensures !samples[j].IsSync()
      {
        assert !read[j].sync;
      }
    }
  }

  lemma AllSyncAre(read: seq<Sample>, samples: seq<SampleEntry>)
    requires |read| == |samples| && forall j :: 0 <= j < |read| ==> read[j].sync
    ensures SyncsAre(read, samples) <==> EveryIsSync(samples)
  {
    hide SampleEntry.IsSync;
    if SyncsAre(read, samples) {
      forall j | 0 <= j < |samples|
        ensures samples[j].IsSync()
      {
        assert read[j].sync;
      }
    }
  }

  /**
   The flags of a segment survive on the video track exactly when its first sample is sync and no other
   is, and on the audio track exactly when all samples are.
   */
  lemma SegmentSyncsSurvive(view: IndexView, data: bytes, k: nat)
    requires Servable(view, k, data) && HasInit(view)
    ensures VideoSyncsKept(view, data, k)
            <==> FirstIsSync(PartsOf(view, k).video) && FirstAlone(PartsOf(view, k).video)
    ensures AudioSyncsKept(view, data, k) <==> EveryIsSync(PartsOf(view, k).audio)
  {
    hide Served, Fits, HasInit, SyncsAre, FirstIsSync, FirstAlone, EveryIsSync;
    ServedSyncs(view, data, k);
    FirstOnlyAre(Served(view, data, k).value[0].samples, PartsOf(view, k).video);
    AllSyncAre(Served(view, data, k).value[1].samples, PartsOf(view, k).audio);
  }

  /** Storing a sample keeps its sync flag. */
  lemma StoredSyncs(raw: seq<RawSampleEntry>, i: nat)
    requires i < |raw|
    ensures ToSampleEntries(raw)[i].IsSync() == raw[i].isSync
  {}

  /** Every segment of a split starts on a sync sample, so its video flags survive exactly when no later one is sync. */
  lemma SplitSyncsSurvive(view: IndexView, data: bytes, video: seq<RawSampleEntry>, audio: seq<RawSampleEntry>,
                          nominal: nat, k: nat)
    requires view.videoSamples == ToSampleEntries(video)
    requires IsSplit(video, audio, view.video.timescale, view.audio.timescale, nominal, view.segments)
    requires Servable(view, k, data) && HasInit(view)
    ensures FirstIsSync(PartsOf(view, k).video)
    ensures VideoSyncsKept(view, data, k) <==> FirstAlone(PartsOf(view, k).video)
  {
    hide Served, Fits, HasInit, SampleEntry.IsSync, IsSplit, Closes, FirstAlone, VideoSyncsKept;
    SegmentSyncsSurvive(view, data, k);
    Greedy(video, audio, view.video.timescale, view.audio.timescale, nominal, view.segments, k);
    StoredSyncs(video, view.segments[k].videoStart);
    assert PartsOf(view, k).video[0] == view.videoSamples[view.segments[k].videoStart];
  }

  // ---------- The whole file ----------

  /** Any two sync samples lie at least one nominal duration apart. */
  ghost predicate SyncsFarApart(video: seq<RawSampleEntry>, nominal: nat) {
    forall i, j :: 0 <= i < j < |video| ==> FarApart(video, nominal, i, j)
  }

  predicate FarApart(video: seq<RawSampleEntry>, nominal: nat, i: nat, j: nat)
    requires i < |video| && j < |video|
  {
    video[i].isSync && video[j].isSync ==> Dts(video, j) >= Dts(video, i) + nominal
  }

  /** A player that plays all segments sees the sync flags of the file. */
  predicate StartsAreSyncs(view: IndexView, video: seq<RawSampleEntry>) {
    forall i :: 0 <= i < |video| ==> (StartsAt(view, i) <==> video[i].isSync)
  }

  /** Every sample of a tiled table lies in some segment. */
  lemma {:induction false} SegmentOf(view: IndexView, i: nat, n: nat) returns (k: nat)
    requires Tiled(view) && 0 < n <= |view.segments| && i < VideoEnd(view, n)
    ensures k < n && view.segments[k].videoStart <= i < view.segments[k].videoStart + view.segments[k].videoCount
    decreases n
  {
    if view.segments[n - 1].videoStart <= i {
      k := n - 1;
    } else {
      assert view.segments[n - 2].videoStart + view.segments[n - 2].videoCount == view.segments[n - 1].videoStart;
      k := SegmentOf(view, i, n - 1);
    }
  }

  /** Two segments of a split start at least one nominal duration apart. */
  lemma {:induction false} StartsFarApart(view: IndexView, video: seq<RawSampleEntry>, audio: seq<RawSampleEntry>,
                                          nominal: nat, j: nat, k: nat)
    requires Tiled(view) && |view.videoSamples| == |video|
    requires IsSplit(video, audio, view.video.timescale, view.audio.timescale, nominal, view.segments)
    requires j < k < |view.segments|
    ensures view.segments[j].videoStart < view.segments[k].videoStart < |video|
    ensures Dts(video, view.segments[k].videoStart) >= Dts(video, view.segments[j].videoStart) + nominal
  {
    hide IsSplit, Dts;
    Greedy(video, audio, view.video.timescale, view.audio.timescale, nominal, view.segments, j);
    Greedy(video, audio, view.video.timescale, view.audio.timescale, nominal, view.segments, k);
    StartsIncrease(view, j, k);
    var next := view.segments[j].videoStart + view.segments[j].videoCount;
    DtsMonotone(video, next, view.segments[k].videoStart);
  }

  /**
   A player that plays all segments sees exactly the sync samples of the file, if and only if the file
   has no two sync samples that are closer than the nominal duration.
   */
  lemma FileSyncsSurvive(view: IndexView, video: seq<RawSampleEntry>, audio: seq<RawSampleEntry>, nominal: nat)
    requires Tiled(view) && |view.videoSamples| == |video|
    requires IsSplit(video, audio, view.video.timescale, view.audio.timescale, nominal, view.segments)
    ensures StartsAreSyncs(view, video) <==> SyncsFarApart(video, nominal)
  {
    hide IsSplit, Dts, StartsAt, SyncsFarApart, Tiled;
    if StartsAreSyncs(view, video) {
      StartsForceDistance(view, video, audio, nominal);
    }
    if SyncsFarApart(video, nominal) {
      forall i | 0 <= i < |video|
        ensures StartsAt(view, i) <==> video[i].isSync
      {
        DistanceForcesStarts(view, video, audio, nominal, i);
      }
    }
  }

  lemma StartsOrdered(view: IndexView, j: nat, k: nat)
    requires Tiled(view) && j < |view.segments| && k < |view.segments|
    requires view.segments[j].videoStart < view.segments[k].videoStart
    ensures j < k
  {
    if k < j {
      StartsIncrease(view, k, j);
    }
  }

  lemma StartsForceDistance(view: IndexView, video: seq<RawSampleEntry>, audio: seq<RawSampleEntry>, nominal: nat)
    requires Tiled(view) && |view.videoSamples| == |video|
    requires IsSplit(video, audio, view.video.timescale, view.audio.timescale, nominal, view.segments)
    requires StartsAreSyncs(view, video)
    ensures SyncsFarApart(video, nominal)
  {
    hide IsSplit, Dts, Tiled;
    forall i, j | 0 <= i < j < |video|
      ensures FarApart(video, nominal, i, j)
    {
      if video[i].isSync && video[j].isSync {
        var a :| 0 <= a < |view.segments| && view.segments[a].videoStart == i;
        var b :| 0 <= b < |view.segments| && view.segments[b].videoStart == j;
        StartsOrdered(view, a, b);
        StartsFarApart(view, video, audio, nominal, a, b);
      }
    }
  }

  lemma DistanceForcesStarts(view: IndexView, video: seq<RawSampleEntry>, audio: seq<RawSampleEntry>, nominal: nat,
                             i: nat)
    requires Tiled(view) && |view.videoSamples| == |video| && i < |video|
    requires IsSplit(video, audio, view.video.timescale, view.audio.timescale, nominal, view.segments)
    requires SyncsFarApart(video, nominal)
    ensures StartsAt(view, i) <==> video[i].isSync
  {
    hide IsSplit, Dts, StartsAt;
    var k := SegmentOf(view, i, |view.segments|);
    Greedy(video, audio, view.video.timescale, view.audio.timescale, nominal, view.segments, k);
    StartsInside(view, k, i);
    var start := view.segments[k].videoStart;
    if start < i {
      assert !Closes(video, start, i, nominal);
      assert FarApart(video, nominal, start, i);
    }
  }
}
