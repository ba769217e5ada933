/** Playing all served segments in order replays the source tracks. */
module Playback {
  import opened Bytes
  import opened Format
  import opened FragmentReader
  import opened InitDefaults
  import opened MuxDemux
  import opened Segment
  import opened SplitLaws
  import opened Wrappers
  import Init

  /** The segments lie side by side in both sample tables, cover them, and none is empty. */
  ghost predicate Tiled(view: IndexView) {
    var segs := view.segments;
    && |segs| > 0 && segs[0].videoStart == 0 && segs[0].audioStart == 0
    && (forall k :: 0 <= k < |segs| ==> segs[k].videoCount > 0 && segs[k].audioCount > 0)
    && (forall k :: 0 <= k < |segs| - 1 ==>
                      && segs[k].videoStart + segs[k].videoCount == segs[k + 1].videoStart
                      && segs[k].audioStart + segs[k].audioCount == segs[k + 1].audioStart)
    && segs[|segs| - 1].videoStart + segs[|segs| - 1].videoCount == |view.videoSamples|
    && segs[|segs| - 1].audioStart + segs[|segs| - 1].audioCount == |view.audioSamples|
  }

  /** The index holds the init segment of its two tracks. */
  predicate HasInit(view: IndexView) {
    Init.Moov(view.video, view.audio).Sized() && view.initBytes == Init.InitSegment(view.video, view.audio)
  }

  /** Segment `k`, read with the defaults of the init segment that is served with it. */
  function Served(view: IndexView, data: bytes, k: nat): Result<seq<TrackFragment>>
    requires Servable(view, k, data)
  {
    var defaults :- ReadDefaults(view.initBytes);
    ReadFragment(defaults, MediaSegment(PartsOf(view, k), data))
  }

  /** What segment `k` should contribute to each track. */
  function VideoOf(view: IndexView, data: bytes, k: nat): seq<Sample>
    requires Servable(view, k, data)
  {
    ExpectedRun(data, PartsOf(view, k).video, true, FirstOnly(|PartsOf(view, k).video|))
  }

  function AudioOf(view: IndexView, data: bytes, k: nat): seq<Sample>
    requires Servable(view, k, data)
  {
    ExpectedRun(data, PartsOf(view, k).audio, false, AllSync(|PartsOf(view, k).audio|))
  }

  /** Leaving the composition offsets out loses nothing where all of them are zero. */
  lemma OffsetsLeftOut(view: IndexView, data: bytes, k: nat)
    requires Servable(view, k, data)
    ensures VideoFragment(PartsOf(view, k), data)
            == TrackFragment(VIDEO_TRACK_ID, view.segments[k].videoBaseDts, VideoOf(view, data, k))
  {
    hide Fits;
    var p := PartsOf(view, k);
    if !p.hasCtts {
      forall i | 0 <= i < |p.video|
        ensures p.video[i].ctsOffset == 0
      {
        assert p.video[i] == view.videoSamples[view.segments[k].videoStart + i];
      }
    }
    var syncs := FirstOnly(|p.video|);
    assert ExpectedRun(data, p.video, p.hasCtts, syncs) == ExpectedRun(data, p.video, true, syncs);
  }

  /**
   A served segment reads back as its slices of both tracks. The true composition offsets of the
   video come back even when the index leaves them out, because then all of them are zero.
   */
  lemma ServedSegment(view: IndexView, data: bytes, k: nat)
    requires Servable(view, k, data) && HasInit(view)
    ensures Served(view, data, k) == Ok([
              TrackFragment(VIDEO_TRACK_ID, view.segments[k].videoBaseDts, VideoOf(view, data, k)),
              TrackFragment(AUDIO_TRACK_ID, view.segments[k].audioBaseDts, AudioOf(view, data, k))])
  {
    hide Fits, ReadFragment, ReadDefaults, MediaSegment, VideoOf, VideoFragment, Init.Moov, Init.InitSegment,
         ExpectedRun;
    DefaultsReadBack(view.video, view.audio);
    SegmentReadsBack(PartsOf(view, k), data);
    OffsetsLeftOut(view, data, k);
  }

  /** The video (`track == 0`) or audio (`track == 1`) samples of the first `n` segments, as read back. */
  function Played(view: IndexView, data: bytes, track: nat, n: nat): seq<Sample>
    requires track < 2 && forall k :: 0 <= k < n ==> Servable(view, k, data)
  {
    if n == 0 then []
    else
      var served := Served(view, data, n - 1);
      Played(view, data, track, n - 1)
      + if served.Ok? && |served.value| == 2 then served.value[track].samples else []
  }

  lemma ExpectedRunAppend(data: bytes, xs: seq<SampleEntry>, ys: seq<SampleEntry>, withCts: bool,
                          xsyncs: seq<bool>, ysyncs: seq<bool>)
    requires AllReadable(data, xs) && AllReadable(data, ys) && |xsyncs| == |xs| && |ysyncs| == |ys|
    ensures AllReadable(data, xs + ys)
    ensures ExpectedRun(data, xs + ys, withCts, xsyncs + ysyncs)
            == ExpectedRun(data, xs, withCts, xsyncs) + ExpectedRun(data, ys, withCts, ysyncs)
  {
    hide Expected;
  }

  lemma {:induction false} NothingPlayed(view: IndexView, data: bytes)
    ensures ExpectedRun(data, [], true, []) == [] && ExpectedRun(data, [], false, []) == []
    ensures Played(view, data, 0, 0) == [] && Played(view, data, 1, 0) == []
  {}

  /** Where segment `n` starts; past the last segment, the end of the table. */
  function VideoEnd(view: IndexView, n: nat): nat
    requires n <= |view.segments|
  {
    if n == 0 then 0 else view.segments[n - 1].videoStart + view.segments[n - 1].videoCount
  }

  function AudioEnd(view: IndexView, n: nat): nat
    requires n <= |view.segments|
  {
    if n == 0 then 0 else view.segments[n - 1].audioStart + view.segments[n - 1].audioCount
  }

  lemma EndsStart(view: IndexView)
    ensures VideoEnd(view, 0) == 0 && AudioEnd(view, 0) == 0
  {}

  /** Segment `n - 1` takes both tables from where the segments before it stop. */
  lemma TablesGrow(view: IndexView, n: nat)
    requires Tiled(view) && 0 < n <= |view.segments| && HasParts(view, n - 1)
    ensures VideoEnd(view, n) <= |view.videoSamples| && AudioEnd(view, n) <= |view.audioSamples|
    ensures VideoEnd(view, n - 1) <= |view.videoSamples| && AudioEnd(view, n - 1) <= |view.audioSamples|
    ensures view.videoSamples[..VideoEnd(view, n)]
            == view.videoSamples[..VideoEnd(view, n - 1)] + PartsOf(view, n - 1).video
    ensures view.audioSamples[..AudioEnd(view, n)]
            == view.audioSamples[..AudioEnd(view, n - 1)] + PartsOf(view, n - 1).audio
  {
    if n > 1 {
      assert view.segments[n - 2].videoStart + view.segments[n - 2].videoCount == view.segments[n - 1].videoStart;
    }
  }

  /** Some segment starts at video sample `i`. */
  predicate StartsAt(view: IndexView, i: nat) {
    exists k :: 0 <= k < |view.segments| && view.segments[k].videoStart == i
  }

  /** Of the first `n` video samples, those where a segment starts. */
  function StartFlags(view: IndexView, n: nat): (syncs: seq<bool>)
    ensures |syncs| == n
    ensures forall i :: 0 <= i < n ==> (syncs[i] <==> StartsAt(view, i))
  {
    seq(n, i requires 0 <= i => StartsAt(view, i))
  }

  /** A later segment starts behind the end of an earlier one. */
  lemma {:induction false} StartsIncrease(view: IndexView, j: nat, k: nat)
    requires Tiled(view) && j < k < |view.segments|
    ensures view.segments[j].videoStart + view.segments[j].videoCount <= view.segments[k].videoStart
    decreases k
  {
    assert view.segments[k - 1].videoStart + view.segments[k - 1].videoCount == view.segments[k].videoStart;
    if j < k - 1 {
      StartsIncrease(view, j, k - 1);
    }
  }

  /** Inside a segment no other segment starts. */
  lemma StartsInside(view: IndexView, k: nat, i: nat)
    requires Tiled(view) && k < |view.segments|
    requires view.segments[k].videoStart <= i < view.segments[k].videoStart + view.segments[k].videoCount
    ensures StartsAt(view, i) <==> i == view.segments[k].videoStart
  {
    if StartsAt(view, i) {
      var j :| 0 <= j < |view.segments| && view.segments[j].videoStart == i;
      if j < k {
        StartsIncrease(view, j, k);
      } else if k < j {
        StartsIncrease(view, k, j);
      }
    }
  }

  lemma FlagsGrow(view: IndexView, n: nat)
    requires Tiled(view) && 0 < n <= |view.segments|
    ensures StartFlags(view, VideoEnd(view, n))
            == StartFlags(view, VideoEnd(view, n - 1)) + FirstOnly(view.segments[n - 1].videoCount)
  {
    hide StartsAt;
    var start := view.segments[n - 1].videoStart;
    if n > 1 {
      assert view.segments[n - 2].videoStart + view.segments[n - 2].videoCount == start;
    }
    forall i | start <= i < VideoEnd(view, n)
      ensures StartsAt(view, i) <==> i == start
    {
      StartsInside(view, n - 1, i);
    }
  }

  lemma PlayedStep(view: IndexView, data: bytes, n: nat)
    requires HasInit(view)
    requires 0 < n && Servable(view, n - 1, data) && forall k :: 0 <= k < n ==> Servable(view, k, data)
    ensures Played(view, data, 0, n) == Played(view, data, 0, n - 1) + VideoOf(view, data, n - 1)
    ensures Played(view, data, 1, n) == Played(view, data, 1, n - 1) + AudioOf(view, data, n - 1)
  {
    hide Served, PartsOf, VideoOf, AudioOf, Fits, HasInit;
    ServedSegment(view, data, n - 1);
  }

  /** The first `n` segments play the beginnings of both tables. */
  ghost predicate PlaysPrefix(view: IndexView, data: bytes, n: nat)
    requires n <= |view.segments| && forall k :: 0 <= k < n ==> Servable(view, k, data)
  {
    var v, a := VideoEnd(view, n), AudioEnd(view, n);
    && v <= |view.videoSamples| && a <= |view.audioSamples|
    && AllReadable(data, view.videoSamples[..v]) && AllReadable(data, view.audioSamples[..a])
    && Played(view, data, 0, n) == ExpectedRun(data, view.videoSamples[..v], true, StartFlags(view, v))
    && Played(view, data, 1, n) == ExpectedRun(data, view.audioSamples[..a], false, AllSync(a))
  }

  lemma {:induction false} PlayedPrefix(view: IndexView, data: bytes, n: nat)
    requires Tiled(view) && HasInit(view) && n <= |view.segments|
    requires forall k :: 0 <= k < n ==> Servable(view, k, data)
    ensures PlaysPrefix(view, data, n)
    decreases n
  {
    hide Fits, PartsOf, ExpectedRun, Tiled, Played, VideoEnd, AudioEnd, StartFlags, HasInit;
    EndsStart(view);
    if n == 0 {
      assert view.videoSamples[..0] == [] && view.audioSamples[..0] == [];
      assert StartFlags(view, 0) == [] && AllSync(0) == [];
      NothingPlayed(view, data);
    } else {
      assert Servable(view, n - 1, data);
      PlayedPrefix(view, data, n - 1);
      PrefixGrows(view, data, n);
    }
  }

  lemma PrefixGrows(view: IndexView, data: bytes, n: nat)
    requires Tiled(view) && HasInit(view) && 0 < n <= |view.segments|
    requires Servable(view, n - 1, data) && forall k :: 0 <= k < n ==> Servable(view, k, data)
    requires PlaysPrefix(view, data, n - 1)
    ensures PlaysPrefix(view, data, n)
  {
    hide Fits, ExpectedRun, Tiled, Played, VideoEnd, AudioEnd, StartFlags, HasInit;
    PlayedStep(view, data, n);
    TablesGrow(view, n);
    FlagsGrow(view, n);
    var v, a, p := VideoEnd(view, n - 1), AudioEnd(view, n - 1), PartsOf(view, n - 1);
    assert AllSync(a) + AllSync(|p.audio|) == AllSync(AudioEnd(view, n));
    ExpectedRunAppend(data, view.videoSamples[..v], p.video, true, StartFlags(view, v), FirstOnly(|p.video|));
    ExpectedRunAppend(data, view.audioSamples[..a], p.audio, false, AllSync(a), AllSync(|p.audio|));
  }

  /** All segments together replay both tables once, in order. Segments start where video samples are sync. */
  lemma {:induction false} PlaysEverything(view: IndexView, data: bytes)
    requires Tiled(view) && HasInit(view) && forall k :: 0 <= k < |view.segments| ==> Servable(view, k, data)
    ensures AllReadable(data, view.videoSamples) && AllReadable(data, view.audioSamples)
    ensures Played(view, data, 0, |view.segments|)
            == ExpectedRun(data, view.videoSamples, true, StartFlags(view, |view.videoSamples|))
    ensures Played(view, data, 1, |view.segments|)
            == ExpectedRun(data, view.audioSamples, false, AllSync(|view.audioSamples|))
  {
    hide Served, PartsServable, ExpectedRun, Played, HasInit, StartFlags;
    PlayedPrefix(view, data, |view.segments|);
    assert view.videoSamples[..|view.videoSamples|] == view.videoSamples;
    assert view.audioSamples[..|view.audioSamples|] == view.audioSamples;
  }

  /** An audio composition offset survives exactly when it is zero. */
  lemma AudioOffsetsAreDropped(view: IndexView, data: bytes, k: nat, i: nat)
    requires Servable(view, k, data) && HasInit(view) && i < |PartsOf(view, k).audio|
    ensures var served := Served(view, data, k);
            && served.Ok? && |served.value| == 2 && |served.value[1].samples| == |PartsOf(view, k).audio|
            && (served.value[1].samples[i].ctsOffset == PartsOf(view, k).audio[i].ctsOffset
                <==> PartsOf(view, k).audio[i].ctsOffset == 0)
  {
    hide Served, Fits, HasInit;
    ServedSegment(view, data, k);
  }

  // ---------- Decode times ----------

  /** When a player decodes sample `j` of a fragment. */
  function DecodeTime(f: TrackFragment, j: nat): nat
    requires j <= |f.samples|
  {
    if j == 0 then f.baseDts else DecodeTime(f, j - 1) + f.samples[j - 1].duration
  }

  lemma {:induction false} DecodeTimeFollows(f: TrackFragment, raw: seq<RawSampleEntry>, start: nat, j: nat)
    requires j <= |f.samples| && start + |f.samples| <= |raw| && f.baseDts == Dts(raw, start)
    requires forall i :: 0 <= i < |f.samples| ==> f.samples[i].duration == raw[start + i].dtsDelta
    ensures DecodeTime(f, j) == Dts(raw, start + j)
    decreases j
  {
    if j > 0 {
      DecodeTimeFollows(f, raw, start, j - 1);
    }
  }

  /**
   The timeline of the served segments is that of the source, on both tracks: every sample decodes at
   its own start time, and where a segment ends the next one begins, without gap or overlap.
   */
  lemma {:induction false} TimelineIsSource(view: IndexView, data: bytes, video: seq<RawSampleEntry>,
                                            audio: seq<RawSampleEntry>, nominal: nat, k: nat)
    requires view.videoSamples == ToSampleEntries(video) && view.audioSamples == ToSampleEntries(audio)
    requires IsSplit(video, audio, view.video.timescale, view.audio.timescale, nominal, view.segments)
    requires Servable(view, k, data) && HasInit(view)
    ensures var served := Served(view, data, k);
            var s := view.segments[k];
            && served.Ok? && |served.value| == 2
            && |served.value[0].samples| == s.videoCount && |served.value[1].samples| == s.audioCount
            && (forall j :: 0 <= j <= s.videoCount ==> DecodeTime(served.value[0], j) == Dts(video, s.videoStart + j))
            && (forall j :: 0 <= j <= s.audioCount ==> DecodeTime(served.value[1], j) == Dts(audio, s.audioStart + j))
            && (k + 1 < |view.segments| ==>
                  && DecodeTime(served.value[0], s.videoCount) == view.segments[k + 1].videoBaseDts
                  && DecodeTime(served.value[1], s.audioCount) == view.segments[k + 1].audioBaseDts)
  {
    hide Served, Fits, IsSplit, Dts, DecodeTime, HasInit;
    ServedSegment(view, data, k);
    var s, served := view.segments[k], Served(view, data, k).value;
    SplitTimes(video, audio, view.video.timescale, view.audio.timescale, nominal, view.segments, k);
    forall j | 0 <= j <= s.videoCount
      ensures DecodeTime(served[0], j) == Dts(video, s.videoStart + j)
    {
      DecodeTimeFollows(served[0], video, s.videoStart, j);
    }
    forall j | 0 <= j <= s.audioCount
      ensures DecodeTime(served[1], j) == Dts(audio, s.audioStart + j)
    {
      DecodeTimeFollows(served[1], audio, s.audioStart, j);
    }
  }

  /** Base decode times are start times, and each segment ends where the next begins. */
  lemma {:induction false} SplitTimes(video: seq<RawSampleEntry>, audio: seq<RawSampleEntry>, vts: nat, ats: nat,
                                      nominal: nat, segs: seq<SegmentEntry>, k: nat)
    requires IsSplit(video, audio, vts, ats, nominal, segs) && k < |segs|
    ensures segs[k].videoStart + segs[k].videoCount <= |video| && segs[k].audioStart + segs[k].audioCount <= |audio|
    ensures segs[k].videoBaseDts == Dts(video, segs[k].videoStart)
    ensures segs[k].audioBaseDts == Dts(audio, segs[k].audioStart)
    ensures k + 1 < |segs| ==>
              && segs[k + 1].videoBaseDts == Dts(video, segs[k].videoStart + segs[k].videoCount)
              && segs[k + 1].audioBaseDts == Dts(audio, segs[k].audioStart + segs[k].audioCount)
  {
    hide IsSplit, Dts;
    RowTimes(video, audio, vts, ats, nominal, segs, k);
    if k + 1 < |segs| {
      RowTimes(video, audio, vts, ats, nominal, segs, k + 1);
    }
  }
}
