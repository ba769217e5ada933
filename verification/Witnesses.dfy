/** Concrete inputs on which the lossy paths are taken: none of the exact conditions is idle. */
module Witnesses {
  import opened Boxes
  import opened Bytes
  import opened Format
  import opened Playback
  import opened Segment
  import opened SegmentWriter
  import opened SyncLaws
  import opened Wrappers
  import Init

  // ---------- A segment that loses an audio offset and a sync flag ----------

  const SMALL_SOURCE: bytes := [7]
  const VIDEO_ROW := SampleEntry(0, 1, 1, 0, SAMPLE_FLAG_IS_SYNC)
  const AUDIO_ROW := SampleEntry(0, 1, 1, 5, SAMPLE_FLAG_IS_SYNC)

  /** One segment with two sync video samples, and one audio sample with a composition offset. */
  function SmallView(v: VideoTrackMeta, a: AudioTrackMeta): IndexView {
    IndexView(0, 1, Zeros(32), v, a, [VIDEO_ROW, VIDEO_ROW], [AUDIO_ROW], [SegmentEntry(0, 2, 0, 1, 0, 0)],
              Init.InitSegment(v, a), None)
  }

  lemma SmallInit(v: VideoTrackMeta, a: AudioTrackMeta)
    requires |v.sampleEntry| == |v.elst| == |a.sampleEntry| == |a.elst| == 0
    ensures HasInit(SmallView(v, a))
  {
    hide Init.InitSegment, Init.Moov, Init.Trak, Init.Mdia, Init.Minf, Init.Stbl, Code;
    Init.MoovSize(v, a);
    Init.TrakSize(Init.Video(v));
    Init.TrakSize(Init.Audio(a));
  }

  /** Segment `k` of the index carries these samples. */
  predicate Carries(view: IndexView, k: nat, video: seq<SampleEntry>, audio: seq<SampleEntry>) {
    HasParts(view, k) && PartsOf(view, k).video == video && PartsOf(view, k).audio == audio
  }

  lemma SmallParts(v: VideoTrackMeta, a: AudioTrackMeta)
    ensures Carries(SmallView(v, a), 0, [VIDEO_ROW, VIDEO_ROW], [AUDIO_ROW])
  {
    hide Init.InitSegment, Code;
  }

  lemma SmallSums()
    ensures SumSizes([VIDEO_ROW, VIDEO_ROW]) == 2 && SumSizes([AUDIO_ROW]) == 1
  {
    assert [VIDEO_ROW, VIDEO_ROW][..1] == [VIDEO_ROW] && [VIDEO_ROW][..0] == [] && [AUDIO_ROW][..0] == [];
    assert SumSizes([VIDEO_ROW]) == 1;
  }

  lemma FewFit(p: Parts)
    requires |p.video| <= 2 && |p.audio| <= 1 && SumSizes(p.video) <= 2 && SumSizes(p.audio) <= 1
    ensures Fits(p)
  {
    hide Moof, SumSizes, VideoTraf, AudioTraf;
    MoofSize(p);
  }

  lemma SmallServable(v: VideoTrackMeta, a: AudioTrackMeta)
    ensures Servable(SmallView(v, a), 0, SMALL_SOURCE)
  {
    hide SmallView, SumSizes, Fits, PartsOf, HasParts;
    SmallParts(v, a);
    SmallSums();
    FewFit(PartsOf(SmallView(v, a), 0));
  }

  /** The composition offset of audio sample `i` of segment `k` is served as another one. */
  ghost predicate AudioOffsetLost(view: IndexView, data: bytes, k: nat, i: nat) {
    && Servable(view, k, data) && i < |PartsOf(view, k).audio|
    && var served := Served(view, data, k);
       && served.Ok? && |served.value| == 2 && i < |served.value[1].samples|
       && served.value[1].samples[i].ctsOffset != PartsOf(view, k).audio[i].ctsOffset
  }

  ghost predicate VideoSyncLost(view: IndexView, data: bytes, k: nat) {
    Servable(view, k, data) && !VideoSyncsKept(view, data, k)
  }

  /** The audio offset 5 is read as 0, and the second video sample is no longer sync. */
  lemma SmallSegmentLoses() returns (view: IndexView, data: bytes)
    ensures HasInit(view) && AudioOffsetLost(view, data, 0, 0) && VideoSyncLost(view, data, 0)
  {
    hide SmallView, Servable, Served, PartsOf, HasInit, VideoSyncsKept;
    var v := VideoTrackMeta(1, Code("avc1"), 1, 1, [], []);
    var a := AudioTrackMeta(1, Code("mp4a"), 1, 1, [], []);
    view, data := SmallView(v, a), SMALL_SOURCE;
    SmallInit(v, a);
    SmallParts(v, a);
    SmallServable(v, a);
    AudioOffsetsAreDropped(view, data, 0, 0);
    SegmentSyncsSurvive(view, data, 0);
    assert [VIDEO_ROW, VIDEO_ROW][1].IsSync();
  }
}
