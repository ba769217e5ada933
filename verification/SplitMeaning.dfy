/** Segment tables described without an algorithm, and the proof that the splitter finds just these. */
module SplitMeaning {
  import opened Bytes
  import opened Format
  import opened Splitter
  import opened SplitLaws

  /** Where segment `k` has to end: at the start of the next one, or at the end of both tracks. */
  function EndsAt(video: seq<RawSampleEntry>, audio: seq<RawSampleEntry>, segs: seq<SegmentEntry>, k: nat): (nat, nat)
    requires k < |segs|
  {
    if k + 1 < |segs| then (segs[k + 1].videoStart, segs[k + 1].audioStart) else (|video|, |audio|)
  }

  /** The segment takes some samples of both tracks, up to these ends, and says when they start. */
  predicate Takes(video: seq<RawSampleEntry>, audio: seq<RawSampleEntry>, s: SegmentEntry, ends: (nat, nat)) {
    && s.videoCount > 0 && s.videoStart + s.videoCount == ends.0 <= |video|
    && s.audioCount > 0 && s.audioStart + s.audioCount == ends.1 <= |audio|
    && s.videoBaseDts == Dts(video, s.videoStart) && s.audioBaseDts == Dts(audio, s.audioStart)
  }

  /** The segment is closed at the first sample that can close it. */
  ghost predicate ClosesFirst(video: seq<RawSampleEntry>, nominal: nat, s: SegmentEntry, next: nat)
    requires s.videoStart < next <= |video|
  {
    && (next < |video| ==> Closes(video, s.videoStart, next, nominal))
    && forall i :: s.videoStart < i < next ==> !Closes(video, s.videoStart, i, nominal)
  }

  /** Its audio starts with the first audio sample that does not start before its video. */
  ghost predicate AudioFollows(audio: seq<RawSampleEntry>, vts: nat, ats: nat, s: SegmentEntry)
    requires s.audioStart < |audio|
  {
    && Dts(audio, s.audioStart) * vts >= s.videoBaseDts * ats
    && forall a :: 0 <= a < s.audioStart ==> Dts(audio, a) * vts < s.videoBaseDts * ats
  }

  ghost predicate SegmentOk(video: seq<RawSampleEntry>, audio: seq<RawSampleEntry>, vts: nat, ats: nat, nominal: nat,
                            segs: seq<SegmentEntry>, k: nat)
    requires k < |segs|
  {
    var s, ends := segs[k], EndsAt(video, audio, segs, k);
    && Takes(video, audio, s, ends) && ClosesFirst(video, nominal, s, ends.0) && AudioFollows(audio, vts, ats, s)
    && (k > 0 ==> s.videoBaseDts * ats <= U64_MAX * vts)
  }

  /**
   Both tracks have samples, the video starts with a sync sample, there are timescales to compare by; and the
   segments are the greedy ones, with every boundary in audio ticks within 64 bits.
   */
  ghost predicate Segmented(video: seq<RawSampleEntry>, audio: seq<RawSampleEntry>, vts: nat, ats: nat, nominal: nat,
                            segs: seq<SegmentEntry>)
  {
    && 0 < |video| <= U32_MAX && 0 < |audio| <= U32_MAX && video[0].isSync && vts > 0 && ats > 0
    && |segs| > 0 && segs[0].videoStart == 0
    && forall k :: 0 <= k < |segs| ==> SegmentOk(video, audio, vts, ats, nominal, segs, k)
  }

  // ---------- What the splitter finds ----------

  lemma FoundSegment(video: seq<RawSampleEntry>, audio: seq<RawSampleEntry>, vts: nat, ats: nat, nominal: nat,
                     segs: seq<SegmentEntry>, k: nat)
    requires IsSplit(video, audio, vts, ats, nominal, segs) && k < |segs|
    ensures SegmentOk(video, audio, vts, ats, nominal, segs, k)
  {
    hide IsSplit, Closes, Dts;
    RowTimes(video, audio, vts, ats, nominal, segs, k);
    Partition(video, audio, vts, ats, nominal, segs);
    Greedy(video, audio, vts, ats, nominal, segs, k);
    AudioCutExact(video, audio, vts, ats, nominal, segs, k);
    if k > 0 {
      BoundaryFits(video, audio, vts, ats, nominal, segs, k);
    }
  }

  lemma BoundaryFits(video: seq<RawSampleEntry>, audio: seq<RawSampleEntry>, vts: nat, ats: nat, nominal: nat,
                     segs: seq<SegmentEntry>, k: nat)
    requires IsSplit(video, audio, vts, ats, nominal, segs) && 0 < k < |segs|
    ensures segs[k].videoBaseDts * ats <= U64_MAX * vts
  {
    hide ScaledCeil, AtOrAfter, AudioFrom, Cuts, Dts, IsTable;
    RowFacts(video, audio, vts, ats, nominal, segs, k - 1);
    RowFacts(video, audio, vts, ats, nominal, segs, k);
    FitsBelow(segs[k].videoBaseDts, vts, ats);
  }

  lemma FitsBelow(v: nat, vts: nat, ats: nat)
    requires vts > 0
    ensures ScaledCeil(v, vts, ats) <= U64_MAX <==> v * ats <= U64_MAX * vts
  {
    hide ScaledCeil;
    CeilCompare(U64_MAX, v, vts, ats);
  }

  // ---------- What is found is all there is ----------

  /** The video starts of the segments from `k` on. */
  function Starts(segs: seq<SegmentEntry>, k: nat): (cs: seq<nat>)
    requires k <= |segs|
    ensures |cs| == |segs| - k && forall j :: 0 <= j < |cs| ==> cs[j] == segs[k + j].videoStart
    decreases |segs| - k
  {
    if k == |segs| then [] else [segs[k].videoStart] + Starts(segs, k + 1)
  }

  lemma {:induction false} NextIsCut(video: seq<RawSampleEntry>, nominal: nat, s: SegmentEntry, next: nat)
    requires s.videoStart < next <= |video| && ClosesFirst(video, nominal, s, next)
    ensures NextCut(video, s.videoStart, s.videoStart, nominal) == next
  {
    hide Dts;
    forall i | s.videoStart <= i <= next && i < |video|
      ensures CutHere(video, s.videoStart, i, nominal) <==> s.videoStart < i && Closes(video, s.videoStart, i, nominal)
    {
      DtsMonotone(video, s.videoStart, i);
    }
    NextCutUnique(video, s.videoStart, s.videoStart, next, nominal);
  }

  lemma {:induction false} StartsAreCuts(video: seq<RawSampleEntry>, audio: seq<RawSampleEntry>, vts: nat, ats: nat,
                                         nominal: nat, segs: seq<SegmentEntry>, k: nat)
    requires Segmented(video, audio, vts, ats, nominal, segs) && k < |segs|
    ensures segs[k].videoStart < |video| && Cuts(video, segs[k].videoStart, nominal) == Starts(segs, k)
    decreases |segs| - k
  {
    hide NextCut, ClosesFirst, AudioFollows, Dts;
    assert SegmentOk(video, audio, vts, ats, nominal, segs, k);
    NextIsCut(video, nominal, segs[k], EndsAt(video, audio, segs, k).0);
    if k + 1 < |segs| {
      StartsAreCuts(video, audio, vts, ats, nominal, segs, k + 1);
      assert Starts(segs, k) == [segs[k].videoStart] + Starts(segs, k + 1);
    } else {
      assert Starts(segs, k) == [segs[k].videoStart] + [];
    }
  }

  lemma {:induction false} AudioIsBound(audio: seq<RawSampleEntry>, vts: nat, ats: nat, s: SegmentEntry)
    requires s.audioStart < |audio| && AudioFollows(audio, vts, ats, s)
    ensures AudioFrom(audio, 0, s.videoBaseDts, vts, ats) == s.audioStart
  {
    hide Dts;
    AudioFromUnique(audio, 0, s.audioStart, s.videoBaseDts, vts, ats);
  }

  lemma {:induction false} AllThereIs(video: seq<RawSampleEntry>, audio: seq<RawSampleEntry>, vts: nat, ats: nat,
                                      nominal: nat, segs: seq<SegmentEntry>, k: nat)
    requires Segmented(video, audio, vts, ats, nominal, segs) && k < |segs|
    requires Cuts(video, 0, nominal) == Starts(segs, 0)
    ensures IsRow(video, audio, vts, ats, Starts(segs, 0), k, segs[k])
    ensures BoundaryOk(video, audio, vts, ats, Starts(segs, 0), k)
  {
    hide ClosesFirst, AudioFollows, Dts, AudioFrom, ScaledCeil, Cuts;
    assert SegmentOk(video, audio, vts, ats, nominal, segs, k);
    AudioIsBound(audio, vts, ats, segs[k]);
    if k + 1 < |segs| {
      assert SegmentOk(video, audio, vts, ats, nominal, segs, k + 1);
      AudioIsBound(audio, vts, ats, segs[k + 1]);
      FitsBelow(segs[k + 1].videoBaseDts, vts, ats);
    }
  }

  /** A table is what the splitter returns exactly if it is the greedy segmentation of the two tracks. */
  lemma SplitMeaning(video: seq<RawSampleEntry>, audio: seq<RawSampleEntry>, vts: nat, ats: nat, nominal: nat,
                     segs: seq<SegmentEntry>)
    ensures IsSplit(video, audio, vts, ats, nominal, segs) <==> Segmented(video, audio, vts, ats, nominal, segs)
  {
    hide SegmentOk, Cuts, IsRow, BoundaryOk;
    if IsSplit(video, audio, vts, ats, nominal, segs) {
      Partition(video, audio, vts, ats, nominal, segs);
      forall k | 0 <= k < |segs|
        ensures SegmentOk(video, audio, vts, ats, nominal, segs, k)
      {
        FoundSegment(video, audio, vts, ats, nominal, segs, k);
      }
    }
    if Segmented(video, audio, vts, ats, nominal, segs) {
      StartsAreCuts(video, audio, vts, ats, nominal, segs, 0);
      forall k | 0 <= k < |segs|
        ensures IsRow(video, audio, vts, ats, Starts(segs, 0), k, segs[k])
        ensures BoundaryOk(video, audio, vts, ats, Starts(segs, 0), k)
      {
        AllThereIs(video, audio, vts, ats, nominal, segs, k);
      }
    }
  }

  /** However short the nominal duration: the base times of the video grow from segment to segment. */
  lemma BoundariesAdvance(video: seq<RawSampleEntry>, audio: seq<RawSampleEntry>, vts: nat, ats: nat, ticks: u64,
                          segs: seq<SegmentEntry>, k: nat)
    requires IsSplit(video, audio, vts, ats, Nominal(ticks), segs) && k + 1 < |segs|
    ensures segs[k].videoBaseDts < segs[k + 1].videoBaseDts
    ensures segs[k].videoBaseDts + ticks <= segs[k + 1].videoBaseDts
  {
    hide IsSplit, Dts;
    RowTimes(video, audio, vts, ats, Nominal(ticks), segs, k);
    RowTimes(video, audio, vts, ats, Nominal(ticks), segs, k + 1);
    Greedy(video, audio, vts, ats, Nominal(ticks), segs, k);
  }
}
