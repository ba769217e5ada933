/** What a successful split promises, in terms of the samples alone. */
module SplitLaws {
  import opened Format
  import opened Splitter

  /** `segs` is what the splitter returns for these inputs. */
  ghost predicate IsSplit(video: seq<RawSampleEntry>, audio: seq<RawSampleEntry>, vts: nat, ats: nat,
                          nominal: nat, segs: seq<SegmentEntry>)
  {
    && Splittable(video, audio, vts, ats, nominal)
    && |segs| == |Cuts(video, 0, nominal)|
    && IsTable(video, audio, vts, ats, Cuts(video, 0, nominal), segs)
  }

  lemma {:induction false} RowFacts(video: seq<RawSampleEntry>, audio: seq<RawSampleEntry>, vts: nat, ats: nat,
                                    nominal: nat, segs: seq<SegmentEntry>, k: nat)
    requires IsSplit(video, audio, vts, ats, nominal, segs) && k < |segs|
    ensures IsRow(video, audio, vts, ats, Cuts(video, 0, nominal), k, segs[k])
    ensures BoundaryOk(video, audio, vts, ats, Cuts(video, 0, nominal), k)
  {
    hide ScaledCeil, AtOrAfter, AudioFrom, Cuts, Dts, IsRow, BoundaryOk;
  }

  /** A row ends where the next one starts, or with its track, and its base times are start times. */
  lemma {:induction false} RowTimes(video: seq<RawSampleEntry>, audio: seq<RawSampleEntry>, vts: nat, ats: nat,
                                    nominal: nat, segs: seq<SegmentEntry>, k: nat)
    requires IsSplit(video, audio, vts, ats, nominal, segs) && k < |segs|
    ensures segs[k].videoStart + segs[k].videoCount
            == (if k + 1 < |segs| then segs[k + 1].videoStart else |video|) <= |video|
    ensures segs[k].audioStart + segs[k].audioCount
            == (if k + 1 < |segs| then segs[k + 1].audioStart else |audio|) <= |audio|
    ensures segs[k].videoBaseDts == Dts(video, segs[k].videoStart)
    ensures segs[k].audioBaseDts == Dts(audio, segs[k].audioStart)
    ensures k == 0 ==> segs[k].videoStart == 0
  {
    hide ScaledCeil, AtOrAfter, AudioFrom, Cuts, Dts, Splittable, BoundaryOk, IsTable;
    RowFacts(video, audio, vts, ats, nominal, segs, k);
    if k + 1 < |segs| {
      RowFacts(video, audio, vts, ats, nominal, segs, k + 1);
    }
  }

  /** Consecutive segments meet in both tracks: in samples, and in decode time. */
  lemma Gapless(video: seq<RawSampleEntry>, audio: seq<RawSampleEntry>, vts: nat, ats: nat,
                nominal: nat, segs: seq<SegmentEntry>, k: nat)
    requires IsSplit(video, audio, vts, ats, nominal, segs) && k + 1 < |segs|
    ensures segs[k].videoStart + segs[k].videoCount == segs[k + 1].videoStart <= |video|
    ensures segs[k].audioStart + segs[k].audioCount == segs[k + 1].audioStart <= |audio|
    ensures segs[k + 1].videoBaseDts == segs[k].videoBaseDts
              + Ticks(ToSampleEntries(video)[segs[k].videoStart..segs[k + 1].videoStart])
    ensures segs[k + 1].audioBaseDts == segs[k].audioBaseDts
              + Ticks(ToSampleEntries(audio)[segs[k].audioStart..segs[k + 1].audioStart])
  {
    hide IsSplit, Dts, Ticks;
    RowTimes(video, audio, vts, ats, nominal, segs, k);
    RowTimes(video, audio, vts, ats, nominal, segs, k + 1);
    TicksSpan(video, segs[k].videoStart, segs[k + 1].videoStart);
    TicksSpan(audio, segs[k].audioStart, segs[k + 1].audioStart);
  }

  /** The segments tile both sample tables, and none is empty in either. */
  lemma Partition(video: seq<RawSampleEntry>, audio: seq<RawSampleEntry>, vts: nat, ats: nat,
                  nominal: nat, segs: seq<SegmentEntry>)
    requires IsSplit(video, audio, vts, ats, nominal, segs)
    ensures |segs| > 0
    ensures segs[0].videoStart == segs[0].audioStart == segs[0].videoBaseDts == segs[0].audioBaseDts == 0
    ensures forall k :: 0 <= k < |segs| - 1 ==>
                          && segs[k].videoStart + segs[k].videoCount == segs[k + 1].videoStart
                          && segs[k].audioStart + segs[k].audioCount == segs[k + 1].audioStart
    ensures segs[|segs| - 1].videoStart + segs[|segs| - 1].videoCount == |video|
    ensures segs[|segs| - 1].audioStart + segs[|segs| - 1].audioCount == |audio|
    ensures forall k :: 0 <= k < |segs| ==> segs[k].videoCount > 0 && segs[k].audioCount > 0
  {
    assert AtOrAfter(audio, 0, 0, vts, ats);
    hide ScaledCeil, AtOrAfter;
    forall k | 0 <= k < |segs|
      ensures segs[k].videoCount > 0 && segs[k].audioCount > 0
    {
      RowFacts(video, audio, vts, ats, nominal, segs, k);
      CutsFollow(video, 0, nominal, k);
    }
    forall k | 0 <= k < |segs| - 1
      ensures segs[k].videoStart + segs[k].videoCount == segs[k + 1].videoStart
      ensures segs[k].audioStart + segs[k].audioCount == segs[k + 1].audioStart
    {
      RowFacts(video, audio, vts, ats, nominal, segs, k);
      RowFacts(video, audio, vts, ats, nominal, segs, k + 1);
    }
    RowFacts(video, audio, vts, ats, nominal, segs, 0);
    RowFacts(video, audio, vts, ats, nominal, segs, |segs| - 1);
  }

  /** Sample `i` could close a segment that starts at `s`: it is sync, and late enough. */
  ghost predicate Closes(video: seq<RawSampleEntry>, s: nat, i: nat, nominal: nat)
    requires s <= i < |video|
  {
    video[i].isSync && Dts(video, i) >= Dts(video, s) + nominal
  }

  /**
   Every segment starts on a sync sample. The next one starts at the first sample that could close
   this one, and only the last segment runs on because there is no such sample.
   */
  lemma Greedy(video: seq<RawSampleEntry>, audio: seq<RawSampleEntry>, vts: nat, ats: nat,
               nominal: nat, segs: seq<SegmentEntry>, k: nat)
    requires IsSplit(video, audio, vts, ats, nominal, segs) && k < |segs|
    ensures segs[k].videoStart < segs[k].videoStart + segs[k].videoCount <= |video|
    ensures video[segs[k].videoStart].isSync
    ensures forall i :: segs[k].videoStart < i < segs[k].videoStart + segs[k].videoCount ==>
                          !Closes(video, segs[k].videoStart, i, nominal)
    ensures k + 1 < |segs| <==> segs[k].videoStart + segs[k].videoCount < |video|
    ensures k + 1 < |segs| ==>
              Closes(video, segs[k].videoStart, segs[k].videoStart + segs[k].videoCount, nominal)
  {
    hide ScaledCeil, AtOrAfter, AudioFrom, IsTable, BoundaryOk;
    var cs := Cuts(video, 0, nominal);
    RowFacts(video, audio, vts, ats, nominal, segs, k);
    CutsFollow(video, 0, nominal, k);
    if k > 0 {
      CutsFollow(video, 0, nominal, k - 1);
    }
    forall i | cs[k] < i < VideoBound(video, cs, k + 1)
      ensures !Closes(video, cs[k], i, nominal)
    {
      assert !CutHere(video, cs[k], i, nominal);
    }
  }

  /** The first sample at or after `v`, if there is one, is late by less than the sample before it. */
  lemma {:induction false} FirstAtOrAfter(audio: seq<RawSampleEntry>, v: nat, vts: nat, ats: nat)
    requires AudioFrom(audio, 0, v, vts, ats) < |audio|
    ensures var a := AudioFrom(audio, 0, v, vts, ats);
            && Dts(audio, a) * vts >= v * ats
            && (forall i :: 0 <= i < a ==> Dts(audio, i) * vts < v * ats)
            && (a > 0 ==> Dts(audio, a) * vts - v * ats < audio[a - 1].dtsDelta * vts)
  {
    var a := AudioFrom(audio, 0, v, vts, ats);
    assert AtOrAfter(audio, a, v, vts, ats);
    forall i | 0 <= i < a
      ensures Dts(audio, i) * vts < v * ats
    {
      assert !AtOrAfter(audio, i, v, vts, ats);
    }
    if a > 0 {
      Distribute(Dts(audio, a - 1), audio[a - 1].dtsDelta, vts);
    }
  }

  lemma Distribute(x: nat, y: nat, z: nat)
    ensures (x + y) * z == x * z + y * z
  {}

  /**
   The audio of segment `k` starts at the first audio sample that is not before the video boundary,
   as exact rationals. At every boundary after the first it is late by less than the audio sample
   just before it, so the skew never accumulates.
   */
  lemma {:induction false} AudioCutExact(video: seq<RawSampleEntry>, audio: seq<RawSampleEntry>, vts: nat, ats: nat,
                                         nominal: nat, segs: seq<SegmentEntry>, k: nat)
    requires IsSplit(video, audio, vts, ats, nominal, segs) && k < |segs|
    ensures segs[k].audioStart < |audio|
    ensures segs[k].audioBaseDts * vts >= segs[k].videoBaseDts * ats
    ensures forall a :: 0 <= a < segs[k].audioStart ==> Dts(audio, a) * vts < segs[k].videoBaseDts * ats
    ensures k > 0 ==> segs[k].audioStart > 0
    ensures k > 0 ==> segs[k].audioBaseDts * vts - segs[k].videoBaseDts * ats
                      < audio[segs[k].audioStart - 1].dtsDelta * vts
  {
    hide IsSplit, AudioFrom, Dts;
    AudioStarts(video, audio, vts, ats, nominal, segs, k);
    FirstAtOrAfter(audio, segs[k].videoBaseDts, vts, ats);
  }

  lemma {:induction false} AudioStarts(video: seq<RawSampleEntry>, audio: seq<RawSampleEntry>, vts: nat, ats: nat,
                                       nominal: nat, segs: seq<SegmentEntry>, k: nat)
    requires IsSplit(video, audio, vts, ats, nominal, segs) && k < |segs|
    ensures segs[k].audioStart == AudioFrom(audio, 0, segs[k].videoBaseDts, vts, ats) < |audio|
    ensures segs[k].audioBaseDts == Dts(audio, segs[k].audioStart)
    ensures k > 0 ==> segs[k].audioStart > 0
  {
    hide ScaledCeil, AtOrAfter, AudioFrom, Cuts, Dts, IsTable, Splittable;
    RowFacts(video, audio, vts, ats, nominal, segs, k);
    if k > 0 {
      RowFacts(video, audio, vts, ats, nominal, segs, k - 1);
    }
  }

  /** Splitting is determined: two results for the same inputs are the same table. */
  lemma Unique(video: seq<RawSampleEntry>, audio: seq<RawSampleEntry>, vts: nat, ats: nat,
               nominal: nat, segs: seq<SegmentEntry>, others: seq<SegmentEntry>)
    requires IsSplit(video, audio, vts, ats, nominal, segs)
    requires IsSplit(video, audio, vts, ats, nominal, others)
    ensures segs == others
  {
    hide ScaledCeil, AtOrAfter, AudioFrom, Cuts, Dts, IsTable, Splittable, BoundaryOk;
    forall k | 0 <= k < |segs|
      ensures segs[k] == others[k]
    {
      RowFacts(video, audio, vts, ats, nominal, segs, k);
      RowFacts(video, audio, vts, ats, nominal, others, k);
    }
  }
}
