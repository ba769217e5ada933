/**
 Segment splitter: greedy cuts at video sync samples, and an audio partition that follows each
 cut across timescales.
 */
module Splitter {
  import opened Bytes
  import opened Format
  import opened Wrappers

  // ---------- What a segment table should be ----------

  /** A segment that starts at `start` may be closed just before sample `i`. */
  predicate CutHere(video: seq<RawSampleEntry>, start: nat, i: nat, nominal: nat)
    requires start <= |video| && i < |video|
  {
    start < i && video[i].isSync && Dts(video, i) - Dts(video, start) >= nominal
  }

  /** The first place at or after `from` where the segment may be closed, or the end. */
  function NextCut(video: seq<RawSampleEntry>, start: nat, from: nat, nominal: nat): (c: nat)
    requires start <= |video| && from <= |video|
    ensures from <= c <= |video|
    ensures c < |video| ==> CutHere(video, start, c, nominal)
    ensures forall i :: from <= i < c ==> !CutHere(video, start, i, nominal)
    decreases |video| - from
  {
    if from == |video| || CutHere(video, start, from, nominal) then from
    else NextCut(video, start, from + 1, nominal)
  }

  /** First samples of all segments from the one that starts at `start`. */
  function Cuts(video: seq<RawSampleEntry>, start: nat, nominal: nat): (cs: seq<nat>)
    requires start < |video|
    ensures |cs| > 0 && cs[0] == start
    ensures |cs| <= |video| - start
    ensures forall k :: 0 <= k < |cs| ==> start <= cs[k] < |video|
    decreases |video| - start
  {
    var c := NextCut(video, start, start, nominal);
    [start] + if c == |video| then [] else Cuts(video, c, nominal)
  }

  /** The splitter never works with a nominal duration below one tick. */
  function Nominal(ticks: u64): u64 {
    if ticks == 0 then 1 else ticks
  }

  /** Audio sample `a` starts at or after video time `v`, compared as exact rationals. */
  predicate AtOrAfter(audio: seq<RawSampleEntry>, a: nat, v: nat, vts: nat, ats: nat)
    requires a <= |audio|
  {
    Dts(audio, a) * vts >= v * ats
  }

  /** The first audio sample at or after `from` that starts at or after video time `v`, or the end. */
  function AudioFrom(audio: seq<RawSampleEntry>, from: nat, v: nat, vts: nat, ats: nat): (a: nat)
    requires from <= |audio|
    ensures from <= a <= |audio|
    ensures a < |audio| ==> AtOrAfter(audio, a, v, vts, ats)
    ensures forall i :: from <= i < a ==> !AtOrAfter(audio, i, v, vts, ats)
    decreases |audio| - from
  {
    if from == |audio| || AtOrAfter(audio, from, v, vts, ats) then from
    else AudioFrom(audio, from + 1, v, vts, ats)
  }

  /** Where segment `k` starts in each track; `k == |cs|` is the end of both tracks. */
  function VideoBound(video: seq<RawSampleEntry>, cs: seq<nat>, k: nat): (v: nat)
    requires k <= |cs| && forall j :: 0 <= j < |cs| ==> cs[j] < |video|
    ensures v <= |video|
  {
    if k == |cs| then |video| else cs[k]
  }

  function AudioBound(video: seq<RawSampleEntry>, audio: seq<RawSampleEntry>, vts: nat, ats: nat,
                      cs: seq<nat>, k: nat): (a: nat)
    requires k <= |cs| && forall j :: 0 <= j < |cs| ==> cs[j] < |video|
    ensures a <= |audio|
  {
    if k == |cs| then |audio| else AudioFrom(audio, 0, Dts(video, cs[k]), vts, ats)
  }

  predicate InputsAccepted(video: seq<RawSampleEntry>, audio: seq<RawSampleEntry>, vts: nat, ats: nat) {
    0 < |video| <= U32_MAX && 0 < |audio| <= U32_MAX && video[0].isSync && vts != 0 && ats != 0
  }

  /** Video time `v` in audio ticks, rounded up. */
  function ScaledCeil(v: nat, vts: nat, ats: nat): (t: nat)
    requires vts > 0
  {
    (v * ats + vts - 1) / vts
  }

  /** Boundary `k` can be expressed in 64 bits, and segment `k` has audio. */
  predicate BoundaryOk(video: seq<RawSampleEntry>, audio: seq<RawSampleEntry>, vts: nat, ats: nat,
                       cs: seq<nat>, k: nat)
    requires vts > 0
    requires k < |cs| && forall j :: 0 <= j < |cs| ==> cs[j] < |video|
  {
    && (k + 1 < |cs| ==> ScaledCeil(Dts(video, cs[k + 1]), vts, ats) <= U64_MAX)
    && AudioBound(video, audio, vts, ats, cs, k) < AudioBound(video, audio, vts, ats, cs, k + 1)
  }

  /** Exactly when the splitter succeeds. */
  predicate Splittable(video: seq<RawSampleEntry>, audio: seq<RawSampleEntry>, vts: nat, ats: nat, nominal: nat) {
    && InputsAccepted(video, audio, vts, ats)
    && var cs := Cuts(video, 0, nominal);
       forall k :: 0 <= k < |cs| ==> BoundaryOk(video, audio, vts, ats, cs, k)
  }

  /** The row that segment `k` should have. */
  predicate IsRow(video: seq<RawSampleEntry>, audio: seq<RawSampleEntry>, vts: nat, ats: nat,
                  cs: seq<nat>, k: nat, s: SegmentEntry)
    requires k < |cs| && forall j :: 0 <= j < |cs| ==> cs[j] < |video|
  {
    && s.videoStart == cs[k]
    && s.videoStart + s.videoCount == VideoBound(video, cs, k + 1)
    && s.audioStart == AudioBound(video, audio, vts, ats, cs, k)
    && s.audioStart + s.audioCount == AudioBound(video, audio, vts, ats, cs, k + 1)
    && s.videoBaseDts == Dts(video, s.videoStart)
    && s.audioBaseDts == Dts(audio, s.audioStart)
  }

  predicate IsTable(video: seq<RawSampleEntry>, audio: seq<RawSampleEntry>, vts: nat, ats: nat,
                    cs: seq<nat>, segs: seq<SegmentEntry>)
    requires |segs| <= |cs| && forall j :: 0 <= j < |cs| ==> cs[j] < |video|
  {
    forall k :: 0 <= k < |segs| ==> IsRow(video, audio, vts, ats, cs, k, segs[k])
  }

  // ---------- Rational arithmetic ----------

  /** Comparing with the rounded-up projection is the same as comparing exactly. */
  lemma CeilCompare(d: nat, v: nat, vts: nat, ats: nat)
    requires vts > 0
    ensures d < ScaledCeil(v, vts, ats) <==> d * vts < v * ats
  {
    CeilBounds(v * ats, vts);
    var q := ScaledCeil(v, vts, ats);
    if d < q {
      Scale(d + 1, q, vts);
      assert (d + 1) * vts == d * vts + vts;
    } else {
      Scale(q, d, vts);
    }
  }

  lemma CeilBounds(n: nat, d: nat)
    requires d > 0
    ensures var q := (n + d - 1) / d; n <= q * d < n + d
  {}

  /** Exact comparison is monotone in the sample index and in the boundary time. */
  lemma AtOrAfterMonotone(audio: seq<RawSampleEntry>, i: nat, j: nat, v: nat, w: nat, vts: nat, ats: nat)
    requires i <= j <= |audio| && v <= w
    requires AtOrAfter(audio, i, w, vts, ats)
    ensures AtOrAfter(audio, j, v, vts, ats)
  {
    hide Dts;
    DtsMonotone(audio, i, j);
    Scale(Dts(audio, i), Dts(audio, j), vts);
    Scale(v, w, ats);
  }

  /** Searching from the previous boundary finds the same sample as searching from the start. */
  lemma {:induction false} AudioFromCursor(audio: seq<RawSampleEntry>, v: nat, w: nat, vts: nat, ats: nat)
    requires v <= w
    ensures AudioFrom(audio, 0, v, vts, ats) <= AudioFrom(audio, 0, w, vts, ats)
    ensures AudioFrom(audio, AudioFrom(audio, 0, v, vts, ats), w, vts, ats) == AudioFrom(audio, 0, w, vts, ats)
  {
    var a, b := AudioFrom(audio, 0, v, vts, ats), AudioFrom(audio, 0, w, vts, ats);
    if b < a {
      AtOrAfterMonotone(audio, b, b, v, w, vts, ats);
      assert false;
    }
    AudioFromUnique(audio, a, b, w, vts, ats);
  }

  lemma {:induction false} AudioFromUnique(audio: seq<RawSampleEntry>, from: nat, b: nat, v: nat, vts: nat, ats: nat)
    requires from <= b <= |audio|
    requires b < |audio| ==> AtOrAfter(audio, b, v, vts, ats)
    requires forall i :: from <= i < b ==> !AtOrAfter(audio, i, v, vts, ats)
    ensures AudioFrom(audio, from, v, vts, ats) == b
    decreases b - from
  {
    if from < b {
      AudioFromUnique(audio, from + 1, b, v, vts, ats);
    }
  }

  // ---------- The splitter ----------

  function ScaleDtsCeil(videoDts: u64, vts: u32, ats: u32): (r: Result<u64>)
    requires vts > 0
    ensures r.Ok? <==> ScaledCeil(videoDts, vts, ats) <= U64_MAX
    ensures r.Ok? ==> r.value == ScaledCeil(videoDts, vts, ats)
  {
    var scaled := ScaledCeil(videoDts, vts, ats);
    if scaled > U64_MAX then Err(SampleTableInconsistent) else Ok(scaled)
  }

  /** A sample starts before the rounded-up target exactly when it starts before the exact boundary. */
  lemma {:induction false} BeforeTarget(audio: seq<RawSampleEntry>, i: nat, v: nat, vts: nat, ats: nat)
    requires i <= |audio| && vts > 0
    ensures Dts(audio, i) < ScaledCeil(v, vts, ats) <==> !AtOrAfter(audio, i, v, vts, ats)
  {
    hide ScaledCeil, Dts;
    CeilCompare(Dts(audio, i), v, vts, ats);
  }

  /** Step the cursor over every sample that starts before `target`. The sum cannot leave 64 bits. */
  method AdvanceAudioTo(cursor: u32, cursorDts: u64, audio: seq<RawSampleEntry>, target: u64,
                        ghost v: nat, ghost vts: nat, ghost ats: nat)
    returns (cursor': u32, cursorDts': u64)
    requires |audio| <= U32_MAX && cursor <= |audio| && cursorDts == Dts(audio, cursor)
    requires vts > 0 && target == ScaledCeil(v, vts, ats)
    ensures cursor' == AudioFrom(audio, cursor, v, vts, ats)
    ensures cursorDts' == Dts(audio, cursor')
  {
    hide ScaledCeil, AtOrAfter;
    cursor', cursorDts' := cursor, cursorDts;
    while cursor' < |audio| && cursorDts' < target
      invariant cursor <= cursor' <= |audio|
      invariant cursorDts' == Dts(audio, cursor')
      invariant AudioFrom(audio, cursor, v, vts, ats) == AudioFrom(audio, cursor', v, vts, ats)
      decreases |audio| - cursor'
    {
      BeforeTarget(audio, cursor', v, vts, ats);
      DtsFits(audio, cursor' + 1);
      cursorDts' := cursorDts' + audio[cursor'].dtsDelta;
      cursor' := cursor' + 1;
    }
    BeforeTarget(audio, cursor', v, vts, ats);
  }

  method PushSegment(segments: seq<SegmentEntry>, entry: SegmentEntry) returns (r: Result<seq<SegmentEntry>>)
    ensures r.Ok? <==> entry.videoCount != 0 && entry.audioCount != 0
    ensures r.Ok? ==> r.value == segments + [entry]
    ensures r.Err? ==> r.error == SampleTableInconsistent
  {
    if entry.videoCount == 0 || entry.audioCount == 0 {
      return Err(SampleTableInconsistent);
    }
    return Ok(segments + [entry]);
  }

  lemma {:induction false} NextCutUnique(video: seq<RawSampleEntry>, start: nat, from: nat, c: nat, nominal: nat)
    requires start <= |video| && from <= c <= |video|
    requires c < |video| ==> CutHere(video, start, c, nominal)
    requires forall i :: from <= i < c ==> !CutHere(video, start, i, nominal)
    ensures NextCut(video, start, from, nominal) == c
    decreases c - from
  {
    if from < c {
      NextCutUnique(video, start, from + 1, c, nominal);
    }
  }

  /** Each cut is the next one after the cut before it, and none follows the last. */
  lemma {:induction false} CutsFollow(video: seq<RawSampleEntry>, start: nat, nominal: nat, k: nat)
    requires start < |video| && k < |Cuts(video, start, nominal)|
    ensures var cs := Cuts(video, start, nominal);
            VideoBound(video, cs, k + 1) == NextCut(video, cs[k], cs[k], nominal)
    decreases k
  {
    if k > 0 {
      CutsFollow(video, NextCut(video, start, start, nominal), nominal, k - 1);
    }
  }

  /** Closing segment `m` at `i` moves on to the next entry of the cut list. */
  lemma {:induction false} CutStep(video: seq<RawSampleEntry>, nominal: nat, m: nat, i: nat)
    requires |video| > 0 && m < |Cuts(video, 0, nominal)|
    requires Cuts(video, 0, nominal)[m] < i <= |video|
    requires i < |video| ==> CutHere(video, Cuts(video, 0, nominal)[m], i, nominal)
    requires forall j :: Cuts(video, 0, nominal)[m] < j < i ==> !CutHere(video, Cuts(video, 0, nominal)[m], j, nominal)
    ensures i == VideoBound(video, Cuts(video, 0, nominal), m + 1)
  {
    var v := Cuts(video, 0, nominal)[m];
    CutsFollow(video, 0, nominal, m);
    NextCutUnique(video, v, v, i, nominal);
  }

  /** The first `|segs|` rows are as they should be, and nothing before them failed. */
  ghost predicate Done(video: seq<RawSampleEntry>, audio: seq<RawSampleEntry>, vts: nat, ats: nat,
                       cs: seq<nat>, segs: seq<SegmentEntry>)
    requires vts > 0 && |segs| <= |cs| && forall j :: 0 <= j < |cs| ==> cs[j] < |video|
  {
    && IsTable(video, audio, vts, ats, cs, segs)
    && forall k :: 0 <= k < |segs| ==> BoundaryOk(video, audio, vts, ats, cs, k)
  }

  /** Close segment `m` at video sample `here`: place the audio boundary and push the row. */
  method CloseSegment(video: seq<RawSampleEntry>, audio: seq<RawSampleEntry>, vts: u32, ats: u32,
                      ghost cs: seq<nat>, segments: seq<SegmentEntry>,
                      vStart: u32, vBaseDts: u64, here: u32, vDts: u64, aStart: u32, aBaseDts: u64)
    returns (r: Result<(seq<SegmentEntry>, u32, u64)>)
    requires vts > 0 && |audio| <= U32_MAX
    requires forall j :: 0 <= j < |cs| ==> cs[j] < |video|
    requires |segments| + 1 < |cs| && cs[|segments|] == vStart < here == cs[|segments| + 1]
    requires vBaseDts == Dts(video, vStart) && vDts == Dts(video, here)
    requires aStart == AudioBound(video, audio, vts, ats, cs, |segments|) && aBaseDts == Dts(audio, aStart)
    requires Done(video, audio, vts, ats, cs, segments)
    ensures r.Ok? <==> BoundaryOk(video, audio, vts, ats, cs, |segments|)
    ensures r.Err? ==> r.error == SampleTableInconsistent
    ensures r.Ok? ==>
              && |r.value.0| == |segments| + 1 && Done(video, audio, vts, ats, cs, r.value.0)
              && r.value.1 == AudioBound(video, audio, vts, ats, cs, |segments| + 1)
              && r.value.2 == Dts(audio, r.value.1)
  {
    hide ScaledCeil, AtOrAfter, AudioFrom, Dts;
    DtsMonotone(video, vStart, here);
    AudioFromCursor(audio, vBaseDts, vDts, vts, ats);
    var target :- ScaleDtsCeil(vDts, vts, ats);
    var aCursor, aDts := AdvanceAudioTo(aStart, aBaseDts, audio, target, vDts, vts, ats);
    var pushed :- PushSegment(segments,
      SegmentEntry(vStart, here - vStart, aStart, aCursor - aStart, vBaseDts, aBaseDts));
    return Ok((pushed, aCursor, aDts));
  }

  /** The tail: everything from the last cut to the end of both tracks. */
  method CloseTail(video: seq<RawSampleEntry>, audio: seq<RawSampleEntry>, vts: u32, ats: u32, ghost nominal: nat,
                   segments: seq<SegmentEntry>, vStart: u32, vBaseDts: u64, aStart: u32, aBaseDts: u64)
    returns (r: Result<seq<SegmentEntry>>)
    requires InputsAccepted(video, audio, vts, ats)
    requires |segments| + 1 == |Cuts(video, 0, nominal)| && Cuts(video, 0, nominal)[|segments|] == vStart
    requires vBaseDts == Dts(video, vStart)
    requires aStart == AudioBound(video, audio, vts, ats, Cuts(video, 0, nominal), |segments|)
    requires aBaseDts == Dts(audio, aStart)
    requires Done(video, audio, vts, ats, Cuts(video, 0, nominal), segments)
    ensures r.Ok? <==> Splittable(video, audio, vts, ats, nominal)
    ensures r.Err? ==> r.error == SampleTableInconsistent
    ensures r.Ok? ==>
              |r.value| == |segments| + 1 && IsTable(video, audio, vts, ats, Cuts(video, 0, nominal), r.value)
  {
    hide ScaledCeil, AtOrAfter, AudioFrom, Dts, Cuts;
    var tail := SegmentEntry(vStart, |video| - vStart, aStart, |audio| - aStart, vBaseDts, aBaseDts);
    r := PushSegment(segments, tail);
    assert IsRow(video, audio, vts, ats, Cuts(video, 0, nominal), |segments|, tail);
    assert BoundaryOk(video, audio, vts, ats, Cuts(video, 0, nominal), |segments|) <==> r.Ok?;
  }

  /** Before the first segment is closed nothing has gone wrong. */
  lemma {:induction false} NothingClosed(video: seq<RawSampleEntry>, audio: seq<RawSampleEntry>, vts: nat, ats: nat,
                                         nominal: nat)
    requires InputsAccepted(video, audio, vts, ats)
    ensures var cs := Cuts(video, 0, nominal);
            && |cs| > 0 && cs[0] == 0 && Done(video, audio, vts, ats, cs, [])
            && AudioBound(video, audio, vts, ats, cs, 0) == 0 == Dts(audio, 0) == Dts(video, 0)
  {
    assert AtOrAfter(audio, 0, 0, vts, ats);
  }

  lemma {:induction false} EveryBoundary(video: seq<RawSampleEntry>, audio: seq<RawSampleEntry>, vts: nat, ats: nat,
                                         nominal: nat, k: nat)
    requires Splittable(video, audio, vts, ats, nominal) && k < |Cuts(video, 0, nominal)|
    ensures BoundaryOk(video, audio, vts, ats, Cuts(video, 0, nominal), k)
  {
    hide Cuts, BoundaryOk;
  }

  lemma OnlyAccepted(video: seq<RawSampleEntry>, audio: seq<RawSampleEntry>, vts: nat, ats: nat, nominal: nat)
    ensures Splittable(video, audio, vts, ats, nominal) ==> InputsAccepted(video, audio, vts, ats)
  {
    hide Cuts, BoundaryOk;
  }

  method Split(video: seq<RawSampleEntry>, audio: seq<RawSampleEntry>, vts: u32, ats: u32, nominalTicks: u64)
    returns (r: Result<seq<SegmentEntry>>)
    ensures r.Ok? <==> Splittable(video, audio, vts, ats, Nominal(nominalTicks))
    ensures r.Err? ==> r.error == SampleTableInconsistent
    ensures r.Ok? ==>
              var cs := Cuts(video, 0, Nominal(nominalTicks));
              |r.value| == |cs| && IsTable(video, audio, vts, ats, cs, r.value)
  {
    hide ScaledCeil, AtOrAfter, AudioFrom, AudioBound, IsRow, IsTable, BoundaryOk, Done, Cuts, Splittable, Dts;
    OnlyAccepted(video, audio, vts, ats, Nominal(nominalTicks));
    if |video| == 0 || |audio| == 0 || !video[0].isSync || vts == 0 || ats == 0 {
      return Err(SampleTableInconsistent);
    }
    if |video| > U32_MAX || |audio| > U32_MAX {
      return Err(SampleTableInconsistent);
    }
    var nominal := Nominal(nominalTicks);
    ghost var cs := Cuts(video, 0, nominal);

    var segments: seq<SegmentEntry> := [];
    var vStart: u32, vBaseDts: u64, vDts: u64 := 0, 0, 0;
    var aStart: u32, aBaseDts: u64 := 0, 0;
    NothingClosed(video, audio, vts, ats, nominal);

    for i := 0 to |video|
      invariant vStart <= i && vDts == Dts(video, i) && vBaseDts == Dts(video, vStart)
      invariant |segments| < |cs| && cs[|segments|] == vStart
      invariant aStart == AudioBound(video, audio, vts, ats, cs, |segments|) && aBaseDts == Dts(audio, aStart)
      invariant forall j :: vStart < j < i ==> !CutHere(video, vStart, j, nominal)
      invariant Done(video, audio, vts, ats, cs, segments)
    {
      DtsMonotone(video, vStart, i);
      if i > vStart && video[i].isSync && vDts - vBaseDts >= nominal {
        CutStep(video, nominal, |segments|, i);
        if Splittable(video, audio, vts, ats, nominal) {
          EveryBoundary(video, audio, vts, ats, nominal, |segments|);
        }
        var closed :- CloseSegment(video, audio, vts, ats, cs, segments, vStart, vBaseDts, i, vDts, aStart, aBaseDts);
        vStart, vBaseDts := i, vDts;
        segments, aStart, aBaseDts := closed.0, closed.1, closed.2;
      }
      DtsFits(video, i + 1);
      DtsNext(video, i);
      vDts := vDts + video[i].dtsDelta;
    }

    CutStep(video, nominal, |segments|, |video|);
    r := CloseTail(video, audio, vts, ats, nominal, segments, vStart, vBaseDts, aStart, aBaseDts);
  }
}
