/** The media playlist: one line per tag, and one name per segment. */
module Playlist {
  import opened Boxes
  import opened Bytes
  import opened Format
  import opened SegmentNames
  import opened SplitLaws
  import opened Wrappers

  const NEWLINE: byte := 10
  const HASH: byte := 35

  /** How a duration of so many ticks is written, given the timescale. */
  type DurationText = (nat, nat) -> bytes

  // ---------- Durations ----------

  /** The video of the segment lies in the table. */
  predicate HasVideo(s: SegmentEntry, samples: seq<SampleEntry>) {
    InTable(samples, s.videoStart, s.videoCount)
  }

  function SegmentTicks(s: SegmentEntry, samples: seq<SampleEntry>): nat
    requires HasVideo(s, samples)
  {
    Ticks(samples[s.videoStart..s.videoStart + s.videoCount])
  }

  function AllTicks(segs: seq<SegmentEntry>, samples: seq<SampleEntry>): (ts: seq<nat>)
    requires forall k :: 0 <= k < |segs| ==> HasVideo(segs[k], samples)
    ensures |ts| == |segs| && forall k :: 0 <= k < |segs| ==> ts[k] == SegmentTicks(segs[k], samples)
  {
    seq(|segs|, k requires 0 <= k < |segs| => SegmentTicks(segs[k], samples))
  }

  /** Fails exactly when the segment leaves the table: 2^32 durations of 32 bits never leave 64 bits. */
  method SegmentVideoTicks(s: SegmentEntry, samples: seq<SampleEntry>) returns (r: Result<u64>)
    ensures r.Ok? <==> HasVideo(s, samples)
    ensures r.Ok? ==> r.value == SegmentTicks(s, samples)
    ensures r.Err? ==> r.error == SampleTableInconsistent
  {
    hide Ticks;
    var start: nat, count: nat := s.videoStart, s.videoCount;
    var end := start + count;
    if end > |samples| {
      return Err(SampleTableInconsistent);
    }
    var ticks: nat := 0;
    NoTicks();
    ghost var mine := samples[start..end];
    for i := start to end
      invariant ticks == Ticks(mine[..i - start])
    {
      TicksFit(mine, i + 1 - start);
      TicksNext(mine, i - start);
      if ticks + samples[i].dtsDelta as nat > U64_MAX {
        return Err(SampleTableInconsistent);
      }
      ticks := ticks + samples[i].dtsDelta as nat;
    }
    assert mine[..end - start] == mine;
    return Ok(ticks);
  }

  lemma NoTicks()
    ensures Ticks([]) == 0
  {}

  lemma TicksNext(es: seq<SampleEntry>, n: nat)
    requires n < |es|
    ensures Ticks(es[..n + 1]) == Ticks(es[..n]) + es[n].dtsDelta
  {
    assert es[..n + 1][..n] == es[..n];
  }

  lemma TicksFit(es: seq<SampleEntry>, n: nat)
    requires n <= |es| <= U32_MAX
    ensures Ticks(es[..n]) <= U64_MAX
  {
    assert n * U32_MAX <= U32_MAX * U32_MAX;
  }

  function Max(ts: seq<nat>): (m: nat)
    ensures forall i :: 0 <= i < |ts| ==> ts[i] <= m
    ensures m == 0 || m in ts
  {
    if |ts| == 0 then 0
    else
      var rest := Max(ts[..|ts| - 1]);
      if ts[|ts| - 1] > rest then ts[|ts| - 1] else rest
  }

  function DivCeil(a: nat, b: nat): nat
    requires b > 0
  {
    if a % b == 0 then a / b else a / b + 1
  }

  function TargetDuration(ts: seq<nat>, timescale: nat): nat
    requires timescale > 0
  {
    DivCeil(Max(ts), timescale)
  }

  /** The target duration is the least number of whole seconds that no segment exceeds. */
  lemma TargetIsLeast(ts: seq<nat>, timescale: nat, seconds: nat)
    requires timescale > 0
    ensures seconds >= TargetDuration(ts, timescale)
            <==> forall k :: 0 <= k < |ts| ==> ts[k] <= seconds * timescale
  {
    var m := Max(ts);
    LeastMultiple(m, timescale, seconds);
    if m <= seconds * timescale {
      assert forall k :: 0 <= k < |ts| ==> ts[k] <= m;
    } else {
      assert m in ts;
    }
  }

  lemma LeastMultiple(a: nat, b: nat, n: nat)
    requires b > 0
    ensures n >= DivCeil(a, b) <==> a <= n * b
  {
    DivParts(a, b);
    MultipleFrom(a / b, a % b, b, n);
  }

  lemma DivParts(a: nat, b: nat)
    requires b > 0
    ensures a == a / b * b + a % b && 0 <= a % b < b
  {}

  /** The multiples of `b` that reach `q` times `b` plus a remainder. */
  lemma MultipleFrom(q: nat, r: nat, b: nat, n: nat)
    requires r < b
    ensures n >= (if r == 0 then q else q + 1) <==> q * b + r <= n * b
  {
    NextMultiple(q, b);
    NextMultiple(n, b);
    if n > q {
      Scale(q + 1, n, b);
    } else if n < q {
      Scale(n + 1, q, b);
    }
  }

  lemma NextMultiple(q: nat, b: nat)
    ensures (q + 1) * b == q * b + b
  {}

  function Sum(ts: seq<nat>): nat {
    if |ts| == 0 then 0 else Sum(ts[..|ts| - 1]) + ts[|ts| - 1]
  }

  /** The ticks of a segment are the distance between the start times at its ends. */
  lemma {:induction false} TicksOf(s: SegmentEntry, video: seq<RawSampleEntry>)
    requires s.videoStart + s.videoCount <= |video|
    ensures HasVideo(s, ToSampleEntries(video))
    ensures Dts(video, s.videoStart) + SegmentTicks(s, ToSampleEntries(video))
            == Dts(video, s.videoStart + s.videoCount)
  {
    hide Dts, Ticks;
    TicksSpan(video, s.videoStart, s.videoStart + s.videoCount);
  }

  /** A segment lasts from its own start time to that of the next segment, or to the end of the track. */
  lemma {:induction false} SegmentSpan(video: seq<RawSampleEntry>, audio: seq<RawSampleEntry>, vts: nat, ats: nat,
                                       nominal: nat, segs: seq<SegmentEntry>, k: nat)
    requires IsSplit(video, audio, vts, ats, nominal, segs) && k < |segs|
    ensures HasVideo(segs[k], ToSampleEntries(video))
    ensures segs[k].videoBaseDts + SegmentTicks(segs[k], ToSampleEntries(video))
            == if k + 1 < |segs| then segs[k + 1].videoBaseDts else Dts(video, |video|)
    ensures k == 0 ==> segs[k].videoBaseDts == 0
  {
    hide Dts, IsSplit, SegmentTicks, HasVideo, ToSampleEntries;
    RowTimes(video, audio, vts, ats, nominal, segs, k);
    if k + 1 < |segs| {
      RowTimes(video, audio, vts, ats, nominal, segs, k + 1);
    }
    NoTime(video);
    TicksOf(segs[k], video);
  }

  lemma {:induction false} NoTime(s: seq<RawSampleEntry>)
    ensures Dts(s, 0) == 0
  {}

  /** The segments of a split last as long as the video track, whatever prefix of them is taken. */
  lemma {:induction false} TicksAddUp(video: seq<RawSampleEntry>, audio: seq<RawSampleEntry>, vts: nat, ats: nat,
                                      nominal: nat, segs: seq<SegmentEntry>, n: nat)
    requires IsSplit(video, audio, vts, ats, nominal, segs) && 0 < n <= |segs|
    ensures forall k :: 0 <= k < |segs| ==> HasVideo(segs[k], ToSampleEntries(video))
    ensures Sum(AllTicks(segs, ToSampleEntries(video))[..n])
            == if n == |segs| then Dts(video, |video|) else segs[n].videoBaseDts
    decreases n
  {
    hide IsSplit, Dts, Ticks, SegmentTicks, HasVideo, ToSampleEntries;
    forall k | 0 <= k < |segs|
      ensures HasVideo(segs[k], ToSampleEntries(video))
    {
      SegmentSpan(video, audio, vts, ats, nominal, segs, k);
    }
    var ts := AllTicks(segs, ToSampleEntries(video));
    SegmentSpan(video, audio, vts, ats, nominal, segs, n - 1);
    assert ts[..n][..n - 1] == ts[..n - 1];
    if n > 1 {
      TicksAddUp(video, audio, vts, ats, nominal, segs, n - 1);
    }
  }

  // ---------- The text ----------

  /** Every line, each followed by a newline. */
  function Unlines(lines: seq<bytes>): bytes {
    if |lines| == 0 then [] else lines[0] + [NEWLINE] + Unlines(lines[1..])
  }

  function HeaderLines(target: nat): (lines: seq<bytes>)
    ensures |lines| == 6
  {
    [Ascii("#EXTM3U"), Ascii("#EXT-X-VERSION:7"), Ascii("#EXT-X-INDEPENDENT-SEGMENTS"),
     Ascii("#EXT-X-TARGETDURATION:") + Digits(target), Ascii("#EXT-X-PLAYLIST-TYPE:VOD"),
     Ascii("#EXT-X-MAP:URI=\"init.mp4\"")]
  }

  function DurationLine(ticks: nat, timescale: nat, text: DurationText): bytes {
    Ascii("#EXTINF:") + text(ticks, timescale) + Ascii(",")
  }

  /** Two lines for each of the first `n` segments. */
  function EntryLines(ts: seq<nat>, timescale: nat, text: DurationText, n: nat): seq<bytes>
    requires n <= |ts|
  {
    if n == 0 then []
    else EntryLines(ts, timescale, text, n - 1) + [DurationLine(ts[n - 1], timescale, text), SegmentName(n - 1)]
  }

  function PlaylistLines(ts: seq<nat>, timescale: nat, text: DurationText): seq<bytes>
    requires timescale > 0
  {
    HeaderLines(TargetDuration(ts, timescale)) + EntryLines(ts, timescale, text, |ts|) + [Ascii("#EXT-X-ENDLIST")]
  }

  lemma {:induction false} UnlinesAppend(xs: seq<bytes>, ys: seq<bytes>)
    ensures Unlines(xs + ys) == Unlines(xs) + Unlines(ys)
  {
    if |xs| == 0 {
      assert xs + ys == ys;
    } else {
      UnlinesAppend(xs[1..], ys);
      assert (xs + ys)[1..] == xs[1..] + ys;
      Assoc(xs[0] + [NEWLINE], Unlines(xs[1..]), Unlines(ys));
    }
  }

  lemma {:induction false} UnlinesSnoc(xs: seq<bytes>, line: bytes)
    ensures Unlines(xs + [line]) == Unlines(xs) + (line + [NEWLINE])
  {
    UnlinesAppend(xs, [line]);
    assert [line][1..] == [];
    assert line + [NEWLINE] + [] == line + [NEWLINE];
  }

  method WriteLine(out: bytes, line: bytes, ghost before: seq<bytes>) returns (r: bytes)
    requires out == Unlines(before)
    ensures r == Unlines(before + [line])
  {
    UnlinesSnoc(before, line);
    r := out + (line + [NEWLINE]);
  }

  method WriteHeader(target: nat) returns (out: bytes)
    ensures out == Unlines(HeaderLines(target))
  {
    hide Unlines;
    ghost var lines := HeaderLines(target);
    NoLines();
    assert lines[..1] == [] + [lines[0]] && lines[..2] == lines[..1] + [lines[1]]
        && lines[..3] == lines[..2] + [lines[2]];
    assert lines[..4] == lines[..3] + [lines[3]] && lines[..5] == lines[..4] + [lines[4]]
        && lines == lines[..5] + [lines[5]];
    out := WriteLine([], Ascii("#EXTM3U"), []);
    out := WriteLine(out, Ascii("#EXT-X-VERSION:7"), lines[..1]);
    out := WriteLine(out, Ascii("#EXT-X-INDEPENDENT-SEGMENTS"), lines[..2]);
    out := WriteLine(out, Ascii("#EXT-X-TARGETDURATION:") + Digits(target), lines[..3]);
    out := WriteLine(out, Ascii("#EXT-X-PLAYLIST-TYPE:VOD"), lines[..4]);
    out := WriteLine(out, Ascii("#EXT-X-MAP:URI=\"init.mp4\""), lines[..5]);
  }

  lemma NoLines()
    ensures Unlines([]) == []
  {}

  /** Everything the playlist needs: a timescale, and segments inside the table. */
  predicate Listable(view: IndexView) {
    view.video.timescale != 0 && forall k :: 0 <= k < |view.segments| ==> HasVideo(view.segments[k], view.videoSamples)
  }

  method CollectTicks(view: IndexView) returns (r: Result<seq<nat>>)
    ensures r.Ok? <==> forall k :: 0 <= k < |view.segments| ==> HasVideo(view.segments[k], view.videoSamples)
    ensures r.Ok? ==> r.value == AllTicks(view.segments, view.videoSamples)
    ensures r.Err? ==> r.error == SampleTableInconsistent
  {
    hide HasVideo, SegmentTicks;
    var ts: seq<nat> := [];
    for k := 0 to |view.segments|
      invariant |ts| == k
      invariant forall j :: 0 <= j < k ==>
                  HasVideo(view.segments[j], view.videoSamples)
                      && ts[j] == SegmentTicks(view.segments[j], view.videoSamples)
    {
      var t :- SegmentVideoTicks(view.segments[k], view.videoSamples);
      ts := ts + [t];
    }
    return Ok(ts);
  }

  method WriteMediaPlaylist(view: IndexView, text: DurationText) returns (r: Result<bytes>)
    ensures r.Ok? <==> Listable(view)
    ensures r.Ok? ==>
              r.value == Unlines(PlaylistLines(AllTicks(view.segments, view.videoSamples), view.video.timescale, text))
    ensures r.Err? ==> r.error == SampleTableInconsistent
  {
    hide HasVideo, SegmentTicks, Unlines, HeaderLines;
    var timescale: nat := view.video.timescale;
    if timescale == 0 {
      return Err(SampleTableInconsistent);
    }
    var ts :- CollectTicks(view);
    var target := TargetDuration(ts, timescale);
    var out := WriteHeader(target);
    ghost var head := HeaderLines(target);
    assert head + EntryLines(ts, timescale, text, 0) == head;
    for k := 0 to |ts|
      invariant out == Unlines(head + EntryLines(ts, timescale, text, k))
    {
      ghost var before := head + EntryLines(ts, timescale, text, k);
      var line := DurationLine(ts[k], timescale, text);
      out := WriteLine(out, line, before);
      out := WriteLine(out, SegmentName(k), before + [line]);
      assert before + [line] + [SegmentName(k)] == head + EntryLines(ts, timescale, text, k + 1);
    }
    out := WriteLine(out, Ascii("#EXT-X-ENDLIST"), head + EntryLines(ts, timescale, text, |ts|));
    return Ok(out);
  }

  /** Blank lines that bring a text of this length to a multiple of 8. */
  function BlankLines(length: nat): (lines: seq<bytes>)
    ensures |lines| < 8 && (length + |lines|) % 8 == 0
    ensures forall i :: 0 <= i < |lines| ==> lines[i] == []
  {
    seq(if length % 8 == 0 then 0 else 8 - length % 8, _ => [])
  }

  lemma {:induction false} BlankText(lines: seq<bytes>)
    requires forall i :: 0 <= i < |lines| ==> lines[i] == []
    ensures Unlines(lines) == Repeat(NEWLINE, |lines|)
  {
    if |lines| > 0 {
      BlankText(lines[1..]);
    }
  }

  /** All lines of the rendered playlist, blank ones at its end included. */
  function RenderedLines(view: IndexView, text: DurationText): seq<bytes>
    requires Listable(view)
  {
    var lines := PlaylistLines(AllTicks(view.segments, view.videoSamples), view.video.timescale, text);
    lines + BlankLines(|Unlines(lines)|)
  }

  /** The rendered text is never empty, and its length is a multiple of 8. */
  lemma RenderedAligned(view: IndexView, text: DurationText)
    requires Listable(view)
    ensures |Unlines(RenderedLines(view, text))| % 8 == 0 && |Unlines(RenderedLines(view, text))| > 0
    ensures var lines := PlaylistLines(AllTicks(view.segments, view.videoSamples), view.video.timescale, text);
            Unlines(RenderedLines(view, text)) == Unlines(lines) + Repeat(NEWLINE, |BlankLines(|Unlines(lines)|)|)
  {
    hide PlaylistLines;
    var lines := PlaylistLines(AllTicks(view.segments, view.videoSamples), view.video.timescale, text);
    BlankText(BlankLines(|Unlines(lines)|));
    UnlinesAppend(lines, BlankLines(|Unlines(lines)|));
    UnlinesNotEmpty(AllTicks(view.segments, view.videoSamples), view.video.timescale, text);
  }

  method RenderPlaylist(view: IndexView, text: DurationText) returns (r: Result<bytes>)
    ensures r.Ok? <==> Listable(view)
    ensures r.Ok? ==> r.value == Unlines(RenderedLines(view, text))
    ensures r.Err? ==> r.error == SampleTableInconsistent
  {
    hide PlaylistLines, Unlines, RenderedLines, Listable;
    var out :- WriteMediaPlaylist(view, text);
    RenderedAligned(view, text);
    var rem := |out| % 8;
    if rem != 0 {
      out := out + Repeat(NEWLINE, 8 - rem);
    }
    return Ok(out);
  }

  lemma UnlinesNotEmpty(ts: seq<nat>, timescale: nat, text: DurationText)
    requires timescale > 0
    ensures |Unlines(PlaylistLines(ts, timescale, text))| > 0
  {}

  // ---------- A reader of the text ----------

  function LineEnd(t: bytes, from: nat): (e: nat)
    requires from <= |t|
    ensures from <= e <= |t| && (e < |t| ==> t[e] == NEWLINE)
    ensures forall i :: from <= i < e ==> t[i] != NEWLINE
    decreases |t| - from
  {
    if from == |t| || t[from] == NEWLINE then from else LineEnd(t, from + 1)
  }

  /** The lines of a text. */
  function LinesOf(t: bytes): seq<bytes>
    decreases |t|
  {
    if |t| == 0 then []
    else
      var e := LineEnd(t, 0);
      [t[..e]] + if e == |t| then [] else LinesOf(t[e + 1..])
  }

  /** Lines that name a resource: neither blank nor a tag nor a comment (section 4.1 of RFC 8216). */
  predicate IsUri(line: bytes) {
    |line| > 0 && line[0] != HASH
  }

  function Uris(lines: seq<bytes>): seq<bytes> {
    if |lines| == 0 then []
    else Uris(lines[..|lines| - 1]) + if IsUri(lines[|lines| - 1]) then [lines[|lines| - 1]] else []
  }

  /** The target duration that a reader finds (section 4.3.3.1 of RFC 8216). */
  function FoundTarget(lines: seq<bytes>): Option<nat> {
    if |lines| == 0 then None
    else
      var rest := StripPrefix(lines[0], Ascii("#EXT-X-TARGETDURATION:"));
      if rest.Some? then if AllDigits(rest.value) then Some(Value(rest.value)) else None
      else FoundTarget(lines[1..])
  }

  predicate OneLine(line: bytes) {
    forall i :: 0 <= i < |line| ==> line[i] != NEWLINE
  }

  predicate OneLineEach(lines: seq<bytes>) {
    forall i :: 0 <= i < |lines| ==> OneLine(lines[i])
  }

  lemma FirstLine(line: bytes, rest: bytes)
    requires OneLine(line)
    ensures var t := line + [NEWLINE] + rest;
            LineEnd(t, 0) == |line| && t[..|line|] == line && t[|line| + 1..] == rest
  {
    var t := line + [NEWLINE] + rest;
    assert t[|line|] == NEWLINE;
    assert forall i :: 0 <= i < |line| ==> t[i] == line[i];
  }

  lemma {:induction false} LinesReadBack(lines: seq<bytes>)
    requires OneLineEach(lines)
    ensures LinesOf(Unlines(lines)) == lines
  {
    hide LineEnd, OneLine;
    if |lines| > 0 {
      FirstLine(lines[0], Unlines(lines[1..]));
      LinesReadBack(lines[1..]);
      if |lines| == 1 {
        NoLines();
      }
    }
  }

  lemma {:induction false} UrisAppend(xs: seq<bytes>, ys: seq<bytes>)
    ensures Uris(xs + ys) == Uris(xs) + Uris(ys)
    decreases |ys|
  {
    if |ys| == 0 {
      assert xs + ys == xs;
    } else {
      UrisAppend(xs, ys[..|ys| - 1]);
      assert (xs + ys)[..|xs + ys| - 1] == xs + ys[..|ys| - 1];
    }
  }

  lemma {:induction false} NoUris(lines: seq<bytes>)
    requires forall i :: 0 <= i < |lines| ==> !IsUri(lines[i])
    ensures Uris(lines) == []
  {
    if |lines| > 0 {
      NoUris(lines[..|lines| - 1]);
    }
  }

  /** Names of the first `n` segments. */
  function Names(n: nat): (ns: seq<bytes>)
    ensures |ns| == n && forall k :: 0 <= k < n ==> ns[k] == SegmentName(k)
  {
    seq(n, k requires 0 <= k < n => SegmentName(k))
  }

  ghost predicate NoLineBreaks(text: DurationText) {
    forall ticks: nat, timescale: nat :: OneLine(text(ticks, timescale))
  }

  lemma NameIsUri(k: nat)
    ensures IsUri(SegmentName(k)) && OneLine(SegmentName(k))
  {
    assert SegmentName(k)[0] == SEG_PREFIX[0] == 's' as int;
    AsciiLine("seg_");
    AsciiLine(".m4s");
    hide MinWidth;
    OneLineAppend(SEG_PREFIX, MinWidth(k + 1, 4));
    OneLineAppend(SEG_PREFIX + MinWidth(k + 1, 4), SEG_SUFFIX);
  }

  lemma AsciiLine(s: string)
    requires forall i :: 0 <= i < |s| ==> s[i] != '\n'
    ensures OneLine(Ascii(s))
  {}

  lemma OneLineAppend(a: bytes, b: bytes)
    requires OneLine(a) && OneLine(b)
    ensures OneLine(a + b)
  {}

  lemma DurationLineIsTag(ticks: nat, timescale: nat, text: DurationText)
    requires NoLineBreaks(text)
    ensures !IsUri(DurationLine(ticks, timescale, text)) && OneLine(DurationLine(ticks, timescale, text))
  {
    AsciiLine("#EXTINF:");
    AsciiLine(",");
    assert OneLine(text(ticks, timescale));
    OneLineAppend(Ascii("#EXTINF:"), text(ticks, timescale));
    OneLineAppend(Ascii("#EXTINF:") + text(ticks, timescale), Ascii(","));
  }

  lemma HeaderLinesAreTags(target: nat)
    ensures OneLineEach(HeaderLines(target)) && Uris(HeaderLines(target)) == []
  {
    hide Digits;
    AsciiLine("#EXTM3U");
    AsciiLine("#EXT-X-VERSION:7");
    AsciiLine("#EXT-X-INDEPENDENT-SEGMENTS");
    AsciiLine("#EXT-X-TARGETDURATION:");
    AsciiLine("#EXT-X-PLAYLIST-TYPE:VOD");
    AsciiLine("#EXT-X-MAP:URI=\"init.mp4\"");
    OneLineAppend(Ascii("#EXT-X-TARGETDURATION:"), Digits(target));
    NoUris(HeaderLines(target));
  }

  lemma TagThenUri(tag: bytes, uri: bytes)
    requires !IsUri(tag) && IsUri(uri)
    ensures Uris([tag, uri]) == [uri]
  {
    assert [tag, uri][..1] == [tag];
    NoUris([tag]);
  }

  lemma {:induction false} EntryUris(ts: seq<nat>, timescale: nat, text: DurationText, n: nat)
    requires n <= |ts| && NoLineBreaks(text)
    ensures OneLineEach(EntryLines(ts, timescale, text, n)) && Uris(EntryLines(ts, timescale, text, n)) == Names(n)
    decreases n
  {
    hide SegmentName, DurationLine, OneLine, NoLineBreaks;
    if n > 0 {
      EntryUris(ts, timescale, text, n - 1);
      var before, two := EntryLines(ts, timescale, text, n - 1), [DurationLine(ts[n - 1], timescale, text),
          SegmentName(n - 1)];
      DurationLineIsTag(ts[n - 1], timescale, text);
      NameIsUri(n - 1);
      UrisAppend(before, two);
      TagThenUri(two[0], two[1]);
      assert Names(n) == Names(n - 1) + [SegmentName(n - 1)];
    }
  }

  /** A reader of the rendered text finds exactly the names of all segments, in order. */
  lemma ReaderFindsSegments(view: IndexView, text: DurationText)
    requires Listable(view) && NoLineBreaks(text)
    ensures LinesOf(Unlines(RenderedLines(view, text))) == RenderedLines(view, text)
    ensures Uris(LinesOf(Unlines(RenderedLines(view, text)))) == Names(|view.segments|)
  {
    hide HeaderLines, EntryLines, Unlines, LinesOf, HasVideo, SegmentTicks;
    var ts, timescale: nat := AllTicks(view.segments, view.videoSamples), view.video.timescale;
    var target := TargetDuration(ts, timescale);
    var head, entries, end := HeaderLines(target), EntryLines(ts, timescale, text, |ts|), [Ascii("#EXT-X-ENDLIST")];
    HeaderLinesAreTags(target);
    EntryUris(ts, timescale, text, |ts|);
    AsciiLine("#EXT-X-ENDLIST");
    NoUris(end);
    UrisAppend(head, entries);
    UrisAppend(head + entries, end);
    var blank := BlankLines(|Unlines(PlaylistLines(ts, timescale, text))|);
    NoUris(blank);
    UrisAppend(PlaylistLines(ts, timescale, text), blank);
    LinesReadBack(RenderedLines(view, text));
  }

  /** Each of those names is taken by the server for the segment in whose place it stands. */
  lemma PlaylistNamesSegments(view: IndexView, text: DurationText, k: nat)
    requires Listable(view) && NoLineBreaks(text) && k < |view.segments| <= U32_MAX
    ensures |Uris(LinesOf(Unlines(RenderedLines(view, text))))| == |view.segments|
    ensures ParseSegmentIdx(Uris(LinesOf(Unlines(RenderedLines(view, text))))[k]) == Some(k)
  {
    hide RenderedLines, SegmentName, ParseSegmentIdx;
    ReaderFindsSegments(view, text);
    NameReadsBack(k);
  }

  /** The reader finds the least whole number of seconds that no segment of the table exceeds. */
  lemma ReaderFindsTarget(view: IndexView, text: DurationText)
    requires Listable(view) && NoLineBreaks(text)
    ensures FoundTarget(LinesOf(Unlines(RenderedLines(view, text))))
            == Some(TargetDuration(AllTicks(view.segments, view.videoSamples), view.video.timescale))
  {
    hide EntryLines, Unlines, LinesOf, HasVideo, SegmentTicks, Digits;
    ReaderFindsSegments(view, text);
    var target := TargetDuration(AllTicks(view.segments, view.videoSamples), view.video.timescale);
    ValueOfDigits(target);
    var lines, tag := RenderedLines(view, text), Ascii("#EXT-X-TARGETDURATION:");
    assert lines[3] == tag + Digits(target);
    assert StripPrefix(lines[3], tag) == Some(Digits(target));
    assert lines[0] == Ascii("#EXTM3U") && lines[1] == Ascii("#EXT-X-VERSION:7");
    assert lines[2] == Ascii("#EXT-X-INDEPENDENT-SEGMENTS") && lines[2][7] != tag[7];
    assert lines[1][7] != tag[7];
    SkipLine(lines);
    SkipLine(lines[1..]);
    SkipLine(lines[2..]);
    assert FoundTarget(lines[3..]) == Some(target);
  }

  lemma {:induction false} SkipLine(lines: seq<bytes>)
    requires |lines| > 0 && !(Ascii("#EXT-X-TARGETDURATION:") <= lines[0])
    ensures FoundTarget(lines) == FoundTarget(lines[1..])
  {}
}
