/**
 How a track is laid out in a file, apart from the walker: chunks that hold samples side by side, and the
 compact tables that encode them. The walker accepts exactly the tables of some layout, and finds it.
 */
module TrackLayout {
  import opened Bytes
  import opened Format
  import opened SampleTable
  import opened TableLaws
  import opened Wrappers

  // ---------- Runs ----------

  /** The values that a run-length table stands for, one after another. */
  function Expanded<T>(runs: seq<(int, T)>): seq<T>
    requires forall e :: 0 <= e < |runs| ==> runs[e].0 >= 0
  {
    if |runs| == 0 then []
    else
      var last := runs[|runs| - 1];
      Expanded(runs[..|runs| - 1]) + seq(last.0, _ => last.1)
  }

  lemma {:induction false} RunsExpand<T>(runs: seq<(u32, T)>)
    ensures |Expanded(runs)| == RunTotal(runs)
    ensures forall i :: 0 <= i < RunTotal(runs) ==> Expanded(runs)[i] == RunValue(runs, i)
  {
    if |runs| > 0 {
      RunsExpand(runs[..|runs| - 1]);
    }
  }

  // ---------- Chunks ----------

  /** Every run has chunks in it. */
  predicate NonEmpty(runs: seq<(nat, u32)>) {
    forall e :: 0 <= e < |runs| ==> runs[e].0 > 0
  }

  /** A run of chunks with equally many samples is stored as the number of its first chunk (section 8.7.4). */
  function FirstChunks(runs: seq<(nat, u32)>): (t: seq<(nat, u32)>)
    ensures |t| == |runs|
  {
    if |runs| == 0 then []
    else
      var front := runs[..|runs| - 1];
      FirstChunks(front) + [(1 + |Expanded(front)|, runs[|runs| - 1].1)]
  }

  /** Samples in the first `c` chunks. */
  function Total(counts: seq<u32>, c: nat): nat
    requires c <= |counts|
  {
    if c == 0 then 0 else Total(counts, c - 1) + counts[c - 1]
  }

  /** Samples lie side by side from `offset` on, and end within 64 bits. */
  predicate Chained(rows: seq<RawSampleEntry>, offset: nat) {
    && (|rows| > 0 ==> rows[0].offset == offset)
    && (forall j :: 0 < j < |rows| ==> rows[j].offset == rows[j - 1].offset + rows[j - 1].size)
    && (forall j :: 0 <= j < |rows| ==> rows[j].offset + rows[j].size <= U64_MAX)
  }

  /** Chunk `c` holds its share of the samples. */
  predicate ChunkHolds(rows: seq<RawSampleEntry>, counts: seq<u32>, c: nat, offset: nat)
    requires c < |counts|
  {
    && Total(counts, c) <= Total(counts, c + 1) <= |rows|
    && Chained(rows[Total(counts, c)..Total(counts, c + 1)], offset)
  }

  /** The chunks at these offsets, with this many samples each, hold all the samples in order. */
  predicate LaidOut(rows: seq<RawSampleEntry>, counts: seq<u32>, chunks: seq<u64>) {
    && |counts| == |chunks| && Total(counts, |counts|) == |rows|
    && forall c :: 0 <= c < |counts| ==> ChunkHolds(rows, counts, c, chunks[c])
  }

  // ---------- Columns ----------

  predicate SizesAre(sizes: seq<u32>, rows: seq<RawSampleEntry>) {
    |sizes| == |rows| && forall i :: 0 <= i < |rows| ==> sizes[i] == rows[i].size
  }

  predicate DeltasAre(runs: seq<(u32, u32)>, rows: seq<RawSampleEntry>) {
    |Expanded(runs)| == |rows| && forall i :: 0 <= i < |rows| ==> Expanded(runs)[i] == rows[i].dtsDelta
  }

  /** Without a table all composition offsets are zero. */
  predicate OffsetsAre(runs: Option<seq<(u32, i32)>>, rows: seq<RawSampleEntry>) {
    if runs.None? then forall i :: 0 <= i < |rows| ==> rows[i].ctsOffset == 0
    else
      && |Expanded(runs.value)| == |rows|
      && forall i :: 0 <= i < |rows| ==> Expanded(runs.value)[i] == rows[i].ctsOffset
  }

  /** Without a table all samples are sync; else those with the listed numbers, which count from 1. */
  predicate SyncsAre(listed: Option<seq<u32>>, rows: seq<RawSampleEntry>) {
    if listed.None? then forall i :: 0 <= i < |rows| ==> rows[i].isSync
    else
      && (forall k :: 0 <= k < |listed.value| ==> 0 < listed.value[k] <= |rows|)
      && forall i :: 0 <= i < |rows| ==> (rows[i].isSync <==> i + 1 in listed.value)
  }

  /** The tables describe these samples, with the chunks grouped into these runs. */
  predicate Describes(t: Tables, rows: seq<RawSampleEntry>, runs: seq<(nat, u32)>) {
    && NonEmpty(runs) && t.stsc == FirstChunks(runs) && LaidOut(rows, Expanded(runs), t.chunks)
    && SizesAre(t.sizes, rows) && DeltasAre(t.stts, rows) && OffsetsAre(t.ctts, rows) && SyncsAre(t.stss, rows)
  }

  // ---------- Chunk tables ----------

  /** Encoding runs of chunks gives an acceptable table that says of each chunk what the runs say. */
  lemma {:induction false} RunsEncode(runs: seq<(nat, u32)>, stsc: seq<(u32, u32)>)
    requires NonEmpty(runs) && stsc == FirstChunks(runs)
    ensures StscOk(stsc, |Expanded(runs)|)
    ensures forall c :: 0 <= c < |Expanded(runs)| ==> ChunkSamples(stsc, c) == Expanded(runs)[c]
    decreases |runs|
  {
    if |runs| > 0 {
      var front := runs[..|runs| - 1];
      assert stsc[..|stsc| - 1] == FirstChunks(front);
      RunsEncode(front, stsc[..|stsc| - 1]);
      assert stsc[|stsc| - 1].0 == 1 + |Expanded(front)|;
      if |front| > 0 {
        assert stsc[..|stsc| - 1][0] == stsc[0];
        assert stsc[..|stsc| - 1][|stsc| - 2] == stsc[|stsc| - 2];
      }
    }
  }

  /** All entries but the last are a table for the chunks before the last entry. */
  lemma {:induction false} TableFront(stsc: seq<(u32, u32)>, n: nat)
    requires StscOk(stsc, n) && |stsc| > 0
    ensures var last := |stsc| - 1;
            && 0 < stsc[last].0 <= n && StscOk(stsc[..last], stsc[last].0 - 1)
            && stsc == stsc[..last] + [stsc[last]]
  {}

  /** One more run of chunks. */
  lemma {:induction false} RunsSnoc(front: seq<(nat, u32)>, count: nat, value: u32)
    requires NonEmpty(front) && count > 0
    ensures var runs := front + [(count, value)];
            && NonEmpty(runs) && FirstChunks(runs) == FirstChunks(front) + [(1 + |Expanded(front)|, value)]
            && |Expanded(runs)| == |Expanded(front)| + count
  {
    var runs := front + [(count, value)];
    assert runs[..|runs| - 1] == front && runs[|runs| - 1] == (count, value);
  }

  /** Every acceptable table comes from runs of chunks. */
  lemma {:induction false} RunsDecode(stsc: seq<(u32, u32)>, n: nat) returns (runs: seq<(nat, u32)>)
    requires StscOk(stsc, n)
    ensures NonEmpty(runs) && FirstChunks(runs) == stsc && |Expanded(runs)| == n
    decreases |stsc|
  {
    if |stsc| == 0 {
      runs := [];
    } else {
      hide StscOk, FirstChunks, Expanded, NonEmpty;
      var last := |stsc| - 1;
      TableFront(stsc, n);
      var before: nat := stsc[last].0 - 1;
      var front := RunsDecode(stsc[..last], before);
      RunsSnoc(front, n - before, stsc[last].1);
      runs := front + [(n - before, stsc[last].1)];
    }
  }

  lemma {:induction false} StartsAreTotals(stsc: seq<(u32, u32)>, counts: seq<u32>, c: nat)
    requires c <= |counts| && forall k :: 0 <= k < |counts| ==> ChunkSamples(stsc, k) == counts[k]
    ensures ChunkStart(stsc, c) == Total(counts, c)
    decreases c
  {
    hide ChunkSamples;
    if c > 0 {
      StartsAreTotals(stsc, counts, c - 1);
    }
  }

  // ---------- Offsets ----------

  /** Sample `i` lies behind the samples of its chunk, which starts with sample `lo`. */
  predicate OffsetIs(rows: seq<RawSampleEntry>, sizes: seq<u32>, lo: nat, i: nat, offset: nat)
    requires lo <= i < |rows| && |sizes| == |rows|
  {
    rows[i].offset == offset + SizeSum(sizes, lo, i) && rows[i].offset + sizes[i] <= U64_MAX
  }

  /** Lying side by side is lying behind the sum of the sizes. */
  lemma {:induction false} ChainedOffsets(rows: seq<RawSampleEntry>, sizes: seq<u32>, lo: nat, i: nat, hi: nat,
                                          offset: nat)
    requires lo <= i < hi <= |rows| && SizesAre(sizes, rows) && Chained(rows[lo..hi], offset)
    ensures OffsetIs(rows, sizes, lo, i, offset)
    decreases i
  {
    var g := rows[lo..hi];
    assert g[i - lo] == rows[i];
    if lo < i {
      ChainedOffsets(rows, sizes, lo, i - 1, hi, offset);
      assert g[i - lo - 1] == rows[i - 1];
    }
  }

  lemma OffsetsChained(rows: seq<RawSampleEntry>, sizes: seq<u32>, lo: nat, hi: nat, offset: nat)
    requires lo <= hi <= |rows| && SizesAre(sizes, rows)
    requires forall i :: lo <= i < hi ==> OffsetIs(rows, sizes, lo, i, offset)
    ensures Chained(rows[lo..hi], offset)
  {
    var g := rows[lo..hi];
    forall j | 0 <= j < |g|
      ensures g[j] == rows[lo + j] && OffsetIs(rows, sizes, lo, lo + j, offset)
    {
    }
    if |g| > 0 {
      assert SizeSum(sizes, lo, lo) == 0;
    }
    forall j | 0 < j < |g|
      ensures g[j].offset == g[j - 1].offset + g[j - 1].size
    {
      assert SizeSum(sizes, lo, lo + j) == SizeSum(sizes, lo, lo + j - 1) + sizes[lo + j - 1];
    }
  }

  /** What the walker makes of sample `i` of chunk `c`. */
  lemma OffsetOf(t: Tables, c: nat, i: nat)
    requires c < |t.chunks| && ChunkStart(t.stsc, c) <= i < ChunkStart(t.stsc, c + 1)
    requires ChunkStart(t.stsc, |t.chunks|) == |t.sizes|
    ensures i < |t.sizes| && SampleOffset(t, i) == t.chunks[c] + SizeSum(t.sizes, ChunkStart(t.stsc, c), i)
  {
    hide ChunkStart, ChunkOf, SizeSum;
    ChunkOfUnique(t.stsc, |t.chunks|, c, i);
  }

  // ---------- The walk ----------

  /** The chunks of described samples start where the walker says, and hold what it says. */
  lemma {:induction false} DescribedChunks(t: Tables, rows: seq<RawSampleEntry>, runs: seq<(nat, u32)>)
    requires Describes(t, rows, runs)
    ensures StscOk(t.stsc, |t.chunks|) && |Expanded(runs)| == |t.chunks|
    ensures ChunkStart(t.stsc, |t.chunks|) == |t.sizes| == |rows|
    ensures forall c :: 0 <= c <= |t.chunks| ==> ChunkStart(t.stsc, c) == Total(Expanded(runs), c)
  {
    hide Expanded, FirstChunks, ChunkStart, Total, ChunkHolds, DeltasAre, OffsetsAre, SyncsAre;
    RunsEncode(runs, t.stsc);
    forall c | 0 <= c <= |t.chunks|
      ensures ChunkStart(t.stsc, c) == Total(Expanded(runs), c)
    {
      StartsAreTotals(t.stsc, Expanded(runs), c);
    }
  }

  lemma DescribedOffset(t: Tables, rows: seq<RawSampleEntry>, runs: seq<(nat, u32)>, i: nat)
    requires Describes(t, rows, runs) && i < |rows|
    ensures i < ChunkStart(t.stsc, |t.chunks|) <= |t.sizes|
    ensures rows[i].offset == SampleOffset(t, i) && SampleOffset(t, i) + t.sizes[i] <= U64_MAX
  {
    hide Expanded, FirstChunks, ChunkStart, Total, DeltasAre, OffsetsAre, SyncsAre, Chained, StscOk, SampleOffset;
    DescribedChunks(t, rows, runs);
    var c := ChunkOf(t.stsc, |t.chunks|, i);
    var lo, hi := ChunkStart(t.stsc, c), ChunkStart(t.stsc, c + 1);
    assert ChunkHolds(rows, Expanded(runs), c, t.chunks[c]);
    ChainedOffsets(rows, t.sizes, lo, i, hi, t.chunks[c]);
    OffsetOf(t, c, i);
  }

  /** Tables that describe samples are accepted, and the samples found again. */
  lemma DescribedIsWalked(t: Tables, rows: seq<RawSampleEntry>, runs: seq<(nat, u32)>)
    requires Describes(t, rows, runs)
    ensures Walkable(t) && SamplesOf(t) == rows
  {
    hide Expanded, FirstChunks, ChunkStart, Total, Chained, StscOk, SampleOffset, LaidOut, RunTotal, RunValue;
    DescribedChunks(t, rows, runs);
    RunsExpand(t.stts);
    if t.ctts.Some? {
      RunsExpand(t.ctts.value);
    }
    forall i | 0 <= i < |rows|
      ensures rows[i].offset == SampleOffset(t, i) && SampleOffset(t, i) + t.sizes[i] <= U64_MAX
    {
      DescribedOffset(t, rows, runs, i);
    }
    assert Walkable(t);
    forall i | 0 <= i < |rows|
      ensures rows[i] == SampleAt(t, i)
    {
    }
  }

  /** The chunks that the walker found hold the samples. */
  lemma WalkedChunk(t: Tables, counts: seq<u32>, c: nat)
    requires Walkable(t) && c < |counts| == |t.chunks|
    requires forall k :: 0 <= k < |counts| ==> ChunkSamples(t.stsc, k) == counts[k]
    ensures ChunkHolds(SamplesOf(t), counts, c, t.chunks[c])
  {
    hide ChunkStart, Total, Chained, StscOk, SampleOffset, RunTotal, RunValue, ChunkSamples;
    StartsAreTotals(t.stsc, counts, c);
    StartsAreTotals(t.stsc, counts, c + 1);
    ChunkStartMonotone(t.stsc, c, c + 1);
    ChunkStartMonotone(t.stsc, c + 1, |t.chunks|);
    var rows, lo, hi := SamplesOf(t), Total(counts, c), Total(counts, c + 1);
    forall i | lo <= i < hi
      ensures OffsetIs(rows, t.sizes, lo, i, t.chunks[c])
    {
      OffsetOf(t, c, i);
    }
    OffsetsChained(rows, t.sizes, lo, hi, t.chunks[c]);
  }

  lemma WalkedColumns(t: Tables)
    requires Walkable(t)
    ensures SizesAre(t.sizes, SamplesOf(t)) && DeltasAre(t.stts, SamplesOf(t))
    ensures OffsetsAre(t.ctts, SamplesOf(t)) && SyncsAre(t.stss, SamplesOf(t))
  {
    hide ChunkStart, SampleOffset, RunTotal, RunValue, StscOk, Expanded;
    RunsExpand(t.stts);
    if t.ctts.Some? {
      RunsExpand(t.ctts.value);
    }
    if t.stss.Some? {
      assert forall k :: 0 <= k < |t.stss.value| ==> t.stss.value[k] in t.stss.value;
    }
  }

  lemma WalkedIsDescribed(t: Tables) returns (runs: seq<(nat, u32)>)
    requires Walkable(t)
    ensures Describes(t, SamplesOf(t), runs)
  {
    hide FirstChunks, ChunkStart, Total, SampleOffset, RunTotal, RunValue, ChunkSamples, ChunkHolds, StscOk,
         Expanded, SizesAre, DeltasAre, OffsetsAre, SyncsAre;
    runs := RunsDecode(t.stsc, |t.chunks|);
    var rows, counts := SamplesOf(t), Expanded(runs);
    RunsEncode(runs, t.stsc);
    forall c | 0 <= c < |counts|
      ensures ChunkHolds(rows, counts, c, t.chunks[c])
    {
      WalkedChunk(t, counts, c);
    }
    StartsAreTotals(t.stsc, counts, |counts|);
    WalkedColumns(t);
  }

  /** The walker accepts the tables exactly if they describe some samples, and these are what it returns. */
  lemma WalkMeaning(t: Tables, rows: seq<RawSampleEntry>)
    ensures Walkable(t) && SamplesOf(t) == rows <==> exists runs :: Describes(t, rows, runs)
  {
    hide Walkable, SamplesOf, Describes;
    if Walkable(t) && SamplesOf(t) == rows {
      var runs := WalkedIsDescribed(t);
    }
    if runs :| Describes(t, rows, runs) {
      DescribedIsWalked(t, rows, runs);
    }
  }

  /** These tables lie in the file, and describe these samples. */
  ghost predicate FileDescribes(data: bytes, locs: SampleTableLocs, t: Tables, rows: seq<RawSampleEntry>) {
    TablesLie(data, locs, t) && exists runs :: Describes(t, rows, runs)
  }

  /** From the bytes of a file to its samples: they are found exactly if tables that describe them lie there. */
  lemma FileMeaning(data: bytes, locs: SampleTableLocs, rows: seq<RawSampleEntry>)
    ensures HoldsSamples(data, locs) && SamplesAt(data, locs) == rows
            <==> exists t :: FileDescribes(data, locs, t, rows)
  {
    hide Walkable, SamplesOf, Describes, Decodes, Decoded, TablesLie;
    if Decodes(data, locs) {
      DecodedMeaning(data, locs, Decoded(data, locs));
      WalkMeaning(Decoded(data, locs), rows);
    }
    if HoldsSamples(data, locs) && SamplesAt(data, locs) == rows {
      assert FileDescribes(data, locs, Decoded(data, locs), rows);
    }
    if t :| FileDescribes(data, locs, t, rows) {
      DecodedMeaning(data, locs, t);
      WalkMeaning(t, rows);
    }
  }
}
