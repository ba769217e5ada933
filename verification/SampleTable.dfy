/** Sample-table walker: six compact tables become one row per sample. */
module SampleTable {
  import opened Bytes
  import opened Format
  import opened Sources
  import opened Wrappers

  datatype ChunkOffsets = Stco(range: ByteRange) | Co64(range: ByteRange)

  datatype SampleTableLocs = SampleTableLocs(
    stts: ByteRange, stsc: ByteRange, stsz: ByteRange, chunkOffsets: ChunkOffsets,
    stss: Option<ByteRange>, ctts: Option<ByteRange>)

  // ---------- Full-box tables ----------

  /** The payload in `range`, if it is long enough and lies inside the source. */
  function Payload(data: bytes, range: ByteRange, minLen: nat): (p: Option<bytes>)
    ensures p.Some? ==> |p.value| == range.len >= minLen
  {
    if range.len >= minLen && Readable(data, range.offset, range.len)
    then Some(Slice(data, range.offset, range.len)) else None
  }

  method ReadPayload(src: Source, range: ByteRange, minLen: nat) returns (r: Result<bytes>)
    ensures r.Ok? <==> Payload(src.data, range, minLen).Some?
    ensures r.Ok? ==> r.value == Payload(src.data, range, minLen).value
  {
    if range.len < minLen {
      return Err(MalformedAtom);
    }
    r := ReadBytes(src, range.offset, range.len);
  }

  /** Every row parses. */
  ghost predicate AllParse<T(!new)>(version: byte, rows: seq<bytes>, w: nat, parse: (byte, bytes) --> Result<T>)
    requires Uniform(rows, w) && forall v: byte, c: bytes :: |c| == w ==> parse.requires(v, c)
  {
    forall i :: 0 <= i < |rows| ==> parse(version, rows[i]).Ok?
  }

  /** What a table box holds: `version` and flags, an entry count, and rows of `w` bytes each. */
  ghost function Table<T(!new)>(data: bytes, range: ByteRange, versions: set<byte>, w: nat,
                                parse: (byte, bytes) --> Result<T>): (t: Option<seq<T>>)
    requires forall v: byte, c: bytes :: |c| == w ==> parse.requires(v, c)
  {
    var p := Payload(data, range, 8);
    if p.None? || p.value[0] !in versions || |p.value| - 8 != U32At(p.value, 4) * w then None
    else
      var rows := Rows(p.value[8..], w, U32At(p.value, 4));
      if AllParse(p.value[0], rows, w, parse)
      then Some(seq(|rows|, i requires 0 <= i < |rows| => parse(p.value[0], rows[i]).value)) else None
  }

  method ReadTable<T(!new)>(src: Source, range: ByteRange, versions: set<byte>, w: nat,
                            parse: (byte, bytes) --> Result<T>) returns (r: Result<seq<T>>)
    requires forall v: byte, c: bytes :: |c| == w ==> parse.requires(v, c)
    ensures r.Ok? <==> Table(src.data, range, versions, w, parse).Some?
    ensures r.Ok? ==> r.value == Table(src.data, range, versions, w, parse).value
  {
    var payload :- ReadPayload(src, range, 8);
    if payload[0] !in versions {
      return Err(MalformedAtom);
    }
    var count: nat := U32At(payload, 4);
    if |payload| - 8 != count * w {
      return Err(MalformedAtom);
    }
    var rows := Rows(payload[8..], w, count);
    var out: seq<T> := [];
    for i := 0 to |rows|
      invariant |out| == i
      invariant forall j :: 0 <= j < i ==> parse(payload[0], rows[j]).Ok? && out[j] == parse(payload[0], rows[j]).value
    {
      var row := parse(payload[0], rows[i]);
      if row.Err? {
        return Err(MalformedAtom);
      }
      out := out + [row.value];
    }
    return Ok(out);
  }

  function ParseStts(version: byte, c: bytes): Result<(u32, u32)>
    requires |c| == 8
  {
    Ok((U32At(c, 0), U32At(c, 4)))
  }

  function ParseCtts(version: byte, c: bytes): Result<(u32, i32)>
    requires |c| == 8
  {
    if version == 0 then
      if U32At(c, 4) > I32_MAX then Err(MalformedAtom) else Ok((U32At(c, 0), U32At(c, 4)))
    else Ok((U32At(c, 0), Signed32(U32At(c, 4))))
  }

  function ParseStss(version: byte, c: bytes): Result<u32>
    requires |c| == 4
  {
    Ok(U32At(c, 0))
  }

  /** First chunk and samples per chunk; the description index must be 1. */
  function ParseStsc(version: byte, c: bytes): Result<(u32, u32)>
    requires |c| == 12
  {
    if U32At(c, 8) != 1 then Err(MalformedAtom) else Ok((U32At(c, 0), U32At(c, 4)))
  }

  function ParseStco(version: byte, c: bytes): Result<u64>
    requires |c| == 4
  {
    Ok(U32At(c, 0))
  }

  function ParseCo64(version: byte, c: bytes): Result<u64>
    requires |c| == 8
  {
    Ok(U64At(c, 0))
  }

  /** `stsz`: either one size for all samples and no rows, or one row per sample. */
  ghost function Sizes(data: bytes, range: ByteRange): (t: Option<seq<u32>>) {
    var p := Payload(data, range, 12);
    if p.None? || p.value[0] != 0 then None
    else
      var size: nat, n: nat, body := U32At(p.value, 4), U32At(p.value, 8), p.value[12..];
      if size != 0 then
        if |body| != 0 then None else Some(seq(n, _ => size))
      else if |body| != n * 4 then None
      else Some(seq(n, i requires 0 <= i < n => U32At(Rows(body, 4, n)[i], 0)))
  }

  method ReadStsz(src: Source, range: ByteRange) returns (r: Result<seq<u32>>)
    ensures r.Ok? <==> Sizes(src.data, range).Some?
    ensures r.Ok? ==> r.value == Sizes(src.data, range).value
  {
    var payload :- ReadPayload(src, range, 12);
    if payload[0] != 0 {
      return Err(MalformedAtom);
    }
    var size: nat, count: nat, body := U32At(payload, 4), U32At(payload, 8), payload[12..];
    if size != 0 {
      if |body| != 0 {
        return Err(MalformedAtom);
      }
      return Ok(seq(count, _ => size));
    }
    if |body| != count * 4 {
      return Err(MalformedAtom);
    }
    var rows := Rows(body, 4, count);
    var out: seq<u32> := [];
    for i := 0 to count
      invariant |out| == i && forall j :: 0 <= j < i ==> out[j] == U32At(rows[j], 0)
    {
      out := out + [U32At(rows[i], 0)];
    }
    return Ok(out);
  }

  // ---------- Run-length tables ----------

  function RunTotal<T>(runs: seq<(u32, T)>): (n: nat) {
    if |runs| == 0 then 0 else RunTotal(runs[..|runs| - 1]) + runs[|runs| - 1].0
  }

  /** The value of the run that covers position `i`. */
  function RunValue<T>(runs: seq<(u32, T)>, i: nat): T
    requires i < RunTotal(runs)
  {
    var last := |runs| - 1;
    if i < RunTotal(runs[..last]) then RunValue(runs[..last], i) else runs[last].1
  }

  lemma {:induction false} RunPrefix<T>(runs: seq<(u32, T)>, k: nat)
    requires k <= |runs|
    ensures RunTotal(runs[..k]) <= RunTotal(runs)
    ensures forall i :: 0 <= i < RunTotal(runs[..k]) ==> RunValue(runs[..k], i) == RunValue(runs, i)
    decreases |runs|
  {
    if k < |runs| {
      RunPrefix(runs[..|runs| - 1], k);
      assert runs[..|runs| - 1][..k] == runs[..k];
    } else {
      assert runs[..k] == runs;
    }
  }

  /** Sample `i` has the value of the run whose samples it is among. */
  lemma {:induction false} RunValueMeaning<T>(runs: seq<(u32, T)>, e: nat, i: nat)
    requires e < |runs| && RunTotal(runs[..e]) <= i < RunTotal(runs[..e]) + runs[e].0
    ensures i < RunTotal(runs) && RunValue(runs, i) == runs[e].1
    decreases |runs|
  {
    var last := |runs| - 1;
    if e < last {
      assert runs[..last][..e] == runs[..e];
      RunValueMeaning(runs[..last], e, i);
    }
  }

  /** Expanding a run table into one value per sample. */
  method ExpandRuns<T>(runs: seq<(u32, T)>, n: nat) returns (r: Result<seq<T>>)
    ensures r.Ok? <==> RunTotal(runs) == n
    ensures r.Err? ==> r.error == SampleTableInconsistent
    ensures r.Ok? ==> |r.value| == n && forall i :: 0 <= i < n ==> r.value[i] == RunValue(runs, i)
  {
    var out: seq<T> := [];
    for k := 0 to |runs|
      invariant |out| == RunTotal(runs[..k]) <= n
      invariant forall i :: 0 <= i < |out| ==> out[i] == RunValue(runs[..k], i)
    {
      assert runs[..k + 1][..k] == runs[..k];
      RunPrefix(runs, k + 1);
      for j := 0 to runs[k].0
        invariant |out| == RunTotal(runs[..k]) + j <= n
        invariant forall i :: 0 <= i < |out| ==> out[i] == RunValue(runs[..k + 1], i)
      {
        if |out| == n {
          return Err(SampleTableInconsistent);
        }
        out := out + [runs[k].1];
      }
    }
    assert runs[..|runs|] == runs;
    if |out| != n {
      return Err(SampleTableInconsistent);
    }
    return Ok(out);
  }

  // ---------- Samples per chunk ----------

  /** Entries start at chunk 1, ascend strictly and stay within the chunk count. */
  ghost predicate StscOk(stsc: seq<(u32, u32)>, chunkCount: nat) {
    if |stsc| == 0 then chunkCount == 0
    else
      && stsc[0].0 == 1
      && (forall i, j :: 0 <= i < j < |stsc| ==> stsc[i].0 < stsc[j].0)
      && stsc[|stsc| - 1].0 <= chunkCount
  }

  /** Samples in chunk `c` (counted from 0): the last entry whose first chunk is at or before it. */
  function ChunkSamples(stsc: seq<(u32, u32)>, c: nat): u32 {
    if |stsc| == 0 then 0
    else if stsc[|stsc| - 1].0 <= c + 1 then stsc[|stsc| - 1].1
    else ChunkSamples(stsc[..|stsc| - 1], c)
  }

  /** Chunks settled by the first `i` entries. */
  ghost function Covered(stsc: seq<(u32, u32)>, chunkCount: nat, i: nat): nat {
    if i < |stsc| then (if stsc[i].0 == 0 then 0 else stsc[i].0 - 1) else chunkCount
  }

  /** Entry `i` adds its own chunks and leaves the chunks before it as they were. */
  lemma {:induction false} EntryAdds(stsc: seq<(u32, u32)>, i: nat, c: nat)
    requires i < |stsc|
    ensures ChunkSamples(stsc[..i + 1], c) == if c + 1 < stsc[i].0 then ChunkSamples(stsc[..i], c) else stsc[i].1
  {
    assert stsc[..i + 1][..i] == stsc[..i];
  }

  /** Entry `e` is the one in force at chunk `c`: it starts at or before it, and the next one after it. */
  ghost predicate InForce(stsc: seq<(u32, u32)>, c: nat, e: nat) {
    e < |stsc| && stsc[e].0 <= c + 1 && (e + 1 < |stsc| ==> c + 1 < stsc[e + 1].0)
  }

  /** In an accepted table every chunk gets its samples from the entry in force there. */
  lemma {:induction false} ChunkSamplesMeaning(stsc: seq<(u32, u32)>, chunkCount: nat, c: nat)
    requires StscOk(stsc, chunkCount) && c < chunkCount
    ensures exists e: nat :: InForce(stsc, c, e) && ChunkSamples(stsc, c) == stsc[e].1
    decreases |stsc|
  {
    var last: nat := |stsc| - 1;
    if stsc[last].0 > c + 1 {
      ChunkSamplesMeaning(stsc[..last], chunkCount, c);
      var e: nat :| InForce(stsc[..last], c, e) && ChunkSamples(stsc[..last], c) == stsc[..last][e].1;
      assert InForce(stsc, c, e);
    } else {
      assert InForce(stsc, c, last);
    }
  }

  method ExpandStsc(stsc: seq<(u32, u32)>, chunkCount: nat) returns (r: Result<seq<u32>>)
    ensures r.Ok? <==> StscOk(stsc, chunkCount)
    ensures r.Err? ==> r.error == SampleTableInconsistent
    ensures r.Ok? ==> |r.value| == chunkCount && forall c :: 0 <= c < chunkCount ==> r.value[c] == ChunkSamples(stsc, c)
  {
    var slots := new u32[chunkCount];
    if |stsc| == 0 {
      if chunkCount != 0 {
        return Err(SampleTableInconsistent);
      }
      return Ok(slots[..]);
    }
    if stsc[0].0 != 1 {
      return Err(SampleTableInconsistent);
    }
    for i := 0 to |stsc|
      invariant i < |stsc| ==> 1 <= stsc[i].0 <= chunkCount + 1
      invariant forall a, b :: 0 <= a < b <= i && b < |stsc| ==> stsc[a].0 < stsc[b].0
      invariant i > 0 ==> stsc[i - 1].0 <= chunkCount
      invariant Covered(stsc, chunkCount, i) <= chunkCount
      invariant forall c :: 0 <= c < Covered(stsc, chunkCount, i) ==> slots[c] == ChunkSamples(stsc[..i], c)
    {
      var to := chunkCount;
      if i + 1 < |stsc| {
        if stsc[i + 1].0 <= stsc[i].0 {
          return Err(SampleTableInconsistent);
        }
        to := stsc[i + 1].0 - 1;
      }
      var from := stsc[i].0 - 1;
      if from >= chunkCount || to > chunkCount {
        return Err(SampleTableInconsistent);
      }
      forall c | 0 <= c < to
        ensures ChunkSamples(stsc[..i + 1], c) == if c < from then ChunkSamples(stsc[..i], c) else stsc[i].1
      {
        EntryAdds(stsc, i, c);
      }
      for c := from to to
        invariant forall d :: 0 <= d < c ==> slots[d] == ChunkSamples(stsc[..i + 1], d)
      {
        slots[c] := stsc[i].1;
      }
    }
    assert stsc[..|stsc|] == stsc;
    return Ok(slots[..]);
  }

  // ---------- The walk ----------

  /** The decoded tables of one track. */
  datatype Tables = Tables(
    sizes: seq<u32>, stts: seq<(u32, u32)>, stsc: seq<(u32, u32)>, chunks: seq<u64>,
    stss: Option<seq<u32>>, ctts: Option<seq<(u32, i32)>>)

  ghost function ChunkTable(data: bytes, co: ChunkOffsets): Option<seq<u64>> {
    match co
    case Stco(range) => Table(data, range, {0}, 4, ParseStco)
    case Co64(range) => Table(data, range, {0}, 8, ParseCo64)
  }

  /** Every table that the track has decodes. */
  ghost predicate Decodes(data: bytes, locs: SampleTableLocs) {
    && Sizes(data, locs.stsz).Some?
    && Table(data, locs.stts, {0}, 8, ParseStts).Some?
    && Table(data, locs.stsc, {0}, 12, ParseStsc).Some?
    && ChunkTable(data, locs.chunkOffsets).Some?
    && (locs.stss.Some? ==> Table(data, locs.stss.value, {0}, 4, ParseStss).Some?)
    && (locs.ctts.Some? ==> Table(data, locs.ctts.value, {0, 1}, 8, ParseCtts).Some?)
  }

  ghost function Decoded(data: bytes, locs: SampleTableLocs): Tables
    requires Decodes(data, locs)
  {
    Tables(
      Sizes(data, locs.stsz).value,
      Table(data, locs.stts, {0}, 8, ParseStts).value,
      Table(data, locs.stsc, {0}, 12, ParseStsc).value,
      ChunkTable(data, locs.chunkOffsets).value,
      if locs.stss.Some? then Some(Table(data, locs.stss.value, {0}, 4, ParseStss).value) else None,
      if locs.ctts.Some? then Some(Table(data, locs.ctts.value, {0, 1}, 8, ParseCtts).value) else None)
  }

  /** Samples in the first `c` chunks. */
  function ChunkStart(stsc: seq<(u32, u32)>, c: nat): (n: nat) {
    if c == 0 then 0 else ChunkStart(stsc, c - 1) + ChunkSamples(stsc, c - 1)
  }

  /** The chunk that holds sample `i`, among the first `n` chunks. */
  function ChunkOf(stsc: seq<(u32, u32)>, n: nat, i: nat): (c: nat)
    requires i < ChunkStart(stsc, n)
    ensures c < n && ChunkStart(stsc, c) <= i < ChunkStart(stsc, c + 1)
  {
    if i < ChunkStart(stsc, n - 1) then ChunkOf(stsc, n - 1, i) else n - 1
  }

  /** Bytes taken by samples `[lo, hi)`. */
  function SizeSum(sizes: seq<u32>, lo: nat, hi: nat): nat
    requires lo <= hi <= |sizes|
    decreases hi
  {
    if lo == hi then 0 else SizeSum(sizes, lo, hi - 1) + sizes[hi - 1]
  }

  /** Sample `i` follows the samples before it in its chunk. */
  function SampleOffset(t: Tables, i: nat): nat
    requires i < ChunkStart(t.stsc, |t.chunks|) <= |t.sizes|
  {
    var c := ChunkOf(t.stsc, |t.chunks|, i);
    t.chunks[c] + SizeSum(t.sizes, ChunkStart(t.stsc, c), i)
  }

  /** The tables describe the same number of samples, with valid indices. */
  ghost predicate Consistent(t: Tables) {
    var n := |t.sizes|;
    && RunTotal(t.stts) == n
    && (t.ctts.Some? ==> RunTotal(t.ctts.value) == n)
    && (t.stss.Some? ==> forall s :: s in t.stss.value ==> 1 <= s <= n)
    && StscOk(t.stsc, |t.chunks|)
    && ChunkStart(t.stsc, |t.chunks|) == n
  }

  /** And no sample ends beyond 64 bits. */
  ghost predicate Walkable(t: Tables) {
    && Consistent(t)
    && forall i :: 0 <= i < |t.sizes| ==> SampleOffset(t, i) + t.sizes[i] <= U64_MAX
  }

  /** What row `i` means, sample by sample. */
  ghost function SampleAt(t: Tables, i: nat): RawSampleEntry
    requires Walkable(t) && i < |t.sizes|
  {
    RawSampleEntry(SampleOffset(t, i), t.sizes[i], RunValue(t.stts, i),
                   if t.ctts.Some? then RunValue(t.ctts.value, i) else 0,
                   t.stss.None? || i + 1 in t.stss.value)
  }

  ghost function SamplesOf(t: Tables): (s: seq<RawSampleEntry>)
    requires Walkable(t)
    ensures |s| == |t.sizes| && forall i :: 0 <= i < |s| ==> s[i] == SampleAt(t, i)
  {
    seq(|t.sizes|, i requires 0 <= i < |t.sizes| => SampleAt(t, i))
  }

  /** The tables in this place decode, agree with each other, and overflow nothing. */
  ghost predicate HoldsSamples(data: bytes, locs: SampleTableLocs) {
    Decodes(data, locs) && Walkable(Decoded(data, locs))
  }

  ghost function SamplesAt(data: bytes, locs: SampleTableLocs): seq<RawSampleEntry>
    requires HoldsSamples(data, locs)
  {
    SamplesOf(Decoded(data, locs))
  }

  method ReadTables(src: Source, locs: SampleTableLocs) returns (r: Result<Tables>)
    ensures r.Ok? <==> Decodes(src.data, locs)
    ensures r.Ok? ==> r.value == Decoded(src.data, locs)
  {
    var sizes :- ReadStsz(src, locs.stsz);
    var stts :- ReadTable(src, locs.stts, {0}, 8, ParseStts);
    var stsc :- ReadTable(src, locs.stsc, {0}, 12, ParseStsc);
    var chunks;
    match locs.chunkOffsets {
      case Stco(range) => chunks :- ReadTable(src, range, {0}, 4, ParseStco);
      case Co64(range) => chunks :- ReadTable(src, range, {0}, 8, ParseCo64);
    }
    var stss: Option<seq<u32>> := None;
    if locs.stss.Some? {
      var t :- ReadTable(src, locs.stss.value, {0}, 4, ParseStss);
      stss := Some(t);
    }
    var ctts: Option<seq<(u32, i32)>> := None;
    if locs.ctts.Some? {
      var t :- ReadTable(src, locs.ctts.value, {0, 1}, 8, ParseCtts);
      ctts := Some(t);
    }
    return Ok(Tables(sizes, stts, stsc, chunks, stss, ctts));
  }

  /** One flag per sample; all set when the track has no sync table. */
  method MarkSync(stss: Option<seq<u32>>, n: nat) returns (r: Result<seq<bool>>)
    ensures r.Ok? <==> (stss.Some? ==> forall s :: s in stss.value ==> 1 <= s <= n)
    ensures r.Ok? ==> |r.value| == n
                      && forall i :: 0 <= i < n ==> (r.value[i] <==> stss.None? || i + 1 in stss.value)
  {
    var sync := new bool[n](_ => stss.None?);
    if stss.Some? {
      for k := 0 to |stss.value|
        invariant forall s :: s in stss.value[..k] ==> 1 <= s <= n
        invariant forall i :: 0 <= i < n ==> (sync[i] <==> i + 1 in stss.value[..k])
      {
        var s := stss.value[k];
        assert s in stss.value;
        if s == 0 || s > n {
          return Err(SampleTableInconsistent);
        }
        sync[s - 1] := true;
        assert stss.value[..k + 1] == stss.value[..k] + [s];
      }
      assert stss.value[..|stss.value|] == stss.value;
    }
    return Ok(sync[..]);
  }

  lemma {:induction false} ChunkStartMonotone(stsc: seq<(u32, u32)>, a: nat, b: nat)
    requires a <= b
    ensures ChunkStart(stsc, a) <= ChunkStart(stsc, b)
    decreases b
  {
    if a < b {
      ChunkStartMonotone(stsc, a, b - 1);
    }
  }

  /** Sample `j` of chunk `c` belongs to chunk `c`. */
  lemma {:induction false} ChunkOfUnique(stsc: seq<(u32, u32)>, n: nat, c: nat, i: nat)
    requires c < n && ChunkStart(stsc, c) <= i < ChunkStart(stsc, c + 1)
    ensures i < ChunkStart(stsc, n) && ChunkOf(stsc, n, i) == c
    decreases n
  {
    ChunkStartMonotone(stsc, c + 1, n);
    if c < n - 1 {
      ChunkOfUnique(stsc, n - 1, c, i);
    }
  }

  /** Rows placed from expanded tables are the samples of the tables. */
  lemma PlacedAreSamples(t: Tables, deltas: seq<u32>, cts: seq<i32>, sync: seq<bool>, rows: seq<RawSampleEntry>)
    requires Walkable(t) && |rows| == |deltas| == |cts| == |sync| == |t.sizes|
    requires forall i :: 0 <= i < |t.sizes| ==>
                           && deltas[i] == RunValue(t.stts, i)
                           && cts[i] == (if t.ctts.Some? then RunValue(t.ctts.value, i) else 0)
                           && (sync[i] <==> t.stss.None? || i + 1 in t.stss.value)
    requires forall i :: 0 <= i < |t.sizes| ==> PlacedRow(t, deltas, cts, sync, i, rows[i])
    ensures rows == SamplesOf(t)
  {
    hide SampleOffset, RunValue, RunTotal, StscOk, ChunkStart;
  }

  /** Expand the decoded tables and place the samples. */
  method Assemble(t: Tables) returns (r: Result<seq<RawSampleEntry>>)
    ensures r.Ok? <==> Walkable(t)
    ensures r.Ok? ==> r.value == SamplesOf(t)
  {
    hide RunValue, RunTotal, StscOk, ChunkStart, ChunkSamples, SampleOffset, PlacedRow, SampleAt;
    var deltas :- ExpandRuns(t.stts, |t.sizes|);
    var cts := seq(|t.sizes|, _ => 0);
    if t.ctts.Some? {
      cts :- ExpandRuns(t.ctts.value, |t.sizes|);
    }
    var sync :- MarkSync(t.stss, |t.sizes|);
    var perChunk :- ExpandStsc(t.stsc, |t.chunks|);
    r := LayOut(t, deltas, cts, sync, perChunk);
    if r.Ok? {
      PlacedAreSamples(t, deltas, cts, sync, r.value);
    }
  }

  method Walk(src: Source, locs: SampleTableLocs) returns (r: Result<seq<RawSampleEntry>>)
    ensures r.Ok? <==> HoldsSamples(src.data, locs)
    ensures r.Ok? ==> r.value == SamplesAt(src.data, locs)
  {
    hide Decodes, Decoded, Walkable;
    var t :- ReadTables(src, locs);
    r := Assemble(t);
  }

  /** The chunks hold exactly the samples, and no sample ends past 64 bits. */
  ghost predicate Placeable(t: Tables) {
    && ChunkStart(t.stsc, |t.chunks|) == |t.sizes|
    && forall i :: 0 <= i < |t.sizes| ==> SampleOffset(t, i) + t.sizes[i] <= U64_MAX
  }

  /** The next row of chunk `c`; if it ends too far, the tables are not acceptable. */
  lemma PlacedGrows(t: Tables, deltas: seq<u32>, cts: seq<i32>, sync: seq<bool>, c: nat, samples: seq<RawSampleEntry>,
                    off: u64)
    requires |deltas| == |cts| == |sync| == |t.sizes| && c < |t.chunks| && |samples| < |t.sizes|
    requires ChunkStart(t.stsc, c) <= |samples| < ChunkStart(t.stsc, c + 1)
    requires off == t.chunks[c] + SizeSum(t.sizes, ChunkStart(t.stsc, c), |samples|)
    requires Placed(t, deltas, cts, sync, samples)
    ensures var i := |samples|;
            && off + t.sizes[i] == t.chunks[c] + SizeSum(t.sizes, ChunkStart(t.stsc, c), i + 1)
            && if off + t.sizes[i] > U64_MAX then !Placeable(t)
               else Placed(t, deltas, cts, sync,
                           samples + [RawSampleEntry(off, t.sizes[i], deltas[i], cts[i], sync[i])])
  {
    hide ChunkStart, ChunkSamples, ChunkOf;
    var i := |samples|;
    ChunkOfUnique(t.stsc, |t.chunks|, c, i);
    assert ChunkStart(t.stsc, |t.chunks|) == |t.sizes| ==> SampleOffset(t, i) == off;
  }

  /** Place the samples of chunk `c` after those of the chunks before it. */
  method PlaceChunk(t: Tables, deltas: seq<u32>, cts: seq<i32>, sync: seq<bool>, c: nat, count: nat,
                    before: seq<RawSampleEntry>)
    returns (r: Result<seq<RawSampleEntry>>)
    requires |deltas| == |cts| == |sync| == |t.sizes| && c < |t.chunks| && count == ChunkSamples(t.stsc, c)
    requires |before| == ChunkStart(t.stsc, c) <= |t.sizes| && Placed(t, deltas, cts, sync, before)
    ensures r.Ok? ==> |r.value| == ChunkStart(t.stsc, c + 1) <= |t.sizes| && Placed(t, deltas, cts, sync, r.value)
    ensures r.Err? ==> !Placeable(t)
  {
    hide Placed, SampleOffset;
    var samples := before;
    var off: u64 := t.chunks[c];
    ChunkStartMonotone(t.stsc, c + 1, |t.chunks|);
    for j := 0 to count
      invariant |samples| == ChunkStart(t.stsc, c) + j <= |t.sizes|
      invariant off == t.chunks[c] + SizeSum(t.sizes, ChunkStart(t.stsc, c), |samples|)
      invariant Placed(t, deltas, cts, sync, samples)
    {
      hide ChunkSamples, ChunkOf, SizeSum;
      var i := |samples|;
      if i >= |t.sizes| {
        return Err(SampleTableInconsistent);
      }
      PlacedGrows(t, deltas, cts, sync, c, samples, off);
      samples := samples + [RawSampleEntry(off, t.sizes[i], deltas[i], cts[i], sync[i])];
      if off + t.sizes[i] > U64_MAX {
        return Err(SampleTableInconsistent);
      }
      off := off + t.sizes[i];
    }
    return Ok(samples);
  }

  /** Place the samples chunk by chunk. */
  method LayOut(t: Tables, deltas: seq<u32>, cts: seq<i32>, sync: seq<bool>, perChunk: seq<u32>)
    returns (r: Result<seq<RawSampleEntry>>)
    requires |deltas| == |cts| == |sync| == |t.sizes| && |perChunk| == |t.chunks|
    requires forall c :: 0 <= c < |perChunk| ==> perChunk[c] == ChunkSamples(t.stsc, c)
    ensures r.Ok? <==> Placeable(t)
    ensures r.Ok? ==> |r.value| == |t.sizes|
                      && forall i :: 0 <= i < |t.sizes| ==> PlacedRow(t, deltas, cts, sync, i, r.value[i])
  {
    hide ChunkSamples, PlacedRow, SampleOffset;
    var samples: seq<RawSampleEntry> := [];
    for c := 0 to |perChunk|
      invariant |samples| == ChunkStart(t.stsc, c) <= |t.sizes|
      invariant Placed(t, deltas, cts, sync, samples)
    {
      samples :- PlaceChunk(t, deltas, cts, sync, c, perChunk[c], samples);
    }
    if |samples| != |t.sizes| {
      return Err(SampleTableInconsistent);
    }
    return Ok(samples);
  }

  /** The samples placed so far are right, as soon as the tables turn out to agree on the total. */
  ghost predicate Placed(t: Tables, deltas: seq<u32>, cts: seq<i32>, sync: seq<bool>, samples: seq<RawSampleEntry>)
    requires |samples| <= |t.sizes| && |deltas| == |cts| == |sync| == |t.sizes|
  {
    ChunkStart(t.stsc, |t.chunks|) == |t.sizes| ==>
      forall i :: 0 <= i < |samples| ==>
                    PlacedRow(t, deltas, cts, sync, i, samples[i]) && SampleOffset(t, i) + t.sizes[i] <= U64_MAX
  }

  ghost predicate PlacedRow(t: Tables, deltas: seq<u32>, cts: seq<i32>, sync: seq<bool>, i: nat, row: RawSampleEntry)
    requires i < |deltas| == |cts| == |sync| == |t.sizes| == ChunkStart(t.stsc, |t.chunks|)
  {
    row.offset == SampleOffset(t, i) && row.size == t.sizes[i]
    && row.dtsDelta == deltas[i] && row.ctsOffset == cts[i] && row.isSync == sync[i]
  }
}
