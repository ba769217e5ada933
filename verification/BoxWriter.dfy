/** Nested box framing: a placeholder size, patched when the box is closed. */
module BoxWriters {
  import opened Boxes
  import opened Bytes
  import opened Sinks
  import opened Wrappers

  /** What an open box starts with. */
  function OpenHeader(fourcc: FourCC): (b: bytes)
    ensures |b| == 8
  {
    Be32(0) + fourcc
  }

  /** Filling in the size of an open box turns it into the finished box. */
  lemma FillSize(before: bytes, fourcc: FourCC, payload: bytes)
    ensures Patch(before + OpenHeader(fourcc) + payload, |before|, Be32(8 + |payload|)) == before + Box(fourcc, payload)
  {
    hide Be32, Patch;
    var size, rest := Be32(8 + |payload|), fourcc + payload;
    Assoc(Be32(0), fourcc, payload);
    Assoc(before, OpenHeader(fourcc), payload);
    Assoc(before, Be32(0), rest);
    PatchMiddle(before, Be32(0), rest, size);
    Assoc(size, fourcc, payload);
    Assoc(before, size, rest);
  }

  /** A box under construction in `sink`, whose header is at `start`. */
  datatype BoxWriter = BoxWriter(sink: Sink, start: nat, fourcc: FourCC) {

    static method Open(sink: Sink, fourcc: FourCC) returns (bx: BoxWriter)
      requires sink.AtEnd() && |sink.Image()| + 8 <= U64_MAX
      modifies sink.Obj()
      ensures bx == BoxWriter(sink, |old(sink.Image())|, fourcc)
      ensures sink.AtEnd() && sink.Image() == old(sink.Image()) + OpenHeader(fourcc)
    {
      var start := sink.Position();
      ghost var before := sink.Image();
      sink.Write(Be32(0));
      sink.Write(fourcc);
      Assoc(before, Be32(0), fourcc);
      return BoxWriter(sink, start, fourcc);
    }

    /** A child box starts where its parent's writer stands. */
    method Child(fourcc: FourCC) returns (bx: BoxWriter)
      requires sink.AtEnd() && |sink.Image()| + 8 <= U64_MAX
      modifies sink.Obj()
      ensures bx == BoxWriter(sink, |old(sink.Image())|, fourcc)
      ensures sink.AtEnd() && sink.Image() == old(sink.Image()) + OpenHeader(fourcc)
    {
      bx := Open(sink, fourcc);
    }

    /**
     Close the box: patch its size and check it against what the caller expected. Only the four
     bytes of the size field change, and the cursor comes back to the end.
     */
    method Finish(expected: Option<u32>, ghost before: bytes, ghost payload: bytes) returns (r: Result<nat>)
      requires sink.AtEnd() && |sink.Image()| <= U64_MAX
      requires |before| == start && sink.Image() == before + OpenHeader(fourcc) + payload
      requires expected.Some? && 8 + |payload| <= U32_MAX ==> expected.value == 8 + |payload|
      modifies sink.Obj()
      ensures r.Ok? <==> 8 + |payload| <= U32_MAX
      ensures r.Ok? ==> r.value == 8 + |payload|
      ensures r.Ok? ==> sink.AtEnd() && sink.Image() == before + Box(fourcc, payload)
      ensures r.Err? ==> r.error == Io
    {
      hide OpenHeader, Box, Patch, Be32;
      var end := sink.Position();
      if end < start {
        return Err(Io);
      }
      var written := end - start;
      if written > U32_MAX {
        return Err(Io);
      }
      FillSize(before, fourcc, payload);
      sink.PatchAt(start, Be32(written));
      assert expected.Some? ==> expected.value == written;
      return Ok(written);
    }
  }

  // ---------- Any well-nested use ----------

  datatype Tree = Leaf(raw: bytes) | Node(fourcc: FourCC, kids: seq<Tree>)

  function EncodeTree(t: Tree): bytes
    decreases t, 1
  {
    match t
    case Leaf(raw) => raw
    case Node(f, kids) => Box(f, EncodeForest(kids))
  }

  function EncodeForest(ts: seq<Tree>): bytes
    decreases ts, 0
  {
    if |ts| == 0 then [] else EncodeForest(ts[..|ts| - 1]) + EncodeTree(ts[|ts| - 1])
  }

  datatype Call = CallOpen(fourcc: FourCC) | CallWrite(raw: bytes) | CallFinish

  /** A box that is still open, and what it holds so far. Level 0 is the output itself. */
  datatype Level = Level(fourcc: FourCC, done: seq<Tree>)

  const OUTPUT := Level([0, 0, 0, 0], [])

  function Add(l: Level, t: Tree): Level {
    l.(done := l.done + [t])
  }

  function AddTop(levels: seq<Level>, t: Tree): (r: seq<Level>)
    requires |levels| > 0
    ensures |r| == |levels|
  {
    levels[|levels| - 1 := Add(levels[|levels| - 1], t)]
  }

  /** The innermost open box becomes one more child of the box around it. */
  function CloseTop(levels: seq<Level>): (r: seq<Level>)
    requires |levels| > 1
    ensures |r| == |levels| - 1
  {
    var n := |levels| - 1;
    AddTop(levels[..n], Node(levels[n].fourcc, levels[n].done))
  }

  /** The innermost open box can be closed: its size fits the 32-bit size field. */
  predicate TopSized(levels: seq<Level>)
    requires |levels| > 0
  {
    8 + |EncodeForest(levels[|levels| - 1].done)| <= U32_MAX
  }

  function Step(levels: seq<Level>, call: Call): (r: Option<seq<Level>>)
    requires |levels| > 0
    ensures r.Some? ==> |r.value| > 0
  {
    match call
    case CallOpen(f) => Some(levels + [Level(f, [])])
    case CallWrite(raw) => Some(AddTop(levels, Leaf(raw)))
    case CallFinish => if |levels| == 1 || !TopSized(levels) then None else Some(CloseTop(levels))
  }

  /** No call finishes a box that is not open, with `depth` boxes open at first. */
  predicate Nested(depth: nat, calls: seq<Call>)
    decreases |calls|
  {
    |calls| > 0 ==>
      match calls[0]
      case CallOpen(_) => Nested(depth + 1, calls[1..])
      case CallWrite(_) => Nested(depth, calls[1..])
      case CallFinish => depth > 0 && Nested(depth - 1, calls[1..])
  }

  /** What a sequence of nested calls describes; `None` when some box is too large for its size field. */
  function Shape(levels: seq<Level>, calls: seq<Call>): (r: Option<seq<Level>>)
    requires |levels| > 0
    ensures r.Some? ==> |r.value| > 0
    decreases |calls|
  {
    if |calls| == 0 then Some(levels)
    else if Step(levels, calls[0]).None? then None
    else Shape(Step(levels, calls[0]).value, calls[1..])
  }

  /** The bytes while boxes are open: their size fields are still zero. */
  function OpenImage(levels: seq<Level>): bytes {
    if |levels| == 0 then []
    else
      var n := |levels| - 1;
      OpenImage(levels[..n]) + (if n == 0 then [] else OpenHeader(levels[n].fourcc)) + EncodeForest(levels[n].done)
  }

  lemma {:induction false} OpenImageAdd(levels: seq<Level>, t: Tree)
    requires |levels| > 0
    ensures OpenImage(AddTop(levels, t)) == OpenImage(levels) + EncodeTree(t)
  {
    var n := |levels| - 1;
    var after := AddTop(levels, t);
    assert after[..n] == levels[..n];
    assert Add(levels[n], t).done[..|levels[n].done|] == levels[n].done;
    var head := OpenImage(levels[..n]) + (if n == 0 then [] else OpenHeader(levels[n].fourcc));
    Assoc(head, EncodeForest(levels[n].done), EncodeTree(t));
  }

  lemma {:induction false} OpenImagePush(levels: seq<Level>, f: FourCC)
    requires |levels| > 0
    ensures OpenImage(levels + [Level(f, [])]) == OpenImage(levels) + OpenHeader(f)
  {
    assert (levels + [Level(f, [])])[..|levels|] == levels;
  }

  lemma NothingOpen()
    ensures OpenImage([OUTPUT]) == []
  {
    assert OpenImage([OUTPUT][..0]) == [];
  }

  function CallBytes(calls: seq<Call>): nat {
    if |calls| == 0 then 0
    else CallBytes(calls[1..]) + match calls[0] case CallOpen(_) => 8 case CallWrite(raw) => |raw| case CallFinish => 0
  }

  /** The open boxes are those of the levels above the first, each starting where its level does. */
  ghost predicate Tracks(sink: Sink, before: bytes, levels: seq<Level>, open: seq<BoxWriter>) {
    && |levels| == |open| + 1
    && forall i :: 0 <= i < |open| ==>
                     open[i] == BoxWriter(sink, |before| + |OpenImage(levels[..i + 1])|, levels[i + 1].fourcc)
  }

  lemma {:induction false} TracksPush(sink: Sink, before: bytes, levels: seq<Level>, open: seq<BoxWriter>, f: FourCC)
    requires Tracks(sink, before, levels, open)
    ensures Tracks(sink, before, levels + [Level(f, [])],
                   open + [BoxWriter(sink, |before| + |OpenImage(levels)|, f)])
  {
    var more := levels + [Level(f, [])];
    forall m | 0 <= m <= |levels|
      ensures more[..m] == levels[..m]
    {}
    assert levels[..|levels|] == levels;
  }

  lemma TracksAdd(sink: Sink, before: bytes, levels: seq<Level>, open: seq<BoxWriter>, t: Tree)
    requires Tracks(sink, before, levels, open)
    ensures Tracks(sink, before, AddTop(levels, t), open)
  {
    var after := AddTop(levels, t);
    forall m | 0 <= m <= |open|
      ensures after[..m] == levels[..m]
    {}
  }

  lemma TracksPop(sink: Sink, before: bytes, levels: seq<Level>, open: seq<BoxWriter>)
    requires Tracks(sink, before, levels, open) && |open| > 0
    ensures Tracks(sink, before, levels[..|open|], open[..|open| - 1])
  {
    forall m | 0 <= m <= |open|
      ensures levels[..|open|][..m] == levels[..m]
    {}
  }

  method ReplayOpen(sink: Sink, f: FourCC, ghost before: bytes, ghost levels: seq<Level>, open: seq<BoxWriter>)
    returns (open': seq<BoxWriter>)
    requires sink.AtEnd() && sink.Image() == before + OpenImage(levels) && |sink.Image()| + 8 <= U64_MAX
    requires Tracks(sink, before, levels, open)
    modifies sink.Obj()
    ensures sink.AtEnd() && sink.Image() == before + OpenImage(levels + [Level(f, [])])
    ensures |sink.Image()| == |old(sink.Image())| + 8
    ensures Tracks(sink, before, levels + [Level(f, [])], open')
  {
    OpenImagePush(levels, f);
    Assoc(before, OpenImage(levels), OpenHeader(f));
    TracksPush(sink, before, levels, open, f);
    var bx;
    if |open| == 0 {
      bx := BoxWriter.Open(sink, f);
    } else {
      assert open[|open| - 1].sink == sink;
      bx := open[|open| - 1].Child(f);
    }
    assert bx == BoxWriter(sink, |before| + |OpenImage(levels)|, f);
    return open + [bx];
  }

  /** What the innermost open box has written so far, and where it started. */
  lemma {:induction false} OpenTop(sink: Sink, before: bytes, levels: seq<Level>, open: seq<BoxWriter>)
    requires Tracks(sink, before, levels, open) && |open| > 0
    ensures var top, outer := levels[|open|], before + OpenImage(levels[..|open|]);
            && before + OpenImage(levels) == outer + OpenHeader(top.fourcc) + EncodeForest(top.done)
            && open[|open| - 1] == BoxWriter(sink, |outer|, top.fourcc)
  {
    hide OpenHeader, EncodeForest;
    var n := |open|;
    var top := levels[n];
    assert OpenImage(levels) == OpenImage(levels[..n]) + OpenHeader(top.fourcc) + EncodeForest(top.done);
    Assoc(before, OpenImage(levels[..n]) + OpenHeader(top.fourcc), EncodeForest(top.done));
    Assoc(before, OpenImage(levels[..n]), OpenHeader(top.fourcc));
  }

  /** Closing it adds a finished box one level further out. */
  lemma CloseIsAdd(sink: Sink, before: bytes, levels: seq<Level>, open: seq<BoxWriter>)
    requires Tracks(sink, before, levels, open) && |open| > 0
    ensures var top, outer := levels[|open|], before + OpenImage(levels[..|open|]);
            before + OpenImage(CloseTop(levels)) == outer + Box(top.fourcc, EncodeForest(top.done))
    ensures Tracks(sink, before, CloseTop(levels), open[..|open| - 1])
  {
    hide OpenHeader, EncodeForest, Box, OpenImage;
    var n := |open|;
    var top := levels[n];
    OpenImageAdd(levels[..n], Node(top.fourcc, top.done));
    Assoc(before, OpenImage(levels[..n]), Box(top.fourcc, EncodeForest(top.done)));
    TracksPop(sink, before, levels, open);
    TracksAdd(sink, before, levels[..n], open[..n - 1], Node(top.fourcc, top.done));
  }

  method ReplayFinish(sink: Sink, ghost before: bytes, ghost levels: seq<Level>, open: seq<BoxWriter>)
    returns (r: Result<seq<BoxWriter>>)
    requires sink.AtEnd() && sink.Image() == before + OpenImage(levels) && |sink.Image()| <= U64_MAX
    requires Tracks(sink, before, levels, open) && |open| > 0
    modifies sink.Obj()
    ensures r.Ok? <==> TopSized(levels)
    ensures r.Err? ==> r.error == Io
    ensures r.Ok? ==> sink.AtEnd() && sink.Image() == before + OpenImage(CloseTop(levels))
    ensures r.Ok? ==> |sink.Image()| == |old(sink.Image())|
    ensures r.Ok? ==> Tracks(sink, before, CloseTop(levels), r.value)
  {
    hide OpenHeader, EncodeForest, Box, OpenImage, CloseTop;
    var n := |open|;
    ghost var top := levels[n];
    ghost var outer := before + OpenImage(levels[..n]);
    OpenTop(sink, before, levels, open);
    CloseIsAdd(sink, before, levels, open);
    var _ :- open[n - 1].Finish(None, outer, EncodeForest(top.done));
    return Ok(open[..n - 1]);
  }

  method ReplayWrite(sink: Sink, raw: bytes, ghost before: bytes, ghost levels: seq<Level>, ghost open: seq<BoxWriter>)
    requires sink.AtEnd() && sink.Image() == before + OpenImage(levels) && |sink.Image()| + |raw| <= U64_MAX
    requires Tracks(sink, before, levels, open)
    modifies sink.Obj()
    ensures sink.AtEnd() && sink.Image() == before + OpenImage(AddTop(levels, Leaf(raw)))
    ensures |sink.Image()| == |old(sink.Image())| + |raw|
    ensures Tracks(sink, before, AddTop(levels, Leaf(raw)), open)
  {
    OpenImageAdd(levels, Leaf(raw));
    Assoc(before, OpenImage(levels), raw);
    TracksAdd(sink, before, levels, open, Leaf(raw));
    sink.Write(raw);
  }

  method ReplayCall(sink: Sink, call: Call, ghost before: bytes, ghost levels: seq<Level>, open: seq<BoxWriter>)
    returns (r: Result<seq<BoxWriter>>)
    requires sink.AtEnd() && sink.Image() == before + OpenImage(levels)
    requires |sink.Image()| + CallBytes([call]) <= U64_MAX
    requires Tracks(sink, before, levels, open) && (call.CallFinish? ==> |open| > 0)
    modifies sink.Obj()
    ensures r.Ok? <==> Step(levels, call).Some?
    ensures r.Ok? ==> sink.AtEnd() && sink.Image() == before + OpenImage(Step(levels, call).value)
    ensures r.Ok? ==> |sink.Image()| == |old(sink.Image())| + CallBytes([call])
    ensures r.Ok? ==> Tracks(sink, before, Step(levels, call).value, r.value)
  {
    match call {
      case CallOpen(f) =>
        var more := ReplayOpen(sink, f, before, levels, open);
        return Ok(more);
      case CallWrite(raw) =>
        ReplayWrite(sink, raw, before, levels, open);
        return Ok(open);
      case CallFinish =>
        r := ReplayFinish(sink, before, levels, open);
    }
  }

  /**
   Any sequence of calls that closes only boxes it opened leaves, after what was there, the encoding
   of what it describes. In particular, once all boxes are closed, every size field holds the
   extent of its own box.
   */
  method Replay(sink: Sink, calls: seq<Call>) returns (r: Result<()>)
    requires sink.AtEnd() && |sink.Image()| + CallBytes(calls) <= U64_MAX
    requires Nested(0, calls)
    modifies sink.Obj()
    ensures r.Ok? <==> Shape([OUTPUT], calls).Some?
    ensures r.Ok? ==> sink.AtEnd()
    ensures r.Ok? ==> sink.Image() == old(sink.Image()) + OpenImage(Shape([OUTPUT], calls).value)
  {
    hide OpenImage;
    ghost var before := sink.Image();
    ghost var levels := [OUTPUT];
    var open: seq<BoxWriter> := [];
    var rest := calls;
    NothingOpen();
    while |rest| > 0
      invariant sink.AtEnd() && sink.Image() == before + OpenImage(levels)
      invariant |sink.Image()| + CallBytes(rest) <= U64_MAX
      invariant Tracks(sink, before, levels, open) && Shape(levels, rest) == Shape([OUTPUT], calls)
      invariant Nested(|open|, rest)
      decreases |rest|
    {
      open :- ReplayCall(sink, rest[0], before, levels, open);
      levels, rest := Step(levels, rest[0]).value, rest[1..];
    }
    return Ok(());
  }

  /** Once everything is closed, what is there is the encoding of the described forest. */
  lemma {:induction false} ClosedImage(calls: seq<Call>)
    requires Shape([OUTPUT], calls).Some? && |Shape([OUTPUT], calls).value| == 1
    ensures OpenImage(Shape([OUTPUT], calls).value) == EncodeForest(Shape([OUTPUT], calls).value[0].done)
  {
    var levels := Shape([OUTPUT], calls).value;
    assert OpenImage(levels[..0]) == [];
  }
}
