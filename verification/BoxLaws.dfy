/** The scanner reads back what the box writer wrote. */
module BoxLaws {
  import opened Boxes
  import opened BoxReader
  import opened BoxWriters
  import opened Bytes
  import opened Sinks
  import opened Wrappers

  /** A forest of boxes only, with no loose bytes between them. */
  predicate AllNodes(ts: seq<Tree>) {
    forall i :: 0 <= i < |ts| ==> ts[i].Node?
  }

  function Plains(ts: seq<Tree>): (bs: seq<Plain>)
    requires AllNodes(ts)
    ensures |bs| == |ts|
    ensures forall i :: 0 <= i < |ts| ==> bs[i] == Plain(ts[i].fourcc, EncodeForest(ts[i].kids))
  {
    if |ts| == 0 then []
    else Plains(ts[..|ts| - 1]) + [Plain(ts[|ts| - 1].fourcc, EncodeForest(ts[|ts| - 1].kids))]
  }

  lemma {:induction false} ForestIsPlains(ts: seq<Tree>)
    requires AllNodes(ts)
    ensures EncodeForest(ts) == EncodeAll(Plains(ts))
  {
    if |ts| > 0 {
      var last := |ts| - 1;
      ForestIsPlains(ts[..last]);
      EncodeAllSnoc(Plains(ts[..last]), Plain(ts[last].fourcc, EncodeForest(ts[last].kids)));
    }
  }

  /** Header `h` frames the written tree `t` somewhere in `[pos, end)`. */
  ghost predicate Frames(data: bytes, pos: nat, end: nat, h: BoxHeader, t: Tree)
    requires t.Node?
  {
    && h.boxType == t.fourcc && pos <= h.start && h.headerSize == 8 <= h.declaredSize && h.End() <= end <= |data|
    && data[h.start..h.End()] == EncodeTree(t)
    && data[h.PayloadOffset()..h.End()] == EncodeForest(t.kids)
  }

  /**
   Scanning the written children of any box, at whatever place they ended up, yields the same
   children in order, except for vendor extensions; child `i` has its own bytes, and its payload is
   the encoding of its own children.
   */
  lemma {:induction false} ScanReadsBackForest(data: bytes, pos: nat, end: nat, ts: seq<Tree>)
    requires pos <= end <= |data| && data[pos..end] == EncodeForest(ts)
    requires AllNodes(ts) && AllSized(Plains(ts))
    ensures Scan(data, pos, end) == Ok(Visible(Headers(Plains(ts), pos)))
    ensures forall i :: 0 <= i < |ts| ==> Frames(data, pos, end, Headers(Plains(ts), pos)[i], ts[i])
  {
    hide Scan, Visible, Holds, EncodeAll, EncodeForest, Box;
    ForestIsPlains(ts);
    EncodedHolds(data, pos, end, Plains(ts));
    ScanOfEncoded(data, pos, end, Plains(ts));
    forall i | 0 <= i < |ts|
      ensures Frames(data, pos, end, Headers(Plains(ts), pos)[i], ts[i])
    {
      EncodedAt(data, pos, end, Plains(ts), i);
    }
  }

  // ---------- What the writer guarantees about sizes ----------

  /** Every box in the tree fits its 32-bit size field. */
  ghost predicate DeepSized(t: Tree)
    decreases t, 1
  {
    t.Node? ==> 8 + |EncodeForest(t.kids)| <= U32_MAX && AllDeepSized(t.kids)
  }

  ghost predicate AllDeepSized(ts: seq<Tree>)
    decreases ts, 0
  {
    forall i :: 0 <= i < |ts| ==> DeepSized(ts[i])
  }

  ghost predicate LevelsSized(levels: seq<Level>) {
    forall i :: 0 <= i < |levels| ==> AllDeepSized(levels[i].done)
  }

  lemma {:induction false} AddKeepsSized(levels: seq<Level>, t: Tree)
    requires |levels| > 0 && LevelsSized(levels) && DeepSized(t)
    ensures LevelsSized(AddTop(levels, t))
  {
    hide DeepSized;
    forall i | 0 <= i < |levels|
      ensures AllDeepSized(AddTop(levels, t)[i].done)
    {
      assert AllDeepSized(levels[i].done);
    }
  }

  lemma StepKeepsSized(levels: seq<Level>, call: Call)
    requires |levels| > 0 && LevelsSized(levels) && Step(levels, call).Some?
    ensures LevelsSized(Step(levels, call).value)
  {
    hide EncodeForest, AddTop;
    match call {
      case CallOpen(_) =>
      case CallWrite(raw) => AddKeepsSized(levels, Leaf(raw));
      case CallFinish =>
        var n := |levels| - 1;
        assert AllDeepSized(levels[n].done);
        AddKeepsSized(levels[..n], Node(levels[n].fourcc, levels[n].done));
    }
  }

  lemma {:induction false} ShapeIsSized(levels: seq<Level>, calls: seq<Call>)
    requires |levels| > 0 && LevelsSized(levels) && Shape(levels, calls).Some?
    ensures LevelsSized(Shape(levels, calls).value)
    decreases |calls|
  {
    hide Step, LevelsSized;
    if |calls| > 0 {
      StepKeepsSized(levels, calls[0]);
      ShapeIsSized(Step(levels, calls[0]).value, calls[1..]);
    }
  }

  // ---------- What a reader finds in a finished run ----------

  /** Where tree `i` of a forest that starts at `pos` lies. */
  function TreeAt(pos: nat, ts: seq<Tree>, i: nat): nat
    requires i <= |ts|
  {
    pos + |EncodeForest(ts[..i])|
  }

  /**
   The forest lies in `[pos, end)`. If it consists of boxes only, scanning yields them in order, without
   vendor extensions. Every box in it, at every depth, states its own extent.
   */
  ghost predicate ForestFramed(data: bytes, pos: nat, end: nat, ts: seq<Tree>)
    decreases ts, 0
  {
    && pos <= end <= |data| && data[pos..end] == EncodeForest(ts)
    && (AllNodes(ts) ==> Scan(data, pos, end) == Ok(Visible(Headers(Plains(ts), pos))))
    && forall i :: 0 <= i < |ts| && ts[i].Node? ==> NodeFramed(data, TreeAt(pos, ts, i), ts[i])
  }

  /** The size field of the box at `at` reads back as its extent, and so for everything inside it. */
  ghost predicate NodeFramed(data: bytes, at: nat, t: Tree)
    requires t.Node?
    decreases t, 1
  {
    var end := at + 8 + |EncodeForest(t.kids)|;
    && end <= |data| && U32At(data, at) == end - at && data[at + 4..at + 8] == t.fourcc
    && ForestFramed(data, at + 8, end, t.kids)
  }

  /** Tree `i` of an encoded forest lies where `TreeAt` says. */
  lemma {:induction false} TreeLies(data: bytes, pos: nat, end: nat, ts: seq<Tree>, i: nat)
    requires pos <= end <= |data| && data[pos..end] == EncodeForest(ts) && i < |ts|
    ensures TreeAt(pos, ts, i) + |EncodeTree(ts[i])| <= end
    ensures data[TreeAt(pos, ts, i)..TreeAt(pos, ts, i) + |EncodeTree(ts[i])|] == EncodeTree(ts[i])
    decreases |ts|
  {
    hide EncodeTree;
    var last := |ts| - 1;
    var mid := pos + |EncodeForest(ts[..last])|;
    SubSlice(data, pos, end, 0, mid - pos);
    SubSlice(data, pos, end, mid - pos, end - pos);
    if i < last {
      TreeLies(data, pos, mid, ts[..last], i);
      assert ts[..last][..i] == ts[..i];
    }
  }

  lemma {:induction false} SizedPlains(ts: seq<Tree>)
    requires AllNodes(ts) && AllDeepSized(ts)
    ensures AllSized(Plains(ts))
  {
    hide EncodeForest;
    forall i | 0 <= i < |ts|
      ensures Plains(ts)[i].Sized()
    {
      assert DeepSized(ts[i]);
    }
  }

  lemma {:induction false} FramesForest(data: bytes, pos: nat, end: nat, ts: seq<Tree>)
    requires pos <= end <= |data| && data[pos..end] == EncodeForest(ts) && AllDeepSized(ts)
    ensures ForestFramed(data, pos, end, ts)
    decreases ts, 0
  {
    hide EncodeForest, EncodeTree, Scan, Visible, Plains, Headers, NodeFramed, AllSized, Frames;
    if AllNodes(ts) {
      SizedPlains(ts);
      ScanReadsBackForest(data, pos, end, ts);
    }
    forall i | 0 <= i < |ts| && ts[i].Node?
      ensures NodeFramed(data, TreeAt(pos, ts, i), ts[i])
    {
      TreeLies(data, pos, end, ts, i);
      assert DeepSized(ts[i]);
      FramesNode(data, TreeAt(pos, ts, i), ts[i]);
    }
  }

  lemma {:induction false} FramesNode(data: bytes, at: nat, t: Tree)
    requires t.Node? && DeepSized(t) && at + |EncodeTree(t)| <= |data|
    requires data[at..at + |EncodeTree(t)|] == EncodeTree(t)
    ensures NodeFramed(data, at, t)
    decreases t, 1
  {
    hide EncodeForest, ForestFramed, Box;
    var b := Plain(t.fourcc, EncodeForest(t.kids));
    BoxFields(data, at, b);
    FramesForest(data, at + 8, at + b.Size(), t.kids);
  }

  /**
   Whatever well-nested calls are made, once they have succeeded and all boxes are closed, what was
   written reads back: the children of every box are scanned in order, and every size field, at every
   depth, is the extent of its own box. That all sizes fit is part of the conclusion, not assumed.
   */
  lemma {:induction false} FinishedRunReadsBack(before: bytes, calls: seq<Call>)
    requires Shape([OUTPUT], calls).Some? && |Shape([OUTPUT], calls).value| == 1
    ensures var levels := Shape([OUTPUT], calls).value;
            var image := before + OpenImage(levels);
            ForestFramed(image, |before|, |image|, levels[0].done) && AllDeepSized(levels[0].done)
  {
    hide Shape, EncodeForest, ForestFramed;
    var levels := Shape([OUTPUT], calls).value;
    ShapeIsSized([OUTPUT], calls);
    ClosedImage(calls);
    var image := before + OpenImage(levels);
    assert levels == [levels[0]];
    assert image[|before|..|image|] == OpenImage(levels);
    FramesForest(image, |before|, |image|, levels[0].done);
  }

  /** The same about the sink: run the calls, and read what they wrote. */
  method ReplayFramed(sink: Sink, calls: seq<Call>) returns (r: Result<()>)
    requires sink.AtEnd() && |sink.Image()| + CallBytes(calls) <= U64_MAX && Nested(0, calls)
    modifies sink.Obj()
    ensures r.Ok? <==> Shape([OUTPUT], calls).Some?
    ensures r.Ok? && |Shape([OUTPUT], calls).value| == 1 ==>
              ForestFramed(sink.Image(), |old(sink.Image())|, |sink.Image()|, Shape([OUTPUT], calls).value[0].done)
  {
    hide Shape, ForestFramed, AllDeepSized, OpenImage;
    ghost var before := sink.Image();
    r := Replay(sink, calls);
    if r.Ok? && |Shape([OUTPUT], calls).value| == 1 {
      FinishedRunReadsBack(before, calls);
    }
  }
}
