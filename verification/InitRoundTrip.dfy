/** Parsing a written init segment returns the tracks it was written for. */
module InitRoundTrip {
  import opened Boxes
  import opened BoxFolds
  import opened BoxReader
  import opened Bytes
  import opened EntryLaws
  import opened Format
  import opened HeaderLaws
  import opened InitLaws
  import opened Sources
  import opened Wrappers
  import Init
  import Moov

  // ---------- Stepping through written boxes ----------

  /** A plain box with this payload. */
  predicate PayloadIs(out: bytes, h: BoxHeader, payload: bytes) {
    h.headerSize == 8 && h.declaredSize == 8 + |payload| && h.End() <= |out|
    && out[h.PayloadOffset()..h.End()] == payload
  }

  function HeaderOf(b: Plain, pos: nat): BoxHeader {
    BoxHeader(b.fourcc, pos, 8, b.Size())
  }

  predicate Visible(b: Plain) {
    b.Sized() && b.fourcc != Code("uuid")
  }

  lemma PlainHeader(out: bytes, pos: nat, end: nat, b: Plain)
    requires pos + b.Size() <= end <= |out| && out[pos..pos + b.Size()] == b.Encode() && Visible(b)
    ensures PayloadIs(out, HeaderOf(b, pos), b.payload) && IsHeader(out, HeaderOf(b, pos), end)
  {
    hide Plain.Encode, HeaderAt, Code, U32At;
    HeaderOfBox(out, pos, end, b);
    BoxFields(out, pos, b);
  }

  /** A plain box on its own. */
  lemma {:induction false} PlainStep<S>(out: bytes, pos: nat, end: nat, b: Plain, s: S,
                                        visit: (BoxHeader, S) -> Result<S>)
    requires pos + b.Size() <= end <= |out| && out[pos..pos + b.Size()] == b.Encode() && Visible(b)
    ensures var h := HeaderOf(b, pos);
            && PayloadIs(out, h, b.payload)
            && Fold(out, pos, end, s, visit) == Continue(out, h.End(), end, visit(h, s), visit)
  {
    hide Plain.Encode, Fold, Continue, PayloadIs, IsHeader;
    PlainHeader(out, pos, end, b);
    FoldStep(out, HeaderOf(b, pos), end, s, visit);
  }

  lemma HoldsFirst(out: bytes, pos: nat, end: nat, boxes: seq<Plain>)
    requires Holds(out, pos, end, boxes) && end <= |out| && |boxes| > 0
    ensures pos + boxes[0].Size() <= end && out[pos..pos + boxes[0].Size()] == boxes[0].Encode()
    ensures Holds(out, pos + boxes[0].Size(), end, boxes[1..])
  {
    hide Plain.Encode;
  }

  /** The first of several boxes is visited, then the rest. */
  lemma {:induction false} StepInto<S>(out: bytes, pos: nat, end: nat, boxes: seq<Plain>, s: S,
                                       visit: (BoxHeader, S) -> Result<S>)
    requires Holds(out, pos, end, boxes) && end <= |out| && |boxes| > 0 && Visible(boxes[0])
    ensures var h := HeaderOf(boxes[0], pos);
            && PayloadIs(out, h, boxes[0].payload) && Holds(out, h.End(), end, boxes[1..])
            && Fold(out, pos, end, s, visit) == Continue(out, h.End(), end, visit(h, s), visit)
  {
    hide Plain.Encode, Fold, Continue, Holds, PayloadIs, Visible;
    HoldsFirst(out, pos, end, boxes);
    PlainStep(out, pos, end, boxes[0], s, visit);
  }

  lemma {:induction false} StepEnd<S>(out: bytes, pos: nat, end: nat, s: S, visit: (BoxHeader, S) -> Result<S>)
    requires Holds(out, pos, end, [])
    ensures Fold(out, pos, end, s, visit) == Ok(s)
  {
    FoldEnd(out, end, s, visit);
  }

  /** The boxes in the payload of a box. */
  lemma {:induction false} Children(out: bytes, h: BoxHeader, boxes: seq<Plain>)
    requires PayloadIs(out, h, EncodeAll(boxes))
    ensures Holds(out, h.PayloadOffset(), h.End(), boxes)
  {
    EncodedHolds(out, h.PayloadOffset(), h.End(), boxes);
  }

  // ---------- Leaf boxes ----------

  lemma ZeroPair()
    ensures Be32(0) + Be32(0) == Zeros(8)
  {}

  /** The fields that no one reads. */
  function TkhdLayer(isAudio: bool): (b: bytes)
    ensures |b| == 8
  {
    Init.Be16(0) + Init.Be16(0) + Init.Be16(if isAudio then 0x0100 else 0) + Init.Be16(0)
  }

  /** The written track header is one of version 1 without times. */
  lemma TkhdIsHeader(trackId: nat, isAudio: bool, width: u32, height: u32)
    ensures |Init.Words(Init.IDENTITY_MATRIX)| == 36
    ensures Init.TkhdPayload(trackId, isAudio, width, height)
            == TrackHeader(1, Init.TKHD_FLAGS_ENABLED, 0, 0, trackId, 0, TkhdLayer(isAudio),
                           Init.Words(Init.IDENTITY_MATRIX), Init.Fixed1616(width), Init.Fixed1616(height))
  {
    hide Be32, Be64, Init.Words, Init.Be16, FullHeader, Init.Fixed1616, Zeros;
    ZeroPair();
    var layer, matrix := TkhdLayer(isAudio), Init.Words(Init.IDENTITY_MATRIX);
    var front := Init.TkhdTimes(trackId) + Be32(0) + Be32(0) + layer + matrix;
    assert Init.TkhdTimes(trackId) + (Be32(0) + Be32(0)) + layer + matrix == front;
    assert front == TrackHeaderFront(1, Init.TKHD_FLAGS_ENABLED, 0, 0, trackId, 0, layer, matrix);
  }

  lemma TkhdReadsBack(out: bytes, h: BoxHeader, trackId: nat, isAudio: bool, width: u32, height: u32)
    requires PayloadIs(out, h, Init.TkhdPayload(trackId, isAudio, width, height)) && width <= 0xFFFF && height <= 0xFFFF
    ensures Moov.Tkhd(out, h) == Ok(Moov.TkhdInfo(width, height))
  {
    hide Init.Words, Init.TkhdPayload, TrackHeader, TkhdLayer;
    TkhdIsHeader(trackId, isAudio, width, height);
    var p := Init.TkhdPayload(trackId, isAudio, width, height);
    assert p + [] == p;
    SizeReadsBack(out, h, 1, Init.TKHD_FLAGS_ENABLED, 0, 0, trackId, 0, TkhdLayer(isAudio),
                  Init.Words(Init.IDENTITY_MATRIX), Init.Fixed1616(width), Init.Fixed1616(height), []);
  }

  lemma MdhdReadsBack(out: bytes, h: BoxHeader, timescale: u32)
    requires PayloadIs(out, h, Init.MdhdPayload(timescale))
    ensures Moov.MdhdTimescale(out, h) == Ok(timescale)
  {
    hide Be32, Be64, Init.Be16, FullHeader;
    var rest := Init.Be16(Init.LANGUAGE_UND) + Init.Be16(0);
    assert Init.MdhdPayload(timescale) == MediaHeader(1, 0, 0, 0, timescale, 0) + rest;
    TimescaleReadsBack(out, h, 1, 0, 0, 0, timescale, 0, rest);
  }

  lemma HdlrReadsBack(out: bytes, h: BoxHeader, handler: FourCC, name: bytes)
    requires PayloadIs(out, h, Init.HdlrPayload(handler, name))
    ensures Moov.HdlrType(out, h) == Ok(handler)
  {
    hide Be32, FullHeader;
    var rest := Be32(0) + Be32(0) + Be32(0) + name + [0];
    assert Init.HdlrPayload(handler, name) == FullHeader(0, 0) + Be32(0) + handler + rest;
    HandlerReadsBack(out, h, 0, 0, Be32(0), handler, rest);
  }

  /** What the demuxer should report about a sample entry at `pos`. */
  predicate EntryIs(e: Moov.SampleEntryInfo, t: Moov.SampleEntryInfo, out: bytes, blob: bytes) {
    && e.fourcc == t.fourcc && e.sampleRate == t.sampleRate && e.channelCount == t.channelCount
    && InFile(out, e.sampleEntry) && Blob(out, e.sampleEntry) == blob
  }

  /** The count of a sample description, and the entry behind it. */
  lemma StsdLies(out: bytes, h: BoxHeader, blob: bytes)
    requires PayloadIs(out, h, Init.Stsd(blob).payload)
    ensures var head, q := Fetch(out, h.PayloadOffset(), 8), h.PayloadOffset() + 8;
            && head.Ok? && |head.value| == 8 && U32At(head.value, 4) == 1
            && q + |blob| == h.End() <= |out| && out[q..h.End()] == blob
  {
    hide Be32, ReadBe;
    var p := Init.Stsd(blob).payload;
    FetchInside(out, h, p, 0, 8);
    assert p[0..8][4..8] == Be32(1);
    Be32ReadBack(1);
    SubSlice(out, h.PayloadOffset(), h.End(), 8, |p|);
    assert p[8..] == blob;
  }

  lemma StsdReadsBack(out: bytes, h: BoxHeader, blob: bytes, handler: FourCC, t: Moov.SampleEntryInfo)
    requires PayloadIs(out, h, Init.Stsd(blob).payload)
    requires EntryBox(blob, handler, t.fourcc, t.sampleRate, t.channelCount)
    ensures Moov.StsdEntry(out, h, handler).Ok? && EntryIs(Moov.StsdEntry(out, h, handler).value, t, out, blob)
  {
    hide Moov.EntryFields, HeaderAt, Code, U32At, Init.Stsd;
    StsdLies(out, h, blob);
    var b :| IsBox(blob, b) && b.boxType == t.fourcc
             && Moov.EntryFields(blob, b, handler) == Ok((t.sampleRate, t.channelCount));
    var q := h.PayloadOffset() + 8;
    assert blob == blob[0..|blob|];
    BoxMoves(blob, b, out, q);
    EntryFieldsMove(blob, b, out, q, handler);
  }

  // ---------- Sample tables ----------

  lemma StblCodes()
    ensures Code("stsd") != Code("uuid") && Code("stts") != Code("uuid") && Code("stsc") != Code("uuid")
    ensures Code("stsz") != Code("uuid") && Code("stco") != Code("uuid")
    ensures Code("stts") != Code("stsd") && Code("stsc") != Code("stsd") && Code("stsz") != Code("stsd")
    ensures Code("stco") != Code("stsd") && Code("stts") != Code("stsc") && Code("stts") != Code("stsz")
    ensures Code("stts") != Code("stco") && Code("stsc") != Code("stsz") && Code("stsc") != Code("stco")
    ensures Code("stsz") != Code("stco")
  {
    hide Code;
    assert Num(Code("stsd")) == 0x7374_7364 && Num(Code("uuid")) == 0x7575_6964;
    assert Num(Code("stts")) == 0x7374_7473 && Num(Code("stsc")) == 0x7374_7363;
    assert Num(Code("stsz")) == 0x7374_737A && Num(Code("stco")) == 0x7374_636F;
  }

  /** All required tables have been seen, and one kind of chunk offsets. */
  predicate TablesSeen(s: Moov.StblSlots, stsd: BoxHeader) {
    s.stsd == Some(stsd) && s.stts.Some? && s.stsc.Some? && s.stsz.Some? && s.stco.Some? && s.co64.None?
  }

  /** After the first three boxes of the table. */
  lemma {:induction false} StblHead(out: bytes, p: nat, end: nat, bs: seq<Plain>)
    requires Holds(out, p, end, bs) && end <= |out| && |bs| == 5
    requires bs[0].Sized() && bs[1].Sized() && bs[2].Sized()
    requires bs[0].fourcc == Code("stsd") && bs[1].fourcc == Code("stts") && bs[2].fourcc == Code("stsc")
    ensures var h0, visit := HeaderOf(bs[0], p), Moov.StblVisitor(out);
            var h1 := HeaderOf(bs[1], h0.End());
            var h2 := HeaderOf(bs[2], h1.End());
            && PayloadIs(out, h0, bs[0].payload) && Holds(out, h2.End(), end, bs[3..])
            && Fold(out, p, end, Moov.NO_STBL, visit)
               == Fold(out, h2.End(), end, Moov.NO_STBL.(stsd := Some(h0), stts := Some(Moov.PayloadRange(h1)),
                   stsc := Some(Moov.PayloadRange(h2))), visit)
  {
    hide Code, Fold, Holds, PayloadIs, Moov.GroupingType, Moov.PayloadRange;
    StblCodes();
    var visit, s0 := Moov.StblVisitor(out), Moov.NO_STBL;
    StepInto(out, p, end, bs, s0, visit);
    var h0 := HeaderOf(bs[0], p);
    var s1 := s0.(stsd := Some(h0));
    StepInto(out, h0.End(), end, bs[1..], s1, visit);
    var h1 := HeaderOf(bs[1], h0.End());
    var s2 := s1.(stts := Some(Moov.PayloadRange(h1)));
    assert bs[1..][1..] == bs[2..];
    StepInto(out, h1.End(), end, bs[2..], s2, visit);
    assert bs[2..][1..] == bs[3..];
  }

  /** And after the other two. */
  lemma {:induction false} StblRest(out: bytes, p: nat, end: nat, bs: seq<Plain>, s: Moov.StblSlots)
    requires Holds(out, p, end, bs) && end <= |out| && |bs| == 2 && bs[0].Sized() && bs[1].Sized()
    requires bs[0].fourcc == Code("stsz") && bs[1].fourcc == Code("stco")
    ensures var h0, visit := HeaderOf(bs[0], p), Moov.StblVisitor(out);
            var h1 := HeaderOf(bs[1], h0.End());
            Fold(out, p, end, s, visit)
            == Ok(s.(stsz := Some(Moov.PayloadRange(h0)), stco := Some(Moov.PayloadRange(h1))))
  {
    hide Code, Fold, Holds, PayloadIs, Moov.GroupingType, Moov.PayloadRange;
    StblCodes();
    var visit := Moov.StblVisitor(out);
    StepInto(out, p, end, bs, s, visit);
    var h0 := HeaderOf(bs[0], p);
    var s1 := s.(stsz := Some(Moov.PayloadRange(h0)));
    StepInto(out, h0.End(), end, bs[1..], s1, visit);
    var h1 := HeaderOf(bs[1], h0.End());
    assert bs[1..][1..] == [];
    StepEnd(out, h1.End(), end, s1.(stco := Some(Moov.PayloadRange(h1))), visit);
  }

  lemma {:induction false} StblSlotsSeen(out: bytes, h: BoxHeader, blob: bytes)
    requires PayloadIs(out, h, EncodeAll(Init.StblBoxes(blob))) && Init.Stsd(blob).Sized()
    ensures var slots := Fold(out, h.PayloadOffset(), h.End(), Moov.NO_STBL, Moov.StblVisitor(out));
            var stsd := HeaderOf(Init.Stsd(blob), h.PayloadOffset());
            slots.Ok? && TablesSeen(slots.value, stsd) && PayloadIs(out, stsd, Init.Stsd(blob).payload)
  {
    hide Code, Fold, Holds, EncodeAll, PayloadIs, HeaderOf, Moov.PayloadRange;
    var bs := Init.StblBoxes(blob);
    Children(out, h, bs);
    PayloadInside(out, h, EncodeAll(bs));
    var p, end := h.PayloadOffset(), h.End();
    StblHead(out, p, end, bs);
    var h0 := HeaderOf(bs[0], p);
    var h1 := HeaderOf(bs[1], h0.End());
    var h2 := HeaderOf(bs[2], h1.End());
    StblRest(out, h2.End(), end, bs[3..],
             Moov.NO_STBL.(stsd := Some(h0), stts := Some(Moov.PayloadRange(h1)), stsc := Some(Moov.PayloadRange(h2))));
  }

  lemma PayloadInside(out: bytes, h: BoxHeader, payload: bytes)
    requires PayloadIs(out, h, payload)
    ensures h.End() <= |out| && h.PayloadOffset() <= h.End()
  {}

  lemma StblReadsBack(out: bytes, h: BoxHeader, blob: bytes, handler: FourCC, t: Moov.SampleEntryInfo)
    requires PayloadIs(out, h, EncodeAll(Init.StblBoxes(blob))) && Init.Stsd(blob).Sized()
    requires EntryBox(blob, handler, t.fourcc, t.sampleRate, t.channelCount)
    ensures Moov.Stbl(out, h, handler).Ok? && EntryIs(Moov.Stbl(out, h, handler).value.entry, t, out, blob)
  {
    hide Fold, EncodeAll, PayloadIs, Moov.StsdEntry, EntryIs, EntryBox, Init.StblBoxes;
    StblSlotsSeen(out, h, blob);
    StsdReadsBack(out, HeaderOf(Init.Stsd(blob), h.PayloadOffset()), blob, handler, t);
  }

  // ---------- Media ----------

  lemma MinfCodes()
    ensures Code("vmhd") != Code("stbl") && Code("smhd") != Code("stbl") && Code("dinf") != Code("stbl")
    ensures Code("vmhd") != Code("uuid") && Code("smhd") != Code("uuid") && Code("dinf") != Code("uuid")
    ensures Code("stbl") != Code("uuid")
  {
    hide Code;
    assert Num(Code("vmhd")) == 0x766D_6864 && Num(Code("stbl")) == 0x7374_626C;
    assert Num(Code("smhd")) == 0x736D_6864 && Num(Code("dinf")) == 0x6469_6E66;
    assert Num(Code("uuid")) == 0x7575_6964;
  }

  /** A box that is not the sample table is passed over. */
  lemma {:induction false} PassOver(out: bytes, pos: nat, end: nat, boxes: seq<Plain>)
    requires Holds(out, pos, end, boxes) && end <= |out| && |boxes| > 0 && Visible(boxes[0])
    ensures var h := HeaderOf(boxes[0], pos);
            && PayloadIs(out, h, boxes[0].payload) && Holds(out, h.End(), end, boxes[1..])
            && Moov.StblIn(out, pos, end) == if h.boxType == Code("stbl") then Ok(h) else Moov.StblIn(out, h.End(), end)
  {
    hide Plain.Encode, Holds, PayloadIs, HeaderAt, Code;
    HoldsFirst(out, pos, end, boxes);
    PlainHeader(out, pos, end, boxes[0]);
  }

  lemma {:induction false} MinfReadsBack(out: bytes, h: BoxHeader, t: Init.Track)
    requires PayloadIs(out, h, EncodeAll(Init.MinfBoxes(t))) && Init.Stbl(t.SampleEntry()).Sized()
    ensures var stbl := Moov.StblIn(out, h.PayloadOffset(), h.End());
            stbl.Ok? && PayloadIs(out, stbl.value, EncodeAll(Init.StblBoxes(t.SampleEntry())))
  {
    hide Code, Holds, EncodeAll, PayloadIs, Moov.StblIn, Init.StblBoxes;
    MinfCodes();
    var bs := Init.MinfBoxes(t);
    Children(out, h, bs);
    PayloadInside(out, h, EncodeAll(bs));
    var p, end := h.PayloadOffset(), h.End();
    PassOver(out, p, end, bs);
    PassOver(out, p + bs[0].Size(), end, bs[1..]);
    assert bs[1..][1..] == bs[2..];
    PassOver(out, p + bs[0].Size() + bs[1].Size(), end, bs[2..]);
  }

  lemma MdiaCodes()
    ensures Code("mdhd") != Code("uuid") && Code("hdlr") != Code("uuid") && Code("minf") != Code("uuid")
    ensures Code("hdlr") != Code("mdhd") && Code("minf") != Code("mdhd") && Code("minf") != Code("hdlr")
  {
    hide Code;
    assert Num(Code("mdhd")) == 0x6D64_6864 && Num(Code("uuid")) == 0x7575_6964;
    assert Num(Code("hdlr")) == 0x6864_6C72 && Num(Code("minf")) == 0x6D69_6E66;
  }

  lemma {:induction false} MdiaSlotsSeen(out: bytes, h: BoxHeader, t: Init.Track)
    requires PayloadIs(out, h, EncodeAll(Init.MdiaBoxes(t))) && Init.Minf(t).Sized()
    ensures var slots := Fold(out, h.PayloadOffset(), h.End(), Moov.NO_MDIA, Moov.MdiaVisitor(out));
            && slots.Ok? && slots.value.mdhd == Some(t.Timescale()) && slots.value.handler == Some(t.Handler())
            && slots.value.minf.Some? && PayloadIs(out, slots.value.minf.value, EncodeAll(Init.MinfBoxes(t)))
  {
    hide Code, Fold, Holds, EncodeAll, PayloadIs, Moov.MdhdTimescale, Moov.HdlrType, Init.MinfBoxes;
    MdiaCodes();
    var bs, visit := Init.MdiaBoxes(t), Moov.MdiaVisitor(out);
    Children(out, h, bs);
    PayloadInside(out, h, EncodeAll(bs));
    var p, end, s0 := h.PayloadOffset(), h.End(), Moov.NO_MDIA;
    var h0 := HeaderOf(bs[0], p);
    StepInto(out, p, end, bs, s0, visit);
    MdhdReadsBack(out, h0, t.Timescale());
    var s1 := s0.(mdhd := Some(t.Timescale()));
    StepInto(out, h0.End(), end, bs[1..], s1, visit);
    var h1 := HeaderOf(bs[1], h0.End());
    HdlrReadsBack(out, h1, t.Handler(), t.Name());
    var s2 := s1.(handler := Some(t.Handler()));
    assert bs[1..][1..] == bs[2..];
    StepInto(out, h1.End(), end, bs[2..], s2, visit);
    var h2 := HeaderOf(bs[2], h1.End());
    assert bs[2..][1..] == [];
    StepEnd(out, h2.End(), end, s2.(minf := Some(h2)), visit);
  }

  lemma MdiaReadsBack(out: bytes, h: BoxHeader, t: Init.Track, e: Moov.SampleEntryInfo)
    requires PayloadIs(out, h, EncodeAll(Init.MdiaBoxes(t))) && Init.Mdia(t).Sized()
    requires EntryBox(t.SampleEntry(), t.Handler(), e.fourcc, e.sampleRate, e.channelCount)
    ensures var m := Moov.Mdia(out, h);
            && m.Ok? && m.value.handler == t.Handler() && m.value.timescale == t.Timescale()
            && EntryIs(m.value.stbl.entry, e, out, t.SampleEntry())
  {
    hide Fold, EncodeAll, PayloadIs, EntryIs, EntryBox, Moov.Stbl, Moov.StblIn, Init.MdiaBoxes, Init.MinfBoxes,
         Init.StblBoxes, Init.Minf, Init.Stbl;
    Init.TrakSize(t);
    MdiaSlotsSeen(out, h, t);
    var slots := Fold(out, h.PayloadOffset(), h.End(), Moov.NO_MDIA, Moov.MdiaVisitor(out)).value;
    MinfReadsBack(out, slots.minf.value, t);
    var stbl := Moov.StblIn(out, slots.minf.value.PayloadOffset(), slots.minf.value.End()).value;
    StblReadsBack(out, stbl, t.SampleEntry(), t.Handler(), e);
  }

  // ---------- Tracks ----------

  lemma TrakCodes()
    ensures Code("tkhd") != Code("uuid") && Code("mdia") != Code("uuid") && Code("edts") != Code("uuid")
    ensures Code("mdia") != Code("tkhd") && Code("edts") != Code("tkhd") && Code("edts") != Code("mdia")
  {
    hide Code;
    assert Num(Code("tkhd")) == 0x746B_6864 && Num(Code("uuid")) == 0x7575_6964;
    assert Num(Code("mdia")) == 0x6D64_6961 && Num(Code("edts")) == 0x6564_7473;
  }

  /** The parts of a written track. */
  lemma TrakParts(out: bytes, h: BoxHeader, t: Init.Track)
    requires PayloadIs(out, h, Init.Trak(t).payload)
    ensures var p, n := h.PayloadOffset(), |t.Elst()|;
            && p + 104 + n + Init.Mdia(t).Size() == h.End() <= |out|
            && out[p..p + 104] == Init.TrackTkhd(t).Encode()
            && out[p + 104..p + 104 + n] == t.Elst()
            && out[p + 104 + n..h.End()] == Init.Mdia(t).Encode()
  {
    hide Plain.Encode, Init.TrackTkhd, Init.Mdia;
    var a, b, c := Init.TrackTkhd(t).Encode(), t.Elst(), Init.Mdia(t).Encode();
    var p, end := h.PayloadOffset(), h.End();
    Middle(a, b, c);
    SubSlice(out, p, end, 0, |a|);
    SubSlice(out, p, end, |a|, |a| + |b|);
    SubSlice(out, p, end, |a| + |b|, |a| + |b| + |c|);
  }

  /** Visiting an edit list remembers where it lies. */
  lemma EditVisited(out: bytes, h: BoxHeader, s: Moov.TrakSlots)
    requires h.boxType == Code("edts")
    ensures Moov.TrakVisitor(out)(h, s) == Ok(s.(elst := Some(ByteRange(h.start, h.declaredSize))))
  {
    hide Code, Moov.Tkhd;
    TrakCodes();
  }

  /** An edit list that states its size ends where it should. */
  lemma EditStep(out: bytes, q: nat, end: nat, blob: bytes, s: Moov.TrakSlots)
    requires EditBox(blob) && q + |blob| <= end <= |out| && out[q..q + |blob|] == blob && StatesSize(blob)
    ensures Fold(out, q, end, s, Moov.TrakVisitor(out))
            == Fold(out, q + |blob|, end, s.(elst := Some(ByteRange(q, |blob|))), Moov.TrakVisitor(out))
  {
    hide HeaderAt, Code, Fold, Moov.TrakVisitor;
    var b :| IsBox(blob, b) && b.boxType == Code("edts");
    assert blob[0..0 + |blob|] == blob;
    SizedHeaderMoves(blob, b, |blob|, out, q, end);
    FoldStep(out, Moved(b, q), end, s, Moov.TrakVisitor(out));
    EditVisited(out, Moved(b, q), s);
  }

  /** One that does not swallows everything up to the end of the track. */
  lemma {:induction false} EditSwallows(out: bytes, q: nat, end: nat, blob: bytes, s: Moov.TrakSlots)
    requires EditBox(blob) && q + |blob| <= end <= |out| && out[q..q + |blob|] == blob && !StatesSize(blob)
    ensures |blob| >= 8
    ensures Fold(out, q, end, s, Moov.TrakVisitor(out)) == Ok(s.(elst := Some(ByteRange(q, end - q))))
  {
    hide HeaderAt, Code, Fold, Moov.TrakVisitor;
    var b :| IsBox(blob, b) && b.boxType == Code("edts");
    assert blob[0..0 + |blob|] == blob;
    var h := BoxHeader(b.boxType, q, 8, end - q);
    OpenEnded(blob, b, out, q, end);
    FoldStep(out, h, end, s, Moov.TrakVisitor(out));
    EditVisited(out, h, s);
    FoldEnd(out, end, s.(elst := Some(ByteRange(q, end - q))), Moov.TrakVisitor(out));
  }

  lemma OpenEnded(blob: bytes, b: BoxHeader, out: bytes, q: nat, end: nat)
    requires IsBox(blob, b) && |blob| >= 8 && U32At(blob, 0) == 0
    requires q + |blob| <= end <= |out| && SameBytes(blob, 0, out, q, |blob|)
    ensures IsHeader(out, BoxHeader(b.boxType, q, 8, end - q), end)
  {
    hide ReadBe, Code;
    SamePart(blob, 0, out, q, |blob|, 0, 4);
    SamePart(blob, 0, out, q, |blob|, 4, 4);
  }

  /** The edit list of a track, as it should be found at `q`. */
  function EditRange(t: Init.Track, q: nat): Option<ByteRange> {
    if |t.Elst()| == 0 then None else Some(ByteRange(q, |t.Elst()|))
  }

  ghost predicate Presentable(t: Init.Track, e: Moov.SampleEntryInfo) {
    && Init.Trak(t).Sized() && t.Width() <= 0xFFFF && t.Height() <= 0xFFFF
    && EntryBox(t.SampleEntry(), t.Handler(), e.fourcc, e.sampleRate, e.channelCount)
    && (|t.Elst()| > 0 ==> EditBox(t.Elst()))
  }

  /** The track header comes first. */
  lemma {:induction false} TrakHead(out: bytes, pos: nat, end: nat, t: Init.Track)
    requires pos + 104 <= end <= |out| && out[pos..pos + 104] == Init.TrackTkhd(t).Encode()
    requires t.Width() <= 0xFFFF && t.Height() <= 0xFFFF
    ensures Fold(out, pos, end, Moov.NO_TRAK, Moov.TrakVisitor(out))
            == Fold(out, pos + 104, end, Moov.TrakSlots(Some(Moov.TkhdInfo(t.Width(), t.Height())), None, None),
                Moov.TrakVisitor(out))
  {
    hide Code, Fold, PayloadIs, Moov.Tkhd, Init.TkhdPayload, Plain.Encode;
    TrakCodes();
    PlainStep(out, pos, end, Init.TrackTkhd(t), Moov.NO_TRAK, Moov.TrakVisitor(out));
    TkhdReadsBack(out, HeaderOf(Init.TrackTkhd(t), pos), t.Id(), t.Audio?, t.Width(), t.Height());
  }

  /** The media comes last. */
  lemma {:induction false} TrakTail(out: bytes, pos: nat, end: nat, t: Init.Track, s: Moov.TrakSlots)
    requires pos + Init.Mdia(t).Size() == end <= |out| && out[pos..end] == Init.Mdia(t).Encode() && Init.Mdia(t).Sized()
    ensures Fold(out, pos, end, s, Moov.TrakVisitor(out)) == Ok(s.(mdia := Some(HeaderOf(Init.Mdia(t), pos))))
    ensures PayloadIs(out, HeaderOf(Init.Mdia(t), pos), EncodeAll(Init.MdiaBoxes(t)))
  {
    hide Code, Fold, PayloadIs, EncodeAll, Init.MdiaBoxes, Plain.Encode, Moov.Tkhd;
    TrakCodes();
    var m := HeaderOf(Init.Mdia(t), pos);
    PlainStep(out, pos, end, Init.Mdia(t), s, Moov.TrakVisitor(out));
    FoldEnd(out, end, s.(mdia := Some(m)), Moov.TrakVisitor(out));
  }

  /** What the demuxer collects from a written track whose payload is `[p, end)`. */
  function Collected(t: Init.Track, p: nat, end: nat): Moov.TrakSlots
    requires p + 104 <= end
  {
    var tkhd := Some(Moov.TkhdInfo(t.Width(), t.Height()));
    var q := p + 104;
    if StatesSize(t.Elst()) then
      Moov.TrakSlots(tkhd, Some(HeaderOf(Init.Mdia(t), q + |t.Elst()|)), EditRange(t, q))
    else Moov.TrakSlots(tkhd, None, Some(ByteRange(q, end - q)))
  }

  /** The parts of a written track, one after another. */
  ghost predicate TrakLies(out: bytes, p: nat, end: nat, t: Init.Track) {
    var q := p + 104 + |t.Elst()|;
    && q + Init.Mdia(t).Size() == end <= |out|
    && out[p..p + 104] == Init.TrackTkhd(t).Encode() && out[p + 104..q] == t.Elst()
    && out[q..end] == Init.Mdia(t).Encode()
  }

  lemma {:induction false} TrakTailLies(out: bytes, p: nat, end: nat, t: Init.Track, s: Moov.TrakSlots)
    requires TrakLies(out, p, end, t) && Init.Mdia(t).Sized()
    ensures var m := HeaderOf(Init.Mdia(t), p + 104 + |t.Elst()|);
            && PayloadIs(out, m, EncodeAll(Init.MdiaBoxes(t)))
            && Fold(out, p + 104 + |t.Elst()|, end, s, Moov.TrakVisitor(out)) == Ok(s.(mdia := Some(m)))
  {
    hide Code, Fold, EncodeAll, PayloadIs, Init.MdiaBoxes, Init.Mdia, Init.TrackTkhd, Plain.Encode, Moov.TrakVisitor;
    TrakTail(out, p + 104 + |t.Elst()|, end, t, s);
  }

  lemma {:induction false} TrakCollects(out: bytes, p: nat, end: nat, t: Init.Track)
    requires TrakLies(out, p, end, t)
    requires Init.Mdia(t).Sized() && t.Width() <= 0xFFFF && t.Height() <= 0xFFFF
    requires |t.Elst()| > 0 ==> EditBox(t.Elst())
    ensures Fold(out, p, end, Moov.NO_TRAK, Moov.TrakVisitor(out)) == Ok(Collected(t, p, end))
    ensures PayloadIs(out, HeaderOf(Init.Mdia(t), p + 104 + |t.Elst()|), EncodeAll(Init.MdiaBoxes(t)))
  {
    hide Code, Fold, EncodeAll, PayloadIs, EditBox, StatesSize, Init.MdiaBoxes, Init.Mdia, Init.TrackTkhd,
         Plain.Encode, Moov.TrakVisitor, HeaderOf, EditRange;
    TrakHead(out, p, end, t);
    var s1 := Moov.TrakSlots(Some(Moov.TkhdInfo(t.Width(), t.Height())), None, None);
    TrakTailLies(out, p, end, t, s1.(elst := EditRange(t, p + 104)));
    if StatesSize(t.Elst()) {
      EditPassed(out, p + 104, end, t, s1);
    } else {
      EditThere(t);
      EditSwallows(out, p + 104, end, t.Elst(), s1);
    }
  }

  /** An edit list that states its size, or none, is passed over. */
  lemma EditPassed(out: bytes, q: nat, end: nat, t: Init.Track, s: Moov.TrakSlots)
    requires q + |t.Elst()| <= end <= |out| && out[q..q + |t.Elst()|] == t.Elst() && StatesSize(t.Elst())
    requires (|t.Elst()| > 0 ==> EditBox(t.Elst())) && s.elst.None?
    ensures Fold(out, q, end, s, Moov.TrakVisitor(out))
            == Fold(out, q + |t.Elst()|, end, s.(elst := EditRange(t, q)), Moov.TrakVisitor(out))
  {
    hide Code, Fold, EditBox, StatesSize, Moov.TrakVisitor;
    if |t.Elst()| > 0 {
      EditStep(out, q, end, t.Elst(), s);
    } else {
      assert s.(elst := None) == s;
    }
  }

  lemma EditThere(t: Init.Track)
    requires !StatesSize(t.Elst())
    ensures |t.Elst()| > 0
  {}

  lemma NothingStatesSize(blob: bytes)
    requires |blob| == 0
    ensures StatesSize(blob)
  {}

  /** The track that was found is the one that was written. */
  predicate TrackIs(out: bytes, u: Moov.UnclassifiedTrack, t: Init.Track, e: Moov.SampleEntryInfo) {
    && u.handler == t.Handler() && u.track.timescale == t.Timescale()
    && u.track.width == t.Width() && u.track.height == t.Height()
    && u.track.fourcc == e.fourcc && u.track.sampleRate == e.sampleRate && u.track.channelCount == e.channelCount
    && BlobsReadable(out, u.track) && Blob(out, u.track.sampleEntry) == t.SampleEntry()
    && ElstOf(out, u.track) == t.Elst()
  }

  lemma TrakReadsBack(out: bytes, h: BoxHeader, t: Init.Track, e: Moov.SampleEntryInfo)
    requires PayloadIs(out, h, Init.Trak(t).payload) && Presentable(t, e)
    ensures !StatesSize(t.Elst()) ==> Moov.Trak(out, h) == Err(MissingAtom)
    ensures StatesSize(t.Elst()) ==> Moov.Trak(out, h).Ok? && TrackIs(out, Moov.Trak(out, h).value, t, e)
  {
    hide Code, Fold, EncodeAll, PayloadIs, EntryBox, EditBox, StatesSize, Moov.Mdia, Init.MdiaBoxes, Init.Mdia,
         Init.Minf, Init.Stbl, Init.Trak, Init.TrackTkhd, Plain.Encode, Moov.TrakVisitor, HeaderOf, EntryIs, TrackIs,
         Moov.TrakResult, Box, Be32, Collected;
    Init.TrakSize(t);
    TrakParts(out, h, t);
    TrakCollects(out, h.PayloadOffset(), h.End(), t);
    TrakAssembles(out, h.PayloadOffset(), h.End(), t, e);
  }

  /** What was collected amounts to the written track, or lacks its media. */
  lemma TrakAssembles(out: bytes, p: nat, end: nat, t: Init.Track, e: Moov.SampleEntryInfo)
    requires p + 104 + |t.Elst()| <= end <= |out| && out[p + 104..p + 104 + |t.Elst()|] == t.Elst()
    requires PayloadIs(out, HeaderOf(Init.Mdia(t), p + 104 + |t.Elst()|), EncodeAll(Init.MdiaBoxes(t)))
             && Init.Mdia(t).Sized()
    requires EntryBox(t.SampleEntry(), t.Handler(), e.fourcc, e.sampleRate, e.channelCount)
    ensures var r := Moov.TrakResult(out, Collected(t, p, end));
            if StatesSize(t.Elst()) then r.Ok? && TrackIs(out, r.value, t, e) else r == Err(MissingAtom)
  {
    hide Code, EncodeAll, PayloadIs, EntryBox, StatesSize, Moov.Mdia, Init.MdiaBoxes, Init.Mdia, HeaderOf, EntryIs,
         TrackIs;
    if StatesSize(t.Elst()) {
      MdiaReadsBack(out, HeaderOf(Init.Mdia(t), p + 104 + |t.Elst()|), t, e);
      TrackAssembled(out, t, e, Collected(t, p, end), p + 104);
    }
  }

  /** From the media that reads back, and the edit list that lies at `q`, to the whole track. */
  lemma TrackAssembled(out: bytes, t: Init.Track, e: Moov.SampleEntryInfo, s: Moov.TrakSlots, q: nat)
    requires s.tkhd == Some(Moov.TkhdInfo(t.Width(), t.Height())) && s.mdia.Some? && s.elst == EditRange(t, q)
    requires q + |t.Elst()| <= |out| && out[q..q + |t.Elst()|] == t.Elst()
    requires var m := Moov.Mdia(out, s.mdia.value);
             && m.Ok? && m.value.handler == t.Handler() && m.value.timescale == t.Timescale()
             && EntryIs(m.value.stbl.entry, e, out, t.SampleEntry())
    ensures Moov.TrakResult(out, s).Ok? && TrackIs(out, Moov.TrakResult(out, s).value, t, e)
  {
    Moov.HandlersDiffer();
    hide Code, Moov.Mdia;
  }

  // ---------- The whole segment ----------

  lemma TopCodes()
    ensures Code("mvhd") != Code("uuid") && Code("trak") != Code("uuid") && Code("mvex") != Code("uuid")
    ensures Code("ftyp") != Code("uuid") && Code("moov") != Code("uuid")
    ensures Code("mvhd") != Code("trak") && Code("mvex") != Code("trak") && Code("moov") != Code("ftyp")
  {
    hide Code;
    assert Num(Code("mvhd")) == 0x6D76_6864 && Num(Code("uuid")) == 0x7575_6964;
    assert Num(Code("trak")) == 0x7472_616B && Num(Code("mvex")) == 0x6D76_6578;
    assert Num(Code("ftyp")) == 0x6674_7970 && Num(Code("moov")) == 0x6D6F_6F76;
  }

  function Tracks(out: bytes, moov: BoxHeader): Result<seq<Moov.UnclassifiedTrack>> {
    Fold(out, moov.PayloadOffset(), moov.End(), [], Moov.TracksVisitor(out))
  }

  /** Both tracks are found in order, unless an edit list swallowed the media of one. */
  lemma TracksReadBack(out: bytes, h: BoxHeader, v: VideoTrackMeta, a: AudioTrackMeta,
                       ve: Moov.SampleEntryInfo, ae: Moov.SampleEntryInfo)
    requires PayloadIs(out, h, EncodeAll(Init.MoovBoxes(v, a)))
    requires Presentable(Init.Video(v), ve) && Presentable(Init.Audio(a), ae)
    ensures if StatesSize(v.elst) && StatesSize(a.elst)
            then Tracks(out, h).Ok? && |Tracks(out, h).value| == 2
                 && TrackIs(out, Tracks(out, h).value[0], Init.Video(v), ve)
                 && TrackIs(out, Tracks(out, h).value[1], Init.Audio(a), ae)
            else Tracks(out, h) == Err(MissingAtom)
  {
    hide Code, Fold, Holds, EncodeAll, PayloadIs, StatesSize, Presentable, TrackIs, Moov.Trak, Init.Mvhd, Init.Mvex,
         Init.Trak, Plain.Encode;
    TopCodes();
    Init.MoovSize(v, a);
    var bs, visit, none: seq<Moov.UnclassifiedTrack> := Init.MoovBoxes(v, a), Moov.TracksVisitor(out), [];
    Children(out, h, bs);
    PayloadInside(out, h, EncodeAll(bs));
    var p, end := h.PayloadOffset(), h.End();
    MvBoxesVisible();
    TrakVisible(Init.Video(v), ve);
    TrakVisible(Init.Audio(a), ae);
    StepInto(out, p, end, bs, none, visit);
    var h0 := HeaderOf(bs[0], p);
    StepInto(out, h0.End(), end, bs[1..], none, visit);
    var h1 := HeaderOf(bs[1], h0.End());
    TrakReadsBack(out, h1, Init.Video(v), ve);
    if StatesSize(v.elst) {
      var one := none + [Moov.Trak(out, h1).value];
      assert bs[1..][1..] == bs[2..];
      StepInto(out, h1.End(), end, bs[2..], one, visit);
      var h2 := HeaderOf(bs[2], h1.End());
      TrakReadsBack(out, h2, Init.Audio(a), ae);
      if StatesSize(a.elst) {
        var two := one + [Moov.Trak(out, h2).value];
        assert bs[2..][1..] == bs[3..];
        StepInto(out, h2.End(), end, bs[3..], two, visit);
        assert bs[3..][1..] == [];
        StepEnd(out, HeaderOf(bs[3], h2.End()).End(), end, two, visit);
      }
    }
  }

  lemma TrakVisible(t: Init.Track, e: Moov.SampleEntryInfo)
    requires Presentable(t, e)
    ensures Init.Trak(t).fourcc == Code("trak") && Init.Trak(t).Sized()
  {}

  lemma MvBoxesVisible()
    ensures Init.Mvhd().fourcc == Code("mvhd") && Init.Mvhd().Sized()
    ensures Init.Mvex().fourcc == Code("mvex") && Init.Mvex().Sized()
  {
    Init.EncodeAllSize(Init.MvexBoxes());
    Init.TwoSizes(Init.MvexBoxes());
  }

  lemma FtypReadsBack(out: bytes, h: BoxHeader)
    requires PayloadIs(out, h, Init.FtypPayload())
    ensures Moov.Ftyp(out, h) == Ok(())
  {
    hide Code, Be32;
    FetchInside(out, h, Init.FtypPayload(), 0, 16);
    assert Init.FtypPayload()[0..16] == Init.FtypPayload();
    assert Init.FtypPayload()[..4] == Code("cmfc") == Moov.ALLOWED_BRANDS[6];
  }

  /** A file of `ftyp` and `moov`. */
  lemma TopOf(out: bytes, b: Plain) returns (moov: BoxHeader)
    requires out == EncodeAll([Init.Ftyp(), b]) && b.fourcc == Code("moov") && b.Sized()
    ensures Fold(out, 0, |out|, Moov.NO_TOP, Moov.TopVisitor(out)) == Ok(Moov.TopSlots(true, Some(moov)))
    ensures PayloadIs(out, moov, b.payload)
  {
    hide Code, Fold, Holds, PayloadIs, EncodeAll, Moov.Ftyp, Box;
    TopCodes();
    var bs, visit := [Init.Ftyp(), b], Moov.TopVisitor(out);
    assert out[0..|out|] == out;
    EncodedHolds(out, 0, |out|, bs);
    StepInto(out, 0, |out|, bs, Moov.NO_TOP, visit);
    var h0 := HeaderOf(bs[0], 0);
    FtypReadsBack(out, h0);
    StepInto(out, h0.End(), |out|, bs[1..], Moov.TopSlots(true, None), visit);
    moov := HeaderOf(bs[1], h0.End());
    assert bs[1..][1..] == [];
    StepEnd(out, moov.End(), |out|, Moov.TopSlots(true, Some(moov)), visit);
  }

  lemma TopReadsBack(out: bytes, v: VideoTrackMeta, a: AudioTrackMeta) returns (moov: BoxHeader)
    requires out == Init.InitSegment(v, a) && Init.Moov(v, a).Sized()
    ensures Fold(out, 0, |out|, Moov.NO_TOP, Moov.TopVisitor(out)) == Ok(Moov.TopSlots(true, Some(moov)))
    ensures PayloadIs(out, moov, EncodeAll(Init.MoovBoxes(v, a)))
  {
    hide Code, Fold, PayloadIs, EncodeAll, Init.MoovBoxes, Init.Ftyp;
    moov := TopOf(out, Init.Moov(v, a));
  }

  /** Two tracks of different kinds are told apart. */
  lemma ClassifyTwo(ts: seq<Moov.UnclassifiedTrack>)
    requires |ts| == 2 && ts[0].handler == Moov.HANDLER_VIDEO && ts[1].handler == Moov.HANDLER_AUDIO
    ensures Moov.Classified(ts) == Ok(Moov.MoovParse(ts[0].track, ts[1].track))
  {
    Moov.HandlersDiffer();
    hide Code;
    assert ts[..1] == [ts[0]] && ts[..1][..0] == ts[..0];
    assert Moov.OfHandler(ts[..1], Moov.HANDLER_VIDEO) == [ts[0].track];
    assert Moov.OfHandler(ts[..1], Moov.HANDLER_AUDIO) == [];
  }

  lemma SegmentParses(v: VideoTrackMeta, a: AudioTrackMeta, ve: Moov.SampleEntryInfo, ae: Moov.SampleEntryInfo)
    requires Init.Moov(v, a).Sized() && Presentable(Init.Video(v), ve) && Presentable(Init.Audio(a), ae)
    ensures var out := Init.InitSegment(v, a);
            var parsed := Moov.Parsed(out, |out|);
            if StatesSize(v.elst) && StatesSize(a.elst)
            then && parsed.Ok?
                 && TrackIs(out, Moov.UnclassifiedTrack(Moov.HANDLER_VIDEO, parsed.value.video), Init.Video(v), ve)
                 && TrackIs(out, Moov.UnclassifiedTrack(Moov.HANDLER_AUDIO, parsed.value.audio), Init.Audio(a), ae)
            else parsed == Err(MissingAtom)
  {
    hide Fold, PayloadIs, StatesSize, Moov.Classified, Init.InitSegment, Init.Moov, Init.MoovBoxes, Code, Presentable,
         BlobsReadable, InFile, Blob, ElstOf;
    var out := Init.InitSegment(v, a);
    var moov := TopReadsBack(out, v, a);
    TracksReadBack(out, moov, v, a, ve, ae);
    if StatesSize(v.elst) && StatesSize(a.elst) {
      ClassifyTwo(Tracks(out, moov).value);
    }
  }

  /** The metadata that a parse found, with its blobs. */
  function Metas(data: bytes, m: Moov.MoovParse): (VideoTrackMeta, AudioTrackMeta)
    requires BlobsReadable(data, m.video) && BlobsReadable(data, m.audio)
  {
    (VideoMetaOf(data, m.video), AudioMetaOf(data, m.audio))
  }

  ghost predicate ParsesTo(data: bytes, sourceLen: nat, metas: (VideoTrackMeta, AudioTrackMeta)) {
    var m := Moov.Parsed(data, sourceLen);
    m.Ok? && BlobsReadable(data, m.value.video) && BlobsReadable(data, m.value.audio) && Metas(data, m.value) == metas
  }

  /**
   Parse any file, write the init segment for what was found, and parse that: timescales, codecs, sizes,
   rate, channels, sample entries and edit lists are all the same. This fails exactly when an edit list
   was stored by a box that reaches to the end of its track instead of stating its size.
   */
  lemma InitReadsBack(data: bytes, sourceLen: nat, v: VideoTrackMeta, a: AudioTrackMeta)
    requires ParsesTo(data, sourceLen, (v, a)) && Init.Moov(v, a).Sized()
    ensures ParsesTo(Init.InitSegment(v, a), |Init.InitSegment(v, a)|, (v, a))
            <==> StatesSize(v.elst) && StatesSize(a.elst)
    ensures !(StatesSize(v.elst) && StatesSize(a.elst)) ==>
              Moov.Parsed(Init.InitSegment(v, a), |Init.InitSegment(v, a)|) == Err(MissingAtom)
  {
    hide Moov.Parsed, Init.InitSegment, Init.Moov, Init.Trak, StatesSize, EntryBox, EditBox, Code;
    ParsedFacts(data, sourceLen);
    Init.MoovSize(v, a);
    var m := Moov.Parsed(data, sourceLen).value;
    var ve := Moov.SampleEntryInfo(v.fourcc, m.video.sampleEntry, m.video.sampleRate, m.video.channelCount);
    var ae := Moov.SampleEntryInfo(a.fourcc, m.audio.sampleEntry, m.audio.sampleRate, m.audio.channelCount);
    SegmentParses(v, a, ve, ae);
  }
}
