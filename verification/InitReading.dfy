/** What a reader of the written init segment finds: two tracks, their ids, handlers and sample entries. */
module InitReading {
  import opened Boxes
  import opened BoxFolds
  import opened BoxReader
  import opened Bytes
  import opened Format
  import opened FragmentReader
  import opened InitDefaults
  import opened InitLaws
  import opened InitReader
  import opened InitRoundTrip
  import opened MuxDemux
  import opened Wrappers
  import Init

  // ---------- Leaf boxes ----------

  lemma PlainWord(version: byte, flags: nat, rest: bytes)
    requires flags <= 0xFF_FFFF
    ensures U32At(FullHeader(version, flags) + rest, 0) == version * 0x100_0000 + flags
  {
    hide Be32, ReadBe;
    Be32ReadBack(version * 0x100_0000 + flags);
    assert (FullHeader(version, flags) + rest)[0..4] == FullHeader(version, flags);
  }

  /** The brands of an init segment. */
  const INIT_BRANDS: seq<bytes> := [Code("cmfc"), Code("iso6"), Code("cmfc")]

  lemma FtypReads()
    ensures BrandsIn(Init.FtypPayload()) == Ok(INIT_BRANDS)
  {
    hide Code, Be32;
    var p := Init.FtypPayload();
    var tail := p[8..];
    assert tail == Code("iso6") + Code("cmfc");
    assert tail[..4] == Code("iso6") && tail[4..] == Code("cmfc") && tail[4..][..4] == Code("cmfc");
    assert Rows(tail[4..][4..], 4, 0) == [];
    assert Rows(tail[4..], 4, 1) == [Code("cmfc")];
    assert p[..4] == Code("cmfc") && (|p| - 8) / 4 == 2;
    var head: seq<bytes>, rest: seq<bytes> := [Code("cmfc")], [Code("iso6"), Code("cmfc")];
    assert Rows(tail, 4, 2) == rest;
    assert head + rest == INIT_BRANDS;
  }

  lemma {:induction false} WordsPiece(ns: seq<nat>, i: nat)
    requires i < |ns|
    ensures Init.Words(ns)[4 * i..4 * i + 4] == Be32(ns[i])
    decreases |ns|
  {
    hide Be32;
    if i < |ns| - 1 {
      WordsPiece(ns[..|ns| - 1], i);
    }
  }

  /** Written words read back. */
  lemma {:induction false} WordsRead(b: bytes, at: nat, ns: seq<nat>)
    requires at + 4 * |ns| <= |b| && b[at..at + 4 * |ns|] == Init.Words(ns)
    requires forall i :: 0 <= i < |ns| ==> ns[i] <= U32_MAX
    ensures WordsAt(b, at, ns)
  {
    hide Be32, Init.Words, U32At;
    forall i | 0 <= i < |ns|
      ensures U32At(b, at + 4 * i) == ns[i]
    {
      WordsPiece(ns, i);
      SubSlice(b, at, at + 4 * |ns|, 4 * i, 4 * i + 4);
      WordRead(b, at + 4 * i, ns[i]);
    }
  }

  lemma HalfRead(b: bytes, pos: nat, n: nat)
    requires pos + 2 <= |b| && b[pos..pos + 2] == Init.Be16(n) && n <= 0xFFFF
    ensures HalfAt(b, pos) == n
  {
    hide Be, ReadBe;
    Pow256Values();
    BeReadBack(2, n);
  }

  lemma WordRead(b: bytes, pos: nat, n: nat)
    requires pos + 4 <= |b| && b[pos..pos + 4] == Be32(n) && n <= U32_MAX
    ensures U32At(b, pos) == n
  {
    hide Be32, ReadBe;
    Be32ReadBack(n);
  }

  /** Two and three zero words, as they are written. */
  lemma ZeroWords()
    ensures Init.Words([0, 0]) == Be32(0) + Be32(0) && Init.Words([0, 0, 0]) == Be32(0) + Be32(0) + Be32(0)
  {
    hide Be32;
    var two: seq<nat>, three: seq<nat> := [0, 0], [0, 0, 0];
    assert two[..1] == [0] && two[..1][..0] == [] && three[..2] == two;
    assert Init.Words(two[..1][..0]) == [];
    assert Init.Words(two[..1]) == [] + Be32(0) == Be32(0);
  }

  lemma HalvesAreZero()
    ensures Init.Be16(0) + Init.Be16(0) == Be32(0)
  {}

  lemma MvhdPlain()
    ensures PlainMovie(Init.MvhdPayload(), 32)
  {
    hide Be32, Be64, Init.Be16, Init.Words, Init.MvhdTimes, U32At, HalfAt, WordsAt;
    var p, times := Init.MvhdPayload(), Init.MvhdTimes();
    assert p[32..36] == Be32(0x1_0000) && p[36..38] == Init.Be16(0x0100) && p[38..40] == Init.Be16(0);
    assert p[40..48] == Be32(0) + Be32(0);
    assert p[48..84] == Init.Words(Init.IDENTITY_MATRIX) && p[84..108] == Init.Words([0, 0, 0, 0, 0, 0]);
    ZeroWords();
    WordRead(p, 32, 0x1_0000);
    HalfRead(p, 36, 0x100);
    HalfRead(p, 38, 0);
    WordsRead(p, 40, [0, 0]);
    WordsRead(p, 48, Init.IDENTITY_MATRIX);
    WordsRead(p, 84, [0, 0, 0, 0, 0, 0]);
  }

  lemma MvhdReads()
    ensures ReadMvhd(Init.MvhdPayload()) == Ok((Init.MOVIE_TIMESCALE, Init.NEXT_TRACK_ID))
  {
    hide Be32, Be64, Init.Be16, Init.Words, FullHeader, ReadBe, PlainMovie;
    var p, rest := Init.MvhdPayload(), Init.MvhdPayload()[4..];
    assert p == FullHeader(1, 0) + rest;
    PlainWord(1, 0, rest);
    assert p[20..24] == Be32(Init.MOVIE_TIMESCALE) && p[108..112] == Be32(Init.NEXT_TRACK_ID);
    Be32ReadBack(Init.MOVIE_TIMESCALE);
    Be32ReadBack(Init.NEXT_TRACK_ID);
    MvhdPlain();
  }

  /** Pixels as they come back from the fixed-point form. */
  function Pixels(value: u32): nat {
    if value <= 0xFFFF then value else 0xFFFF
  }

  /** Full volume is 1.0 in 8.8 fixed point. */
  function Volume(isAudio: bool): nat {
    if isAudio then 0x100 else 0
  }

  lemma TkhdReads(trackId: u32, isAudio: bool, width: u32, height: u32)
    ensures ReadTkhd(Init.TkhdPayload(trackId, isAudio, width, height))
            == Ok(TrackHead(trackId, Volume(isAudio), Pixels(width), Pixels(height)))
  {
    hide Be32, Be64, Init.Be16, Init.Words, FullHeader, ReadBe, PlainTrack, HalfAt;
    var p := Init.TkhdPayload(trackId, isAudio, width, height);
    var rest := p[4..];
    assert p == FullHeader(1, Init.TKHD_FLAGS_ENABLED) + rest;
    PlainWord(1, Init.TKHD_FLAGS_ENABLED, rest);
    TopByte(1, Init.TKHD_FLAGS_ENABLED);
    assert p[0] == FullHeader(1, Init.TKHD_FLAGS_ENABLED)[0];
    TkhdWords(trackId, isAudio, width, height);
    TkhdPlain(trackId, isAudio, width, height);
    Be32ReadBack(0);
    Be32ReadBack(trackId);
    Be32ReadBack(Init.Fixed1616(width));
    Be32ReadBack(Init.Fixed1616(height));
  }

  lemma TkhdWords(trackId: u32, isAudio: bool, width: u32, height: u32)
    ensures var p := Init.TkhdPayload(trackId, isAudio, width, height);
            && p[20..24] == Be32(trackId) && p[24..28] == Be32(0)
            && p[88..92] == Be32(Init.Fixed1616(width)) && p[92..96] == Be32(Init.Fixed1616(height))
  {
    hide Be32, Be64, Init.Be16, Init.Words, FullHeader, Init.Fixed1616;
    var p, times := Init.TkhdPayload(trackId, isAudio, width, height), Init.TkhdTimes(trackId);
    assert times[20..24] == Be32(trackId) && times[24..28] == Be32(0);
    assert p[20..24] == times[20..24] && p[24..28] == times[24..28];
  }

  lemma TkhdPlain(trackId: u32, isAudio: bool, width: u32, height: u32)
    ensures var p := Init.TkhdPayload(trackId, isAudio, width, height);
            PlainTrack(p, 36) && HalfAt(p, 48) == Volume(isAudio)
  {
    HalvesAreZero();
    hide Be32, Be64, Init.Be16, Init.Words, Init.TkhdTimes, Init.Fixed1616, U32At, HalfAt, WordsAt;
    var p := Init.TkhdPayload(trackId, isAudio, width, height);
    assert p[36..48] == Be32(0) + Be32(0) + (Init.Be16(0) + Init.Be16(0));
    assert p[48..50] == Init.Be16(Volume(isAudio)) && p[50..52] == Init.Be16(0);
    assert p[52..88] == Init.Words(Init.IDENTITY_MATRIX);
    ZeroWords();
    WordsRead(p, 36, [0, 0, 0]);
    HalfRead(p, 48, Volume(isAudio));
    HalfRead(p, 50, 0);
    WordsRead(p, 52, Init.IDENTITY_MATRIX);
  }

  /** The language code of an undetermined language. */
  lemma Undetermined()
    ensures Letters(Init.LANGUAGE_UND) == Ascii("und")
  {}

  lemma MdhdReads(timescale: u32)
    ensures ReadMdhd(Init.MdhdPayload(timescale)) == Ok((timescale, Ascii("und")))
  {
    hide Be32, Be64, Init.Be16, FullHeader, ReadBe, HalfAt, Letters;
    var p, rest := Init.MdhdPayload(timescale), Init.MdhdPayload(timescale)[4..];
    assert p == FullHeader(1, 0) + rest;
    PlainWord(1, 0, rest);
    assert p[20..24] == Be32(timescale) && p[32..34] == Init.Be16(Init.LANGUAGE_UND) && p[34..36] == Init.Be16(0);
    Be32ReadBack(timescale);
    HalfRead(p, 32, Init.LANGUAGE_UND);
    HalfRead(p, 34, 0);
    Undetermined();
  }

  lemma HdlrReads(handler: FourCC, name: bytes)
    requires 0 !in name
    ensures ReadHdlr(Init.HdlrPayload(handler, name)) == Ok((handler, name))
  {
    hide Be32, FullHeader, ReadBe, WordsAt;
    var p, rest := Init.HdlrPayload(handler, name), Init.HdlrPayload(handler, name)[4..];
    assert p == FullHeader(0, 0) + rest;
    PlainWord(0, 0, rest);
    assert p[4..8] == Be32(0) && p[8..12] == handler && p[24..|p| - 1] == name;
    assert p[12..24] == Be32(0) + Be32(0) + Be32(0);
    Be32ReadBack(0);
    ZeroWords();
    WordsRead(p, 12, [0, 0, 0]);
  }

  lemma VideoMediaReads()
    ensures PlainMedia(Code("vmhd"), Init.Vmhd().payload)
  {
    HalvesAreZero();
    hide Code, Be32, FullHeader, ReadBe, WordsAt, Init.Be16;
    var p, half := Init.Vmhd().payload, Init.Be16(0);
    assert p == FullHeader(0, 1) + ((half + half) + (half + half));
    PlainWord(0, 1, (half + half) + (half + half));
    MediaWords(p, 1);
  }

  lemma SoundMediaReads()
    ensures PlainMedia(Code("smhd"), Init.Smhd().payload)
  {
    HalvesAreZero();
    hide Code, Be32, FullHeader, ReadBe, WordsAt, Init.Be16;
    assert Num(Code("vmhd")) == 0x766D_6864 && Num(Code("smhd")) == 0x736D_6864;
    hide Num;
    var p, half := Init.Smhd().payload, Init.Be16(0);
    assert p == FullHeader(0, 0) + (half + half);
    PlainWord(0, 0, half + half);
    MediaWords(p, 0);
  }

  lemma MediaWords(p: bytes, first: nat)
    requires |p| >= 8 && |p| % 4 == 0 && |p| <= 12 && U32At(p, 0) == first
    requires p[4..8] == Be32(0) && (|p| == 12 ==> p[8..12] == Be32(0))
    ensures WordsAt(p, 0, if |p| == 12 then [first, 0, 0] else [first, 0])
  {
    hide Be32, ReadBe;
    Be32ReadBack(0);
  }

  lemma StsdReads(entry: bytes)
    ensures ReadStsd(Init.Stsd(entry).payload) == Ok(entry)
  {
    hide Be32, FullHeader, ReadBe;
    var p := Init.Stsd(entry).payload;
    assert p == FullHeader(0, 0) + (Be32(1) + entry) && p[4..8] == Be32(1) && p[8..] == entry;
    PlainWord(0, 0, Be32(1) + entry);
    Be32ReadBack(1);
  }

  lemma EmptyReads(fourcc: FourCC)
    ensures NoRows(Init.EmptyTable(fourcc).payload) && NoSampleSizes(Init.EmptyStsz().payload)
  {
    hide Be32, FullHeader, ReadBe;
    var p, q := Init.EmptyTable(fourcc).payload, Init.EmptyStsz().payload;
    assert q == FullHeader(0, 0) + (Be32(0) + Be32(0));
    PlainWord(0, 0, Be32(0));
    PlainWord(0, 0, Be32(0) + Be32(0));
    assert p[4..8] == Be32(0) && q[4..8] == Be32(0) && q[8..12] == Be32(0);
    Be32ReadBack(0);
  }

  // ---------- Containers of boxes of different types ----------

  /** No vendor extensions, and no type twice. */
  predicate AllDiffer(boxes: seq<Plain>) {
    && (forall i :: 0 <= i < |boxes| ==> boxes[i].fourcc != Code("uuid"))
    && (forall i, j :: 0 <= i < j < |boxes| ==> boxes[i].fourcc != boxes[j].fourcc)
  }

  lemma ChildFound(out: bytes, end: nat, h: BoxHeader, b: Plain, boxes: seq<Plain>, i: nat) returns (child: BoxHeader)
    requires BoxAt(out, end, h, b) && b.payload == EncodeAll(boxes) && AllSized(boxes) && AllDiffer(boxes)
    requires i < |boxes|
    ensures var hs := Scan(out, h.PayloadOffset(), h.End()); hs.Ok? && Only(hs.value, boxes[i].fourcc) == Ok(child)
    ensures BoxAt(out, h.End(), child, boxes[i])
  {
    hide Code, EncodeAll, Scan, Only, BoxAt;
    child := OnlyInside(out, end, h, b, boxes, i);
  }

  /** Numbers tell the types apart. */
  lemma NumsDiffer(boxes: seq<Plain>, nums: seq<nat>)
    requires |boxes| == |nums| && forall i :: 0 <= i < |nums| ==> Num(boxes[i].fourcc) == nums[i] != 0x7575_6964
    requires forall i, j :: 0 <= i < j < |nums| ==> nums[i] != nums[j]
    ensures AllDiffer(boxes)
  {
    hide Num, Code;
    assert Num(Code("uuid")) == 0x7575_6964 by {
      UuidNumber();
    }
    forall i | 0 <= i < |boxes|
      ensures boxes[i].fourcc != Code("uuid")
    {
      assert Num(boxes[i].fourcc) == nums[i];
    }
    forall i, j | 0 <= i < j < |boxes|
      ensures boxes[i].fourcc != boxes[j].fourcc
    {
      assert Num(boxes[i].fourcc) == nums[i] && Num(boxes[j].fourcc) == nums[j];
    }
  }

  lemma UuidNumber()
    ensures Num(Code("uuid")) == 0x7575_6964
  {
    hide Code;
  }

  lemma StblDiffers(entry: bytes)
    ensures AllDiffer(Init.StblBoxes(entry))
  {
    hide Code;
    assert Num(Code("stsd")) == 0x7374_7364 && Num(Code("stts")) == 0x7374_7473;
    assert Num(Code("stsc")) == 0x7374_7363 && Num(Code("stsz")) == 0x7374_737A;
    assert Num(Code("stco")) == 0x7374_636F;
    hide Num;
    NumsDiffer(Init.StblBoxes(entry), [0x7374_7364, 0x7374_7473, 0x7374_7363, 0x7374_737A, 0x7374_636F]);
  }

  lemma MinfDiffers(t: Init.Track)
    ensures AllDiffer(Init.MinfBoxes(t))
  {
    hide Code, Init.Dinf, Init.Stbl;
    assert Num(Code("vmhd")) == 0x766D_6864 && Num(Code("smhd")) == 0x736D_6864;
    assert Num(Code("dinf")) == 0x6469_6E66 && Num(Code("stbl")) == 0x7374_626C;
    MinfKinds(t);
    hide Num;
    NumsDiffer(Init.MinfBoxes(t), [if t.Video? then 0x766D_6864 else 0x736D_6864, 0x6469_6E66, 0x7374_626C]);
  }

  lemma MinfKinds(t: Init.Track)
    ensures var bs := Init.MinfBoxes(t);
            && bs[0].fourcc == (if t.Video? then Code("vmhd") else Code("smhd"))
            && bs[1] == Init.Dinf() && bs[1].fourcc == Code("dinf")
            && bs[2] == Init.Stbl(t.SampleEntry()) && bs[2].fourcc == Code("stbl")
  {
    hide Code, EncodeAll;
  }

  lemma MdiaDiffers(t: Init.Track)
    ensures AllDiffer(Init.MdiaBoxes(t))
  {
    hide Code, Init.Minf;
    assert Num(Code("mdhd")) == 0x6D64_6864 && Num(Code("hdlr")) == 0x6864_6C72;
    assert Num(Code("minf")) == 0x6D69_6E66;
    MdiaKinds(t);
    hide Num;
    NumsDiffer(Init.MdiaBoxes(t), [0x6D64_6864, 0x6864_6C72, 0x6D69_6E66]);
  }

  lemma MdiaKinds(t: Init.Track)
    ensures var bs := Init.MdiaBoxes(t);
            && bs[0].fourcc == Code("mdhd") && bs[0].payload == Init.MdhdPayload(t.Timescale())
            && bs[1].fourcc == Code("hdlr") && bs[1].payload == Init.HdlrPayload(t.Handler(), t.Name())
            && bs[2] == Init.Minf(t) && bs[2].fourcc == Code("minf")
  {
    hide Code, EncodeAll;
  }

  // ---------- stbl, dinf, minf, mdia ----------

  lemma StblReads(out: bytes, end: nat, h: BoxHeader, entry: bytes)
    requires BoxAt(out, end, h, Init.Stbl(entry)) && Init.Stsd(entry).Sized()
    ensures ReadStbl(out, h) == Ok(entry)
  {
    hide Code, EncodeAll, Scan, Only, BoxAt, AllDiffer, Init.Stsd, Init.EmptyTable, Init.EmptyStsz, NoRows,
         NoSampleSizes,
         ReadStsd, AllSized;
    var boxes, b := Init.StblBoxes(entry), Init.Stbl(entry);
    StblDiffers(entry);
    StblSized(entry);
    var stsd := ChildFound(out, end, h, b, boxes, 0);
    var stts := ChildFound(out, end, h, b, boxes, 1);
    var stsc := ChildFound(out, end, h, b, boxes, 2);
    var stsz := ChildFound(out, end, h, b, boxes, 3);
    var stco := ChildFound(out, end, h, b, boxes, 4);
    StblKinds(entry);
    StsdReads(entry);
    EmptyReads(Code("stts"));
    EmptyReads(Code("stsc"));
    EmptyReads(Code("stco"));
    PayloadAt(out, h.End(), stsd, boxes[0]);
    PayloadAt(out, h.End(), stts, boxes[1]);
    PayloadAt(out, h.End(), stsc, boxes[2]);
    PayloadAt(out, h.End(), stsz, boxes[3]);
    PayloadAt(out, h.End(), stco, boxes[4]);
  }

  lemma StblKinds(entry: bytes)
    ensures var bs := Init.StblBoxes(entry);
            && bs[0] == Init.Stsd(entry) && bs[0].fourcc == Code("stsd")
            && bs[1] == Init.EmptyTable(Code("stts")) && bs[1].fourcc == Code("stts")
            && bs[2] == Init.EmptyTable(Code("stsc")) && bs[2].fourcc == Code("stsc")
            && bs[3] == Init.EmptyStsz() && bs[3].fourcc == Code("stsz")
            && bs[4] == Init.EmptyTable(Code("stco")) && bs[4].fourcc == Code("stco")
  {
    hide Code;
  }

  lemma StblSized(entry: bytes)
    requires Init.Stsd(entry).Sized()
    ensures AllSized(Init.StblBoxes(entry))
  {
    hide Code, Init.Stsd, Init.EmptyTable, Init.EmptyStsz;
  }

  lemma PayloadAt(out: bytes, end: nat, h: BoxHeader, b: Plain)
    requires BoxAt(out, end, h, b)
    ensures PayloadOf(out, h) == b.payload
  {}

  lemma DinfReads(out: bytes, end: nat, h: BoxHeader)
    requires BoxAt(out, end, h, Init.Dinf())
    ensures ReadDinf(out, h) == Ok(())
  {
    hide Code, Scan, Only, BoxAt, EncodeAll, Init.Dref, Plain.Encode;
    var boxes := [Init.Dref()];
    OneBox(Init.Dref());
    DrefKind();
    var dref := ChildFound(out, end, h, Init.Dinf(), boxes, 0);
    PayloadAt(out, h.End(), dref, Init.Dref());
    DrefReads();
  }

  lemma OneBox(b: Plain)
    ensures EncodeAll([b]) == b.Encode()
  {
    hide Plain.Encode;
    assert [b][1..] == [] && b.Encode() + [] == b.Encode();
  }

  lemma DrefKind()
    ensures Init.Dref().fourcc == Code("dref") && AllDiffer([Init.Dref()])
    ensures Init.Dinf().payload == Init.Dref().Encode()
  {
    hide Code, Plain.Encode;
    assert Num(Code("dref")) == 0x6472_6566;
    UuidNumber();
  }

  lemma DrefReads()
    ensures var p := Init.Dref().payload;
            && |p| == 20 && Plainly(p, 0) && U32At(p, 4) == 1 && U32At(p, 8) == 12
            && p[12..16] == Code("url ") && U32At(p, 16) == URL_SELF_CONTAINED
  {
    hide Code, Be32, ReadBe;
    var p := Init.Dref().payload;
    assert Init.Url().Encode() == Be32(12) + Code("url ") + Be32(1);
    assert p == Be32(0) + Be32(1) + (Be32(12) + Code("url ") + Be32(1));
    assert p[0..4] == Be32(0) && p[4..8] == Be32(1) && p[8..12] == Be32(12) && p[16..20] == Be32(1);
    Be32ReadBack(0);
    Be32ReadBack(1);
    Be32ReadBack(12);
  }

  lemma HandlerHeader(t: Init.Track)
    ensures MediaHeaderOf(t.Handler()) == Ok(Init.MinfBoxes(t)[0].fourcc)
    ensures Init.MinfBoxes(t)[0] == if t.Video? then Init.Vmhd() else Init.Smhd()
    ensures PlainMedia(Init.MinfBoxes(t)[0].fourcc, Init.MinfBoxes(t)[0].payload)
  {
    VideoMediaReads();
    SoundMediaReads();
    hide Code;
    assert Num(Code("vide")) == 0x7669_6465 && Num(Code("soun")) == 0x736F_756E;
    MinfKinds(t);
  }

  lemma MinfReads(out: bytes, end: nat, h: BoxHeader, t: Init.Track)
    requires BoxAt(out, end, h, Init.Minf(t)) && Init.Stbl(t.SampleEntry()).Sized()
    ensures ReadMinf(out, h, t.Handler()) == Ok(t.SampleEntry())
  {
    hide Code, Scan, Only, BoxAt, EncodeAll, AllDiffer, Init.MinfBoxes, Init.Stbl, Init.Dinf, ReadStbl, ReadDinf,
         MediaHeaderOf, Init.Track.Handler, AllSized, PlainMedia;
    var boxes := Init.MinfBoxes(t);
    MinfDiffers(t);
    MinfKinds(t);
    MinfSized(t);
    HandlerHeader(t);
    var header := ChildFound(out, end, h, Init.Minf(t), boxes, 0);
    var dinf := ChildFound(out, end, h, Init.Minf(t), boxes, 1);
    var stbl := ChildFound(out, end, h, Init.Minf(t), boxes, 2);
    PayloadAt(out, h.End(), header, boxes[0]);
    DinfReads(out, h.End(), dinf);
    StsdSized(t.SampleEntry());
    StblReads(out, h.End(), stbl, t.SampleEntry());
  }

  lemma MinfSized(t: Init.Track)
    requires Init.Stbl(t.SampleEntry()).Sized()
    ensures AllSized(Init.MinfBoxes(t))
  {
    hide Init.Stbl, Init.Dinf, Init.Track.MediaHeader;
  }

  lemma StsdSized(entry: bytes)
    requires Init.Stbl(entry).Sized()
    ensures Init.Stsd(entry).Sized()
  {
    hide Init.Stbl, Init.Stsd;
    Init.EncodeAllSize(Init.StblBoxes(entry));
    Init.FiveSizes(Init.StblBoxes(entry));
    StblPayload(entry);
  }

  lemma StblPayload(entry: bytes)
    ensures Init.Stbl(entry).payload == EncodeAll(Init.StblBoxes(entry))
  {}

  lemma NameEnds(t: Init.Track)
    ensures 0 !in t.Name()
  {
    var v, a := Ascii("VideoHandler"), Ascii("SoundHandler");
    assert forall i :: 0 <= i < 12 ==> v[i] != 0 && a[i] != 0;
  }

  lemma MdiaReads(out: bytes, end: nat, h: BoxHeader, t: Init.Track)
    requires BoxAt(out, end, h, Init.Mdia(t)) && Init.Mdia(t).Sized()
    ensures ReadMdia(out, h) == Ok(Media(t.Timescale(), Ascii("und"), t.Handler(), t.Name(), t.SampleEntry()))
  {
    hide Code, Scan, Only, BoxAt, EncodeAll, AllDiffer, Init.MdiaBoxes, Init.Minf, Init.Stbl, ReadMinf, ReadMdhd,
         ReadHdlr, Init.Track.Handler, AllSized, Init.MdhdPayload, Init.HdlrPayload;
    var boxes := Init.MdiaBoxes(t);
    MdiaDiffers(t);
    MdiaKinds(t);
    MdiaBoxesSized(t);
    var mdhd := ChildFound(out, end, h, Init.Mdia(t), boxes, 0);
    var hdlr := ChildFound(out, end, h, Init.Mdia(t), boxes, 1);
    var minf := ChildFound(out, end, h, Init.Mdia(t), boxes, 2);
    PayloadAt(out, h.End(), mdhd, boxes[0]);
    PayloadAt(out, h.End(), hdlr, boxes[1]);
    MdhdReads(t.Timescale());
    NameEnds(t);
    HdlrReads(t.Handler(), t.Name());
    MinfReads(out, h.End(), minf, t);
  }

  lemma MdiaBoxesSized(t: Init.Track)
    requires Init.Mdia(t).Sized()
    ensures AllSized(Init.MdiaBoxes(t)) && Init.Stbl(t.SampleEntry()).Sized()
  {
    hide Init.Mdia, Init.Minf, Init.Stbl, Init.Mdhd, Init.Hdlr;
    Init.TrakSize(t);
  }

  // ---------- trak ----------

  lemma {:induction false} ScanStep(data: bytes, h: BoxHeader, end: nat)
    requires IsHeader(data, h, end)
    ensures Scan(data, h.start, end) == Prepend(h, Scan(data, h.End(), end))
  {
    hide HeaderAt, Code;
  }

  lemma {:induction false} ScanNothing(data: bytes, end: nat)
    ensures Scan(data, end, end) == Ok([])
  {}

  /** The header of the edit list of a written track, as the scanner sees it: it may reach to the end of the track. */
  lemma EditHeader(out: bytes, q: nat, end: nat, blob: bytes) returns (e: BoxHeader)
    requires EditBox(blob) && q + |blob| <= end <= |out| && out[q..q + |blob|] == blob
    ensures IsHeader(out, e, end) && e.start == q && e.boxType == Code("edts")
    ensures e.End() == if StatesSize(blob) then q + |blob| else end
  {
    hide HeaderAt, Code, ReadBe;
    var b :| IsBox(blob, b) && b.boxType == Code("edts");
    assert blob[0..0 + |blob|] == blob;
    if StatesSize(blob) {
      SizedHeaderMoves(blob, b, |blob|, out, q, end);
      e := Moved(b, q);
    } else {
      OpenEnded(blob, b, out, q, end);
      e := BoxHeader(b.boxType, q, 8, end - q);
    }
  }

  /** The children of a written track: header, edit list if there is one, and the media if that leaves them. */
  lemma TrakScan(out: bytes, h: BoxHeader, t: Init.Track)
    returns (tkhd: BoxHeader, edit: seq<BoxHeader>, mdia: BoxHeader)
    requires PayloadIs(out, h, Init.Trak(t).payload) && Init.Mdia(t).Sized()
    requires |t.Elst()| > 0 ==> EditBox(t.Elst())
    ensures PayloadIs(out, tkhd, Init.TrackTkhd(t).payload) && tkhd.boxType == Code("tkhd")
    ensures |edit| <= 1 && forall i :: 0 <= i < |edit| ==> edit[i].boxType == Code("edts")
    ensures PayloadIs(out, mdia, Init.Mdia(t).payload) && mdia.boxType == Code("mdia")
    ensures Scan(out, h.PayloadOffset(), h.End())
            == Ok([tkhd] + edit + if StatesSize(t.Elst()) then [mdia] else [])
  {
    hide Code, Scan, PayloadIs, EditBox, StatesSize, IsHeader, Init.TrackTkhd, Init.Mdia, Plain.Encode;
    TrakParts(out, h, t);
    TrakBoxesVisible(t);
    var p, q, end := h.PayloadOffset(), h.PayloadOffset() + 104, h.End();
    var r := q + |t.Elst()|;
    PlainHeader(out, p, end, Init.TrackTkhd(t));
    PlainHeader(out, r, end, Init.Mdia(t));
    tkhd, mdia := HeaderOf(Init.TrackTkhd(t), p), HeaderOf(Init.Mdia(t), r);
    ScanStep(out, tkhd, end);
    ScanStep(out, mdia, end);
    ScanNothing(out, end);
    assert [mdia] + [] == [mdia];
    if |t.Elst()| == 0 {
      NothingStatesSize(t.Elst());
      edit := [];
      assert [tkhd] + [mdia] == [tkhd] + edit + [mdia];
    } else {
      var e := EditHeader(out, q, end, t.Elst());
      ScanStep(out, e, end);
      edit := [e];
      assert [tkhd] + ([e] + [mdia]) == [tkhd] + edit + [mdia];
      assert [tkhd] + ([e] + []) == [tkhd] + edit + [];
    }
  }

  lemma TrakBoxesVisible(t: Init.Track)
    requires Init.Mdia(t).Sized()
    ensures InitRoundTrip.Visible(Init.TrackTkhd(t)) && Init.TrackTkhd(t).fourcc == Code("tkhd")
    ensures InitRoundTrip.Visible(Init.Mdia(t)) && Init.Mdia(t).fourcc == Code("mdia")
  {
    TrakCodes();
    hide Code, EncodeAll, Init.TkhdPayload;
  }

  /** What a reader should find of a track. */
  function TrackOf(t: Init.Track): InitTrack {
    InitTrack(t.Id(), t.Handler(), t.Name(), t.Timescale(), Ascii("und"), Volume(t.Audio?), Pixels(t.Width()),
              Pixels(t.Height()), t.SampleEntry())
  }

  /** Among these children, header and media are told apart. */
  lemma TrakOnly(tkhd: BoxHeader, edit: seq<BoxHeader>, mdia: BoxHeader)
    requires tkhd.boxType == Code("tkhd") && mdia.boxType == Code("mdia")
    requires forall i :: 0 <= i < |edit| ==> edit[i].boxType == Code("edts")
    ensures Only([tkhd] + edit + [mdia], Code("tkhd")) == Only([tkhd] + edit + [], Code("tkhd")) == Ok(tkhd)
    ensures Only([tkhd] + edit + [mdia], Code("mdia")) == Ok(mdia)
    ensures Only([tkhd] + edit + [], Code("mdia")) == Err(MissingAtom)
  {
    TrakCodes();
    hide Code;
    var with, without := [tkhd] + edit + [mdia], [tkhd] + edit + [];
    assert with[0] == tkhd && with[|with| - 1] == mdia && without[0] == tkhd;
    assert forall i :: 1 <= i < |without| ==> without[i] == edit[i - 1];
    assert forall i :: 1 <= i < |with| - 1 ==> with[i] == edit[i - 1];
    NoneOfType(without, Code("mdia"));
    hide OfType, Only;
    OnlyAt(with, 0);
    OnlyAt(with, |with| - 1);
    OnlyAt(without, 0);
    MissingIs(without, Code("mdia"));
  }

  lemma {:induction false} MissingIs(hs: seq<BoxHeader>, fourcc: FourCC)
    requires OfType(hs, fourcc) == []
    ensures Only(hs, fourcc) == Err(MissingAtom)
  {}

  lemma TrakReads(out: bytes, h: BoxHeader, t: Init.Track)
    requires PayloadIs(out, h, Init.Trak(t).payload) && Init.Trak(t).Sized()
    requires |t.Elst()| > 0 ==> EditBox(t.Elst())
    ensures ReadTrak(out, h) == if StatesSize(t.Elst()) then Ok(TrackOf(t)) else Err(MissingAtom)
  {
    hide Code, Scan, Only, EditBox, StatesSize, Init.Trak, Init.Mdia, Init.TrackTkhd, ReadMdia, ReadTkhd, PayloadIs,
         PayloadOf, BoxAt, Init.Track.Handler;
    MdiaFits(t);
    var tkhd, edit, mdia := TrakScan(out, h, t);
    TrakOnly(tkhd, edit, mdia);
    PayloadFound(out, tkhd, Init.TrackTkhd(t));
    TkhdOf(t);
    if StatesSize(t.Elst()) {
      MdiaKind(t);
      BoxFound(out, mdia, Init.Mdia(t));
      MdiaReads(out, |out|, mdia, t);
    }
  }

  lemma MdiaKind(t: Init.Track)
    ensures Init.Mdia(t).fourcc == Code("mdia")
  {}

  lemma MdiaFits(t: Init.Track)
    requires Init.Trak(t).Sized()
    ensures Init.Mdia(t).Sized()
  {
    hide Init.Mdia, Init.Minf, Init.Stbl, Init.Trak;
    Init.TrakSize(t);
  }

  lemma TkhdOf(t: Init.Track)
    ensures ReadTkhd(Init.TrackTkhd(t).payload)
            == Ok(TrackHead(t.Id(), Volume(t.Audio?), Pixels(t.Width()), Pixels(t.Height())))
  {
    hide ReadTkhd, Init.TkhdPayload;
    TkhdReads(t.Id(), t.Audio?, t.Width(), t.Height());
  }

  lemma PayloadFound(out: bytes, h: BoxHeader, b: Plain)
    requires PayloadIs(out, h, b.payload)
    ensures PayloadOf(out, h) == b.payload
  {}

  lemma BoxFound(out: bytes, h: BoxHeader, b: Plain)
    requires PayloadIs(out, h, b.payload) && h.boxType == b.fourcc
    ensures BoxAt(out, |out|, h, b)
  {}

  // ---------- The whole segment ----------

  lemma FtypFound(out: bytes, v: VideoTrackMeta, a: AudioTrackMeta) returns (ftyp: BoxHeader)
    requires out == Init.InitSegment(v, a) && Init.Moov(v, a).Sized()
    ensures Scan(out, 0, |out|).Ok? && Only(Scan(out, 0, |out|).value, Code("ftyp")) == Ok(ftyp)
    ensures PayloadOf(out, ftyp) == Init.FtypPayload()
  {
    hide Code, EncodeAll, Scan, Only, PayloadOf, Init.MoovBoxes, Init.Moov, Init.FtypPayload, AllSized;
    TopCodes();
    DefaultsCodes();
    MoovBoxesSized(v, a);
    MoovKinds(v, a);
    assert out[0..|out|] == out;
    ScanBoxes(out, 0, |out|, Init.InitBoxes(v, a));
    var hs := Headers(Init.InitBoxes(v, a), 0);
    assert BoxAt(out, |out|, hs[0], Init.Ftyp());
    OnlyAt(hs, 0);
    ftyp := hs[0];
  }

  lemma {:induction false} MiddleTwo(hs: seq<BoxHeader>, fourcc: FourCC)
    requires |hs| == 4 && hs[0].boxType != fourcc && hs[1].boxType == hs[2].boxType == fourcc != hs[3].boxType
    ensures OfType(hs, fourcc) == [hs[1], hs[2]]
  {
    assert hs == [hs[0], hs[1], hs[2], hs[3]];
    assert hs[1..] == [hs[1], hs[2], hs[3]] && hs[1..][1..] == [hs[2], hs[3]] && hs[1..][1..][1..] == [hs[3]];
    NoneOfType([hs[3]], fourcc);
    assert OfType(hs[1..][1..], fourcc) == [hs[2]];
    assert OfType(hs[1..], fourcc) == [hs[1], hs[2]];
  }

  lemma MoovContents(v: VideoTrackMeta, a: AudioTrackMeta)
    ensures var bs := Init.MoovBoxes(v, a);
            && bs[0].payload == Init.MvhdPayload()
            && bs[1] == Init.Trak(Init.Video(v)) && bs[2] == Init.Trak(Init.Audio(a))
  {
    hide Code, Init.Trak, Init.MvhdPayload, Init.Mvex;
  }

  /** Types of the boxes in the movie box, of which none is a vendor extension. */
  predicate MoovTypes(bs: seq<Plain>) {
    && |bs| == 4 && bs[0].fourcc == Code("mvhd") && bs[1].fourcc == bs[2].fourcc == Code("trak")
    && bs[3].fourcc == Code("mvex") && forall i :: 0 <= i < 4 ==> bs[i].fourcc != Code("uuid")
  }

  lemma MoovTyped(v: VideoTrackMeta, a: AudioTrackMeta)
    ensures MoovTypes(Init.MoovBoxes(v, a)) && Init.Moov(v, a).payload == EncodeAll(Init.MoovBoxes(v, a))
  {
    hide Code, EncodeAll, Init.MoovBoxes, Init.InitBoxes, Init.Moov;
    TopCodes();
    MoovKinds(v, a);
  }

  /** The children of the movie box. */
  lemma MoovHeads(out: bytes, v: VideoTrackMeta, a: AudioTrackMeta, moov: BoxHeader) returns (hs: seq<BoxHeader>)
    requires BoxAt(out, |out|, moov, Init.Moov(v, a)) && Init.Moov(v, a).Sized()
    ensures |hs| == 4 && Scan(out, moov.PayloadOffset(), moov.End()) == Ok(hs)
    ensures forall i :: 0 <= i < 4 ==> BoxAt(out, moov.End(), hs[i], Init.MoovBoxes(v, a)[i])
    ensures hs[0].boxType == Code("mvhd") && hs[1].boxType == hs[2].boxType == Code("trak")
    ensures hs[3].boxType == Code("mvex")
  {
    hide Code, EncodeAll, Scan, BoxAt, Init.Moov, Init.MoovBoxes, Init.InitBoxes, AllSized, Headers, Plain.Size;
    MoovBoxesSized(v, a);
    MoovTyped(v, a);
    hs := Headers(Init.MoovBoxes(v, a), moov.PayloadOffset());
    ScanInside(out, |out|, moov, Init.Moov(v, a), Init.MoovBoxes(v, a));
  }

  lemma {:induction false} MoovSelect(hs: seq<BoxHeader>)
    requires |hs| == 4 && hs[0].boxType == Code("mvhd") && hs[1].boxType == hs[2].boxType == Code("trak")
    requires hs[3].boxType == Code("mvex")
    ensures Only(hs, Code("mvhd")) == Ok(hs[0]) && OfType(hs, Code("trak")) == [hs[1], hs[2]]
  {
    hide Code, Only, OfType;
    TopCodes();
    DefaultsCodes();
    OnlyAt(hs, 0);
    MiddleTwo(hs, Code("trak"));
  }

  /** The movie header and both tracks of the init segment. */
  lemma MoovParts(out: bytes, v: VideoTrackMeta, a: AudioTrackMeta, moov: BoxHeader)
    returns (mvhd: BoxHeader, video: BoxHeader, audio: BoxHeader)
    requires BoxAt(out, |out|, moov, Init.Moov(v, a)) && Init.Moov(v, a).Sized()
    ensures var children := Scan(out, moov.PayloadOffset(), moov.End());
            && children.Ok? && Only(children.value, Code("mvhd")) == Ok(mvhd)
            && OfType(children.value, Code("trak")) == [video, audio]
    ensures PayloadOf(out, mvhd) == Init.MvhdPayload()
    ensures PayloadIs(out, video, Init.Trak(Init.Video(v)).payload)
    ensures PayloadIs(out, audio, Init.Trak(Init.Audio(a)).payload)
  {
    hide Code, Scan, Only, OfType, PayloadOf, BoxAt, Init.Moov, Init.MvhdPayload, Init.Trak, Init.MoovBoxes, PayloadIs;
    var hs := MoovHeads(out, v, a, moov);
    MoovSelect(hs);
    MoovContents(v, a);
    mvhd, video, audio := hs[0], hs[1], hs[2];
    PayloadAt(out, moov.End(), mvhd, Init.MoovBoxes(v, a)[0]);
    AtIs(out, moov.End(), video, Init.MoovBoxes(v, a)[1]);
    AtIs(out, moov.End(), audio, Init.MoovBoxes(v, a)[2]);
  }

  lemma AtIs(out: bytes, end: nat, h: BoxHeader, b: Plain)
    requires BoxAt(out, end, h, b)
    ensures PayloadIs(out, h, b.payload)
  {}

  lemma {:induction false} ReadTwoTraks(out: bytes, b: BoxHeader, c: BoxHeader)
    ensures ReadTraks(out, [b, c])
            == if ReadTrak(out, b).Err? then Err(ReadTrak(out, b).error)
               else if ReadTrak(out, c).Err? then Err(ReadTrak(out, c).error)
               else Ok([ReadTrak(out, b).value, ReadTrak(out, c).value])
  {
    hide ReadTrak;
    assert [b, c][1..] == [c] && [c][1..] == [];
    assert ReadTraks(out, []) == Ok([]);
    var y := ReadTrak(out, c);
    assert ReadTraks(out, [c]) == if y.Err? then Err(y.error) else Ok([y.value] + []);
    if y.Ok? {
      assert [y.value] + [] == [y.value];
      if ReadTrak(out, b).Ok? {
        assert [ReadTrak(out, b).value] + [y.value] == [ReadTrak(out, b).value, y.value];
      }
    }
  }

  /** What a reader should find in an init segment. */
  function MovieOf(v: VideoTrackMeta, a: AudioTrackMeta): InitMovie {
    InitMovie(INIT_BRANDS, 1000, 3,
              [TrackOf(Init.Video(v)), TrackOf(Init.Audio(a))], [VIDEO_DEFAULTS, AUDIO_DEFAULTS])
  }

  /** The two tracks have different ids, and the defaults are theirs. */
  predicate IdsTell(m: InitMovie) {
    && |m.tracks| == |m.defaults| == 2 && m.tracks[0].id != m.tracks[1].id
    && m.defaults[0].trackId == m.tracks[0].id < m.nextTrackId
    && m.defaults[1].trackId == m.tracks[1].id < m.nextTrackId
  }

  lemma IdsDiffer(v: VideoTrackMeta, a: AudioTrackMeta)
    ensures IdsTell(MovieOf(v, a))
  {
    hide Code, Pixels;
  }

  /** Sizes and edit lists as a parsed file gives them. */
  ghost predicate Writable(v: VideoTrackMeta, a: AudioTrackMeta) {
    && Init.Moov(v, a).Sized() && (|v.elst| > 0 ==> EditBox(v.elst)) && (|a.elst| > 0 ==> EditBox(a.elst))
  }

  lemma TraksSized(v: VideoTrackMeta, a: AudioTrackMeta)
    requires Init.Moov(v, a).Sized()
    ensures Init.Trak(Init.Video(v)).Sized() && Init.Trak(Init.Audio(a)).Sized()
  {
    hide Init.Moov, Init.Trak;
    Init.MoovSize(v, a);
  }

  /**
   A reader of the written init segment finds one track for each kind, with its own id, its timescale and
   size, and its sample entry byte for byte; the ids differ, are below the next free one, and are those
   that the sample defaults are for. It fails exactly if an edit list does not state its size.
   */
  lemma InitReads(v: VideoTrackMeta, a: AudioTrackMeta)
    requires Writable(v, a)
    ensures ReadInit(Init.InitSegment(v, a))
            == if StatesSize(v.elst) && StatesSize(a.elst) then Ok(MovieOf(v, a)) else Err(MissingAtom)
    ensures IdsTell(MovieOf(v, a))
  {
    IdsDiffer(v, a);
    hide Code, EncodeAll, Scan, Only, OfType, PayloadOf, Init.MoovBoxes, Init.Moov, Init.InitSegment, Init.Trak,
         ReadTrak, ReadTraks, BrandsIn, ReadMvhd, Init.FtypPayload, Init.MvhdPayload, ReadDefaults, PayloadIs, BoxAt,
         EditBox, StatesSize, TrackOf, IdsTell;
    var out := Init.InitSegment(v, a);
    var ftyp := FtypFound(out, v, a);
    var moov := MoovFound(out, v, a);
    var mvhd, video, audio := MoovParts(out, v, a, moov);
    FtypReads();
    MvhdReads();
    TraksSized(v, a);
    TrakReads(out, video, Init.Video(v));
    TrakReads(out, audio, Init.Audio(a));
    ReadTwoTraks(out, video, audio);
    DefaultsReadBack(v, a);
  }
}
