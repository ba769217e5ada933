/**
 What the parser of the movie box takes, in terms of the boxes that a scan finds: of every type the last
 box counts, every track is parsed, and the whole is accepted exactly under the conditions stated here.
 */
module MoovLaws {
  import opened Boxes
  import opened BoxFolds
  import opened BoxReader
  import opened Bytes
  import opened Moov
  import opened Sources
  import opened Wrappers

  // ---------- Telling box types apart ----------

  lemma StblNumbers()
    ensures Num(Code("stsd")) == 0x7374_7364 && Num(Code("stts")) == 0x7374_7473
    ensures Num(Code("stsc")) == 0x7374_7363 && Num(Code("stsz")) == 0x7374_737A
    ensures Num(Code("stco")) == 0x7374_636F && Num(Code("co64")) == 0x636F_3634
    ensures Num(Code("stss")) == 0x7374_7373 && Num(Code("ctts")) == 0x6374_7473
    ensures Num(Code("sbgp")) == 0x7362_6770 && Num(Code("sgpd")) == 0x7367_7064
    ensures Num(Code("senc")) == 0x7365_6E63
  {
    hide Code;
  }

  lemma TrakNumbers()
    ensures Num(Code("mdhd")) == 0x6D64_6864 && Num(Code("hdlr")) == 0x6864_6C72
    ensures Num(Code("minf")) == 0x6D69_6E66 && Num(Code("tkhd")) == 0x746B_6864
    ensures Num(Code("mdia")) == 0x6D64_6961 && Num(Code("edts")) == 0x6564_7473
  {
    hide Code;
  }

  lemma TopNumbers()
    ensures Num(Code("ftyp")) == 0x6674_7970 && Num(Code("moov")) == 0x6D6F_6F76
    ensures Num(Code("moof")) == 0x6D6F_6F66 && Num(Code("sinf")) == 0x7369_6E66
    ensures Num(Code("tenc")) == 0x7465_6E63 && Num(Code("senc")) == 0x7365_6E63
    ensures Num(Code("sbgp")) == 0x7362_6770 && Num(Code("sgpd")) == 0x7367_7064
  {
    hide Code;
  }

  // ---------- Boxes of a type ----------

  /** The last box of a given type. */
  function Last(hs: seq<BoxHeader>, fourcc: FourCC): (r: Option<BoxHeader>)
    ensures r.Some? ==> exists i :: 0 <= i < |hs| && hs[i] == r.value && r.value.boxType == fourcc
                                    && forall j :: i < j < |hs| ==> hs[j].boxType != fourcc
    ensures r.None? ==> forall i :: 0 <= i < |hs| ==> hs[i].boxType != fourcc
  {
    if |hs| == 0 then None
    else if hs[|hs| - 1].boxType == fourcc then Some(hs[|hs| - 1])
    else Last(hs[..|hs| - 1], fourcc)
  }

  /** All boxes of a given type, in order. */
  function AllOf(hs: seq<BoxHeader>, fourcc: FourCC): (r: seq<BoxHeader>)
    ensures forall i :: 0 <= i < |r| ==> r[i] in hs && r[i].boxType == fourcc
    ensures Last(hs, fourcc) == if |r| == 0 then None else Some(r[|r| - 1])
  {
    if |hs| == 0 then []
    else AllOf(hs[..|hs| - 1], fourcc) + if hs[|hs| - 1].boxType == fourcc then [hs[|hs| - 1]] else []
  }

  lemma {:induction false} NoBoxesOf(fourcc: FourCC)
    ensures Last([], fourcc) == None && AllOf([], fourcc) == []
  {}

  lemma {:induction false} LastSnoc(hs: seq<BoxHeader>, fourcc: FourCC)
    requires |hs| > 0
    ensures Last(hs, fourcc)
            == if hs[|hs| - 1].boxType == fourcc then Some(hs[|hs| - 1]) else Last(hs[..|hs| - 1], fourcc)
  {}

  function LastPayload(hs: seq<BoxHeader>, fourcc: FourCC): Option<ByteRange> {
    var h := Last(hs, fourcc);
    if h.None? then None else Some(PayloadRange(h.value))
  }

  lemma LastPayloadSnoc(hs: seq<BoxHeader>, fourcc: FourCC)
    requires |hs| > 0
    ensures LastPayload(hs, fourcc) == if hs[|hs| - 1].boxType == fourcc then Some(PayloadRange(hs[|hs| - 1]))
                                       else LastPayload(hs[..|hs| - 1], fourcc)
  {
    hide PayloadRange;
  }

  // ---------- stbl ----------

  /** Encryption is refused, and sample groups of its kind. */
  predicate StblChildOk(data: bytes, h: BoxHeader) {
    && h.boxType != Code("senc")
    && (h.boxType == Code("sbgp") || h.boxType == Code("sgpd") ==> GroupingType(data, h).Ok?)
  }

  predicate StblChildrenOk(data: bytes, hs: seq<BoxHeader>) {
    forall i :: 0 <= i < |hs| ==> StblChildOk(data, hs[i])
  }

  /** The last box of each kind. */
  function StblSlotsOf(hs: seq<BoxHeader>): StblSlots {
    StblSlots(Last(hs, Code("stsd")), LastPayload(hs, Code("stts")), LastPayload(hs, Code("stsc")),
              LastPayload(hs, Code("stsz")), LastPayload(hs, Code("stco")), LastPayload(hs, Code("co64")),
              LastPayload(hs, Code("stss")), LastPayload(hs, Code("ctts")))
  }

  lemma StblStep(data: bytes, hs: seq<BoxHeader>)
    requires |hs| > 0
    ensures var h, visited := hs[|hs| - 1], StblVisit(data, hs[|hs| - 1], StblSlotsOf(hs[..|hs| - 1]));
            if StblChildOk(data, h) then visited == Ok(StblSlotsOf(hs)) else visited.Err?
  {
    hide Code, Num, Last, LastPayload, PayloadRange, GroupingType;
    StblNumbers();
    LastSnoc(hs, Code("stsd"));
    LastPayloadSnoc(hs, Code("stts"));
    LastPayloadSnoc(hs, Code("stsc"));
    LastPayloadSnoc(hs, Code("stsz"));
    LastPayloadSnoc(hs, Code("stco"));
    LastPayloadSnoc(hs, Code("co64"));
    LastPayloadSnoc(hs, Code("stss"));
    LastPayloadSnoc(hs, Code("ctts"));
  }

  lemma {:induction false} StblVisited(data: bytes, hs: seq<BoxHeader>)
    ensures var slots := FoldOver(hs, Ok(NO_STBL), StblVisitor(data));
            if StblChildrenOk(data, hs) then slots == Ok(StblSlotsOf(hs)) else slots.Err?
    decreases |hs|
  {
    hide Code, StblVisit, StblChildOk, FoldOver, StblSlotsOf;
    if |hs| == 0 {
      NothingInStbl(data);
    } else {
      var front := hs[..|hs| - 1];
      StblVisited(data, front);
      FoldOverSnoc(hs, Ok(NO_STBL), StblVisitor(data));
      StblStep(data, hs);
      assert StblChildrenOk(data, hs) <==> StblChildrenOk(data, front) && StblChildOk(data, hs[|hs| - 1]);
    }
  }

  lemma NothingInStbl(data: bytes)
    ensures FoldOver([], Ok(NO_STBL), StblVisitor(data)) == Ok(StblSlotsOf([]))
  {
    hide Code;
  }

  /**
   Sample table `d` is in the box: its boxes scan, none of them says that the samples are encrypted, and
   what counts is the last box of each type. There are chunk offsets of one width only.
   */
  ghost predicate StblIs(data: bytes, stbl: BoxHeader, handler: FourCC, d: StblData) {
    var scan := Scan(data, stbl.PayloadOffset(), stbl.End());
    && scan.Ok? && StblChildrenOk(data, scan.value)
    && var hs := scan.value;
       var stco, co64 := LastPayload(hs, Code("stco")), LastPayload(hs, Code("co64"));
       && Last(hs, Code("stsd")).Some? && StsdEntry(data, Last(hs, Code("stsd")).value, handler) == Ok(d.entry)
       && LastPayload(hs, Code("stts")) == Some(d.locs.stts)
       && LastPayload(hs, Code("stsc")) == Some(d.locs.stsc)
       && LastPayload(hs, Code("stsz")) == Some(d.locs.stsz)
       && LastPayload(hs, Code("stss")) == d.locs.stss
       && LastPayload(hs, Code("ctts")) == d.locs.ctts
       && match d.locs.chunkOffsets
          case Stco(range) => stco == Some(range) && co64.None?
          case Co64(range) => co64 == Some(range) && stco.None?
  }

  lemma StblMeaning(data: bytes, stbl: BoxHeader, handler: FourCC, d: StblData)
    ensures Stbl(data, stbl, handler) == Ok(d) <==> StblIs(data, stbl, handler, d)
  {
    hide Code, Fold, FoldOver, Scan, StblChildrenOk, StsdEntry, LastPayload, Last, StblVisitor;
    FoldMeans(data, stbl.PayloadOffset(), stbl.End(), NO_STBL, StblVisitor(data));
    var scan := Scan(data, stbl.PayloadOffset(), stbl.End());
    if scan.Ok? {
      StblVisited(data, scan.value);
    }
  }

  // ---------- mdia ----------

  predicate MdiaChildOk(data: bytes, h: BoxHeader) {
    && (h.boxType == Code("mdhd") ==> MdhdTimescale(data, h).Ok?)
    && (h.boxType == Code("hdlr") ==> HdlrType(data, h).Ok?)
  }

  predicate MdiaChildrenOk(data: bytes, hs: seq<BoxHeader>) {
    forall i :: 0 <= i < |hs| ==> MdiaChildOk(data, hs[i])
  }

  /** A value that was read, if there was one. */
  function Found<T>(r: Result<T>): Option<T> {
    if r.Ok? then Some(r.value) else None
  }

  function LastTimescale(data: bytes, hs: seq<BoxHeader>): Option<u32> {
    var h := Last(hs, Code("mdhd"));
    if h.None? then None else Found(MdhdTimescale(data, h.value))
  }

  function LastHandler(data: bytes, hs: seq<BoxHeader>): Option<FourCC> {
    var h := Last(hs, Code("hdlr"));
    if h.None? then None else Found(HdlrType(data, h.value))
  }

  function MdiaSlotsOf(data: bytes, hs: seq<BoxHeader>): MdiaSlots {
    MdiaSlots(LastTimescale(data, hs), LastHandler(data, hs), Last(hs, Code("minf")))
  }

  lemma MdiaStep(data: bytes, hs: seq<BoxHeader>)
    requires |hs| > 0
    ensures var h, visited := hs[|hs| - 1], MdiaVisit(data, hs[|hs| - 1], MdiaSlotsOf(data, hs[..|hs| - 1]));
            if MdiaChildOk(data, h) then visited == Ok(MdiaSlotsOf(data, hs)) else visited.Err?
  {
    hide Code, Num, Last, MdhdTimescale, HdlrType;
    TrakNumbers();
    LastSnoc(hs, Code("mdhd"));
    LastSnoc(hs, Code("hdlr"));
    LastSnoc(hs, Code("minf"));
  }

  lemma {:induction false} MdiaVisited(data: bytes, hs: seq<BoxHeader>)
    ensures var slots := FoldOver(hs, Ok(NO_MDIA), MdiaVisitor(data));
            if MdiaChildrenOk(data, hs) then slots == Ok(MdiaSlotsOf(data, hs)) else slots.Err?
    decreases |hs|
  {
    hide Code, MdiaVisit, MdiaChildOk, FoldOver, MdiaSlotsOf;
    if |hs| == 0 {
      NothingInMdia(data);
    } else {
      var front := hs[..|hs| - 1];
      MdiaVisited(data, front);
      FoldOverSnoc(hs, Ok(NO_MDIA), MdiaVisitor(data));
      MdiaStep(data, hs);
      assert MdiaChildrenOk(data, hs) <==> MdiaChildrenOk(data, front) && MdiaChildOk(data, hs[|hs| - 1]);
    }
  }

  lemma NothingInMdia(data: bytes)
    ensures FoldOver([], Ok(NO_MDIA), MdiaVisitor(data)) == Ok(MdiaSlotsOf(data, []))
  {
    hide Code;
  }

  /** Media `d` is in the box: every header box in it is acceptable, and the last of each type counts. */
  ghost predicate MdiaIs(data: bytes, mdia: BoxHeader, d: MdiaData) {
    var scan := Scan(data, mdia.PayloadOffset(), mdia.End());
    && scan.Ok? && MdiaChildrenOk(data, scan.value)
    && LastTimescale(data, scan.value) == Some(d.timescale) && LastHandler(data, scan.value) == Some(d.handler)
    && var minf := Last(scan.value, Code("minf"));
       && minf.Some?
       && var stbl := StblIn(data, minf.value.PayloadOffset(), minf.value.End());
          stbl.Ok? && StblIs(data, stbl.value, d.handler, d.stbl)
  }

  lemma MdiaMeaning(data: bytes, mdia: BoxHeader, d: MdiaData)
    ensures Mdia(data, mdia) == Ok(d) <==> MdiaIs(data, mdia, d)
  {
    hide Code, Fold, FoldOver, Scan, MdiaChildrenOk, LastTimescale, LastHandler, Last, MdiaVisitor, Stbl, StblIs,
         StblIn;
    FoldMeans(data, mdia.PayloadOffset(), mdia.End(), NO_MDIA, MdiaVisitor(data));
    var scan := Scan(data, mdia.PayloadOffset(), mdia.End());
    if scan.Ok? {
      MdiaVisited(data, scan.value);
      var minf := Last(scan.value, Code("minf"));
      if minf.Some? {
        var stbl := StblIn(data, minf.value.PayloadOffset(), minf.value.End());
        if stbl.Ok? {
          StblMeaning(data, stbl.value, d.handler, d.stbl);
        }
      }
    }
  }

  // ---------- trak ----------

  predicate TrakChildrenOk(data: bytes, hs: seq<BoxHeader>) {
    forall i :: 0 <= i < |hs| && hs[i].boxType == Code("tkhd") ==> Tkhd(data, hs[i]).Ok?
  }

  function LastTkhd(data: bytes, hs: seq<BoxHeader>): Option<TkhdInfo> {
    var h := Last(hs, Code("tkhd"));
    if h.None? then None else Found(Tkhd(data, h.value))
  }

  /** The whole box. */
  function LastEdit(hs: seq<BoxHeader>): Option<ByteRange> {
    var h := Last(hs, Code("edts"));
    if h.None? then None else Some(ByteRange(h.value.start, h.value.declaredSize))
  }

  function TrakSlotsOf(data: bytes, hs: seq<BoxHeader>): TrakSlots {
    TrakSlots(LastTkhd(data, hs), Last(hs, Code("mdia")), LastEdit(hs))
  }

  lemma TrakStep(data: bytes, hs: seq<BoxHeader>)
    requires |hs| > 0
    ensures var h, visited := hs[|hs| - 1], TrakVisit(data, hs[|hs| - 1], TrakSlotsOf(data, hs[..|hs| - 1]));
            if h.boxType == Code("tkhd") && Tkhd(data, h).Err? then visited.Err?
            else visited == Ok(TrakSlotsOf(data, hs))
  {
    hide Code, Num, Last, Tkhd;
    TrakNumbers();
    LastSnoc(hs, Code("tkhd"));
    LastSnoc(hs, Code("mdia"));
    LastSnoc(hs, Code("edts"));
  }

  lemma {:induction false} TrakVisited(data: bytes, hs: seq<BoxHeader>)
    ensures var slots := FoldOver(hs, Ok(NO_TRAK), TrakVisitor(data));
            if TrakChildrenOk(data, hs) then slots == Ok(TrakSlotsOf(data, hs)) else slots.Err?
    decreases |hs|
  {
    hide Code, TrakVisit, Tkhd, FoldOver, TrakSlotsOf;
    if |hs| == 0 {
      NothingInTrak(data);
    } else {
      var front, h := hs[..|hs| - 1], hs[|hs| - 1];
      TrakVisited(data, front);
      FoldOverSnoc(hs, Ok(NO_TRAK), TrakVisitor(data));
      TrakStep(data, hs);
      assert TrakChildrenOk(data, hs)
        <==> TrakChildrenOk(data, front) && (h.boxType == Code("tkhd") ==> Tkhd(data, h).Ok?);
    }
  }

  lemma NothingInTrak(data: bytes)
    ensures FoldOver([], Ok(NO_TRAK), TrakVisitor(data)) == Ok(TrakSlotsOf(data, []))
  {
    hide Code;
  }

  /** Track `u` is in the box. Only a video track has a size, and its edit list is the whole `edts` box. */
  ghost predicate TrakIs(data: bytes, trak: BoxHeader, u: UnclassifiedTrack) {
    var scan := Scan(data, trak.PayloadOffset(), trak.End());
    && scan.Ok? && TrakChildrenOk(data, scan.value)
    && var tkhd, mdia := LastTkhd(data, scan.value), Last(scan.value, Code("mdia"));
       && tkhd.Some? && mdia.Some?
       && u.track.elst == LastEdit(scan.value)
       && (if u.handler == HANDLER_VIDEO then TkhdInfo(u.track.width, u.track.height) == tkhd.value
           else u.track.width == u.track.height == 0)
       && MdiaIs(data, mdia.value, MediaOf(u))
  }

  /** The part of a track that its media box gives. */
  function MediaOf(u: UnclassifiedTrack): MdiaData {
    var t := u.track;
    MdiaData(u.handler, t.timescale,
             StblData(SampleEntryInfo(t.fourcc, t.sampleEntry, t.sampleRate, t.channelCount), t.sampleTable))
  }

  lemma TrakMeaning(data: bytes, trak: BoxHeader, u: UnclassifiedTrack)
    ensures Trak(data, trak) == Ok(u) <==> TrakIs(data, trak, u)
  {
    hide Code, Fold, FoldOver, Scan, TrakChildrenOk, LastTkhd, LastEdit, Last, TrakVisitor, Mdia, MdiaIs;
    FoldMeans(data, trak.PayloadOffset(), trak.End(), NO_TRAK, TrakVisitor(data));
    var scan := Scan(data, trak.PayloadOffset(), trak.End());
    if scan.Ok? {
      TrakVisited(data, scan.value);
      var mdia := Last(scan.value, Code("mdia"));
      if mdia.Some? {
        MdiaMeaning(data, mdia.value, MediaOf(u));
      }
    }
  }

  // ---------- moov ----------

  /** One track per `trak` box, in order. */
  ghost predicate TracksAre(data: bytes, traks: seq<BoxHeader>, ts: seq<UnclassifiedTrack>) {
    |ts| == |traks| && forall i :: 0 <= i < |ts| ==> TrakIs(data, traks[i], ts[i])
  }

  lemma {:induction false} TracksVisited(data: bytes, hs: seq<BoxHeader>, ts: seq<UnclassifiedTrack>)
    ensures FoldOver(hs, Ok([]), TracksVisitor(data)) == Ok(ts) <==> TracksAre(data, AllOf(hs, Code("trak")), ts)
    decreases |hs|
  {
    hide Code, Trak, TrakIs, FoldOver, AllOf;
    var none: seq<UnclassifiedTrack> := [];
    NoTracks(data);
    if |hs| == 0 {
      NoBoxesOf(Code("trak"));
      assert hs == [];
    } else {
      var h, front := hs[|hs| - 1], hs[..|hs| - 1];
      FoldOverSnoc(hs, Ok(none), TracksVisitor(data));
      AllOfSnoc(hs, Code("trak"));
      if h.boxType != Code("trak") {
        TracksVisited(data, front, ts);
      } else {
        TracksGrow(data, hs, ts);
      }
    }
  }

  lemma NoTracks(data: bytes)
    ensures var none: seq<UnclassifiedTrack> := []; FoldOver([], Ok(none), TracksVisitor(data)) == Ok(none)
  {}

  lemma {:induction false} AllOfSnoc(hs: seq<BoxHeader>, fourcc: FourCC)
    requires |hs| > 0
    ensures AllOf(hs, fourcc)
            == AllOf(hs[..|hs| - 1], fourcc) + if hs[|hs| - 1].boxType == fourcc then [hs[|hs| - 1]] else []
  {}

  /** A last `trak` gives a last track. */
  lemma {:induction false} TracksGrow(data: bytes, hs: seq<BoxHeader>, ts: seq<UnclassifiedTrack>)
    requires |hs| > 0 && hs[|hs| - 1].boxType == Code("trak")
    ensures FoldOver(hs, Ok([]), TracksVisitor(data)) == Ok(ts) <==> TracksAre(data, AllOf(hs, Code("trak")), ts)
    decreases |hs|, 0
  {
    hide Code, Trak, TrakIs, FoldOver, AllOf;
    var none: seq<UnclassifiedTrack> := [];
    var h, front := hs[|hs| - 1], hs[..|hs| - 1];
    var before := FoldOver(front, Ok(none), TracksVisitor(data));
    FoldOverSnoc(hs, Ok(none), TracksVisitor(data));
    AllOfSnoc(hs, Code("trak"));
    if before.Ok? && Trak(data, h).Ok? {
      TracksVisited(data, front, before.value);
      TrakMeaning(data, h, Trak(data, h).value);
    }
    if |ts| > 0 {
      TracksVisited(data, front, ts[..|ts| - 1]);
      TrakMeaning(data, h, ts[|ts| - 1]);
      assert ts == ts[..|ts| - 1] + [ts[|ts| - 1]];
    }
  }

  // ---------- The whole file ----------

  /** Brands must be acceptable; fragments and encryption are refused. */
  ghost predicate TopChildOk(data: bytes, h: BoxHeader) {
    && (h.boxType == Code("ftyp") ==> Ftyp(data, h).Ok?)
    && h.boxType != Code("moof") && !EncryptionMarker(h.boxType)
  }

  /** Every box is acceptable, and there is at most one `moov`. */
  ghost predicate TopChildrenOk(data: bytes, hs: seq<BoxHeader>) {
    && (forall i :: 0 <= i < |hs| ==> TopChildOk(data, hs[i]))
    && |AllOf(hs, Code("moov"))| <= 1
  }

  function TopSlotsOf(hs: seq<BoxHeader>): TopSlots {
    TopSlots(Last(hs, Code("ftyp")).Some?, Last(hs, Code("moov")))
  }

  lemma TopStep(data: bytes, hs: seq<BoxHeader>)
    requires |hs| > 0
    ensures var h, front := hs[|hs| - 1], hs[..|hs| - 1];
            var visited := TopVisit(data, h, TopSlotsOf(front));
            if TopChildOk(data, h) && (h.boxType == Code("moov") ==> Last(front, h.boxType).None?)
            then visited == Ok(TopSlotsOf(hs)) else visited.Err?
  {
    hide Code, Num, Last, Ftyp;
    TopNumbers();
    LastSnoc(hs, Code("ftyp"));
    LastSnoc(hs, Code("moov"));
  }

  lemma {:induction false} TopVisited(data: bytes, hs: seq<BoxHeader>)
    ensures var slots := FoldOver(hs, Ok(NO_TOP), TopVisitor(data));
            if TopChildrenOk(data, hs) then slots == Ok(TopSlotsOf(hs)) else slots.Err?
    decreases |hs|
  {
    hide Code, TopVisit, TopChildOk, FoldOver, TopSlotsOf, AllOf, Last;
    if |hs| == 0 {
      NothingInTop(data);
    } else {
      var front, h := hs[..|hs| - 1], hs[|hs| - 1];
      TopVisited(data, front);
      FoldOverSnoc(hs, Ok(NO_TOP), TopVisitor(data));
      TopStep(data, hs);
      AllOfSnoc(hs, Code("moov"));
      assert TopChildrenOk(data, hs)
        <==> TopChildrenOk(data, front) && TopChildOk(data, h)
             && (h.boxType == Code("moov") ==> Last(front, h.boxType).None?);
    }
  }

  lemma NothingInTop(data: bytes)
    ensures FoldOver([], Ok(NO_TOP), TopVisitor(data)) == Ok(TopSlotsOf([]))
    ensures TopChildrenOk(data, [])
  {
    hide Code;
  }

  /** One video and one audio track, in either order. */
  predicate Pairs(ts: seq<UnclassifiedTrack>, m: MoovParse) {
    var video, audio := UnclassifiedTrack(HANDLER_VIDEO, m.video), UnclassifiedTrack(HANDLER_AUDIO, m.audio);
    ts == [video, audio] || ts == [audio, video]
  }

  lemma ClassifiedMeaning(ts: seq<UnclassifiedTrack>, m: MoovParse)
    ensures Classified(ts) == Ok(m) <==> Pairs(ts, m)
  {
    HandlersDiffer();
    hide Code;
    if |ts| == 2 {
      assert ts[..1][..0] == [];
      forall handler: FourCC
        ensures OfHandler(ts, handler) == (if ts[0].handler == handler then [ts[0].track] else [])
                                          + if ts[1].handler == handler then [ts[1].track] else []
      {
        assert OfHandler([], handler) == [];
        assert OfHandler(ts[..1], handler) == if ts[0].handler == handler then [ts[0].track] else [];
      }
      assert ts == [ts[0], ts[1]];
    }
  }

  /** The file holds this movie, and nothing that is refused. */
  ghost predicate MovieIs(data: bytes, sourceLen: nat, m: MoovParse) {
    var scan := Scan(data, 0, sourceLen);
    && scan.Ok? && TopChildrenOk(data, scan.value)
    && var ftyp, moov := Last(scan.value, Code("ftyp")), Last(scan.value, Code("moov"));
       && ftyp.Some? && moov.Some?
       && var inside := Scan(data, moov.value.PayloadOffset(), moov.value.End());
          && inside.Ok?
          && exists ts :: Pairs(ts, m) && TracksAre(data, AllOf(inside.value, Code("trak")), ts)
  }

  /** The tracks of a movie box, each of them parsed. */
  lemma {:induction false} TracksMeaning(data: bytes, moov: BoxHeader, ts: seq<UnclassifiedTrack>)
    ensures var inside := Scan(data, moov.PayloadOffset(), moov.End());
            Fold(data, moov.PayloadOffset(), moov.End(), [], TracksVisitor(data)) == Ok(ts)
            <==> inside.Ok? && TracksAre(data, AllOf(inside.value, Code("trak")), ts)
  {
    hide Code, Fold, FoldOver, Scan, AllOf, TracksAre, TracksVisitor;
    var none: seq<UnclassifiedTrack> := [];
    FoldMeans(data, moov.PayloadOffset(), moov.End(), none, TracksVisitor(data));
    var inside := Scan(data, moov.PayloadOffset(), moov.End());
    if inside.Ok? {
      TracksVisited(data, inside.value, ts);
    }
  }

  /**
   A file parses to `m` exactly if its boxes scan and are acceptable, it has an acceptable `ftyp` and one
   `moov`, and the boxes inside that hold one video and one audio track and no other.
   */
  lemma ParsedMeaning(data: bytes, sourceLen: nat, m: MoovParse)
    ensures Parsed(data, sourceLen) == Ok(m) <==> MovieIs(data, sourceLen, m)
  {
    hide Code, Fold, FoldOver, Scan, AllOf, Last, TracksAre, TracksVisitor, TopVisitor, TopChildrenOk, Classified,
         Pairs;
    FoldMeans(data, 0, sourceLen, NO_TOP, TopVisitor(data));
    var scan := Scan(data, 0, sourceLen);
    if scan.Ok? {
      TopVisited(data, scan.value);
      var moov := Last(scan.value, Code("moov"));
      if moov.Some? {
        InMovie(data, moov.value, m);
      }
    }
  }

  lemma {:induction false} InMovie(data: bytes, moov: BoxHeader, m: MoovParse)
    ensures var tracks := Fold(data, moov.PayloadOffset(), moov.End(), [], TracksVisitor(data));
            var inside := Scan(data, moov.PayloadOffset(), moov.End());
            tracks.Ok? && Classified(tracks.value) == Ok(m)
            <==> inside.Ok? && exists ts :: Pairs(ts, m) && TracksAre(data, AllOf(inside.value, Code("trak")), ts)
  {
    hide Code, Fold, Scan, AllOf, TracksAre, TracksVisitor, Classified, Pairs;
    var tracks := Fold(data, moov.PayloadOffset(), moov.End(), [], TracksVisitor(data));
    var inside := Scan(data, moov.PayloadOffset(), moov.End());
    if tracks.Ok? {
      TracksMeaning(data, moov, tracks.value);
      ClassifiedMeaning(tracks.value, m);
    }
    if inside.Ok? && exists ts :: Pairs(ts, m) && TracksAre(data, AllOf(inside.value, Code("trak")), ts) {
      var ts :| Pairs(ts, m) && TracksAre(data, AllOf(inside.value, Code("trak")), ts);
      TracksMeaning(data, moov, ts);
      ClassifiedMeaning(ts, m);
    }
  }

  // ---------- How much of the file the blobs of both tracks take ----------

  /** Boxes side by side, in order, inside `[pos, end)`. */
  predicate Ordered(hs: seq<BoxHeader>, pos: nat, end: nat) {
    && (forall i :: 0 <= i < |hs| ==>
                      && pos <= hs[i].start <= hs[i].End() <= end
                      && hs[i].headerSize <= hs[i].declaredSize)
    && (forall i, j :: 0 <= i < j < |hs| ==> hs[i].End() <= hs[j].start)
  }

  lemma {:induction false} ScanOrdered(data: bytes, pos: nat, end: nat)
    requires Scan(data, pos, end).Ok?
    ensures Ordered(Scan(data, pos, end).value, pos, end)
    decreases end - pos
  {
    hide HeaderAt, Code;
    var first := First(data, pos, end).value;
    if first.Some? {
      ScanOrdered(data, first.value.End(), end);
    }
  }

  /** The last box of a type is no larger than its container. */
  lemma {:induction false} LastFits(hs: seq<BoxHeader>, pos: nat, end: nat, fourcc: FourCC)
    requires Ordered(hs, pos, end) && Last(hs, fourcc).Some?
    ensures var h := Last(hs, fourcc).value;
            pos <= h.start && h.headerSize <= h.declaredSize && h.declaredSize <= end - pos
  {
    var i :| 0 <= i < |hs| && hs[i] == Last(hs, fourcc).value;
  }

  /** Two boxes of different types do not overlap. */
  lemma {:induction false} LastTwoFit(hs: seq<BoxHeader>, pos: nat, end: nat, fourcc: FourCC, other: FourCC)
    requires Ordered(hs, pos, end) && fourcc != other && Last(hs, fourcc).Some? && Last(hs, other).Some?
    ensures Last(hs, fourcc).value.declaredSize + Last(hs, other).value.declaredSize <= end - pos
  {
    var i :| 0 <= i < |hs| && hs[i] == Last(hs, fourcc).value;
    var j :| 0 <= j < |hs| && hs[j] == Last(hs, other).value;
    assert i != j;
  }

  function SizeOf(hs: seq<BoxHeader>): nat {
    if |hs| == 0 then 0 else SizeOf(hs[..|hs| - 1]) + hs[|hs| - 1].declaredSize
  }

  lemma {:induction false} SizeOfSnoc(hs: seq<BoxHeader>, h: BoxHeader)
    ensures SizeOf(hs + [h]) == SizeOf(hs) + h.declaredSize
  {
    assert (hs + [h])[..|hs|] == hs;
  }

  /** All boxes but the last lie in front of it. */
  lemma OrderedFront(hs: seq<BoxHeader>, pos: nat, end: nat)
    requires Ordered(hs, pos, end) && |hs| > 0
    ensures var h := hs[|hs| - 1]; Ordered(hs[..|hs| - 1], pos, h.start) && pos <= h.start && h.End() <= end
  {}

  /** Boxes of one type take no more than their container. */
  lemma {:induction false} AllOfFit(hs: seq<BoxHeader>, pos: nat, end: nat, fourcc: FourCC)
    requires Ordered(hs, pos, end) && pos <= end
    ensures SizeOf(AllOf(hs, fourcc)) <= end - pos
    decreases |hs|
  {
    hide Ordered, AllOf, SizeOf;
    if |hs| == 0 {
      NoBoxesOf(fourcc);
      NoSize();
      assert hs == [];
    } else {
      var h := hs[|hs| - 1];
      OrderedFront(hs, pos, end);
      AllOfFit(hs[..|hs| - 1], pos, h.start, fourcc);
      AllOfSnoc(hs, fourcc);
      SizeOfSnoc(AllOf(hs[..|hs| - 1], fourcc), h);
      assert AllOf(hs[..|hs| - 1], fourcc) + [] == AllOf(hs[..|hs| - 1], fourcc);
    }
  }

  lemma NoSize()
    ensures SizeOf([]) == 0
  {}

  lemma {:induction false} StblInFits(data: bytes, pos: nat, end: nat)
    requires StblIn(data, pos, end).Ok? && pos <= end
    ensures StblIn(data, pos, end).value.declaredSize <= end - pos
    ensures StblIn(data, pos, end).value.headerSize <= StblIn(data, pos, end).value.declaredSize
    decreases end - pos
  {
    hide HeaderAt, Code;
    var first := First(data, pos, end).value.value;
    if first.boxType != Code("stbl") {
      StblInFits(data, first.End(), end);
    }
  }

  lemma StsdEntryFits(data: bytes, stsd: BoxHeader, handler: FourCC)
    requires StsdEntry(data, stsd, handler).Ok?
    ensures StsdEntry(data, stsd, handler).value.sampleEntry.len <= stsd.declaredSize
  {
    hide EntryFields, HeaderAt, Code;
  }

  lemma StblFits(data: bytes, stbl: BoxHeader, handler: FourCC, d: StblData)
    requires StblIs(data, stbl, handler, d) && stbl.headerSize <= stbl.declaredSize
    ensures d.entry.sampleEntry.len <= stbl.declaredSize
  {
    hide Scan, Last, LastPayload, Ordered, StsdEntry, StblChildrenOk, Code;
    ScanOrdered(data, stbl.PayloadOffset(), stbl.End());
    var hs := Scan(data, stbl.PayloadOffset(), stbl.End()).value;
    LastFits(hs, stbl.PayloadOffset(), stbl.End(), Code("stsd"));
    StsdEntryFits(data, Last(hs, Code("stsd")).value, handler);
  }

  lemma MdiaFits(data: bytes, mdia: BoxHeader, d: MdiaData)
    requires MdiaIs(data, mdia, d) && mdia.headerSize <= mdia.declaredSize
    ensures d.stbl.entry.sampleEntry.len <= mdia.declaredSize
  {
    hide Scan, Last, Ordered, StblIn, StblIs, MdiaChildrenOk, LastTimescale, LastHandler, Code;
    ScanOrdered(data, mdia.PayloadOffset(), mdia.End());
    var hs := Scan(data, mdia.PayloadOffset(), mdia.End()).value;
    LastFits(hs, mdia.PayloadOffset(), mdia.End(), Code("minf"));
    var minf := Last(hs, Code("minf")).value;
    StblInFits(data, minf.PayloadOffset(), minf.End());
    StblFits(data, StblIn(data, minf.PayloadOffset(), minf.End()).value, d.handler, d.stbl);
  }

  /** How many bytes of the file the sample entry and the edit list of a track take. */
  function BlobBytes(t: ParsedTrack): nat {
    t.sampleEntry.len + if t.elst.Some? then t.elst.value.len else 0
  }

  lemma TrakFits(data: bytes, trak: BoxHeader, u: UnclassifiedTrack)
    requires TrakIs(data, trak, u) && trak.headerSize <= trak.declaredSize
    ensures BlobBytes(u.track) <= trak.declaredSize
  {
    hide Scan, Last, Ordered, MdiaIs, TrakChildrenOk, LastTkhd, Code, Num;
    TrakNumbers();
    ScanOrdered(data, trak.PayloadOffset(), trak.End());
    var hs := Scan(data, trak.PayloadOffset(), trak.End()).value;
    LastFits(hs, trak.PayloadOffset(), trak.End(), Code("mdia"));
    MdiaFits(data, Last(hs, Code("mdia")).value, MediaOf(u));
    if Last(hs, Code("edts")).Some? {
      LastTwoFit(hs, trak.PayloadOffset(), trak.End(), Code("mdia"), Code("edts"));
    }
  }

  /** The blobs of both tracks together are no larger than the file. */
  lemma BlobsFit(data: bytes, sourceLen: nat, m: MoovParse)
    requires Parsed(data, sourceLen) == Ok(m)
    ensures BlobBytes(m.video) + BlobBytes(m.audio) <= sourceLen
  {
    hide Parsed, Scan, Last, AllOf, Ordered, TrakIs, TopChildrenOk, BlobBytes, Code, SizeOf;
    ParsedMeaning(data, sourceLen, m);
    ScanOrdered(data, 0, sourceLen);
    var hs := Scan(data, 0, sourceLen).value;
    LastFits(hs, 0, sourceLen, Code("moov"));
    var moov := Last(hs, Code("moov")).value;
    ScanOrdered(data, moov.PayloadOffset(), moov.End());
    var inside := Scan(data, moov.PayloadOffset(), moov.End()).value;
    var traks := AllOf(inside, Code("trak"));
    var ts :| Pairs(ts, m) && TracksAre(data, traks, ts);
    AllOfFit(inside, moov.PayloadOffset(), moov.End(), Code("trak"));
    TrakHeaders(inside, moov.PayloadOffset(), moov.End());
    TrakFits(data, traks[0], ts[0]);
    TrakFits(data, traks[1], ts[1]);
    SizeOfTwo(traks);
  }

  lemma {:induction false} TrakHeaders(hs: seq<BoxHeader>, pos: nat, end: nat)
    requires Ordered(hs, pos, end)
    ensures forall i :: 0 <= i < |AllOf(hs, Code("trak"))| ==>
                          AllOf(hs, Code("trak"))[i].headerSize <= AllOf(hs, Code("trak"))[i].declaredSize
  {
    hide AllOf, Code;
  }

  lemma {:induction false} SizeOfTwo(hs: seq<BoxHeader>)
    requires |hs| == 2
    ensures SizeOf(hs) == hs[0].declaredSize + hs[1].declaredSize
  {
    assert hs[..1] == [hs[0]] && hs[..1][..0] == [];
    assert SizeOf(hs[..1]) == hs[0].declaredSize;
  }
}
