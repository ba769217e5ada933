/**
 File type, handler, sample descriptions and sample groups as the standard lays them out, apart from the
 parser, and what the parser makes of them: which files it refuses, and with what error.
 */
module EntryLaws {
  import opened Boxes
  import opened BoxFolds
  import opened BoxForms
  import opened BoxReader
  import opened Bytes
  import opened HeaderLaws
  import opened Sources
  import opened Wrappers
  import Moov
  import TableLaws

  // ---------- ftyp ----------

  /** Section 4.3 of ISO/IEC 14496-12: major brand, minor version, compatible brands; then what is no whole brand. */
  function FileType(major: FourCC, minor: bytes, brands: seq<bytes>, tail: bytes): bytes {
    major + minor + Flatten(brands) + tail
  }

  /** The brands that a file may have. */
  predicate Allowed(brand: bytes) {
    || brand == Code("isom") || brand == Code("iso2") || brand == Code("iso4") || brand == Code("iso5")
    || brand == Code("iso6") || brand == Code("mp41") || brand == Code("mp42") || brand == Code("cmfc")
  }

  lemma AllowedBrands(brand: bytes)
    ensures Allowed(brand) <==> brand in Moov.ALLOWED_BRANDS
  {
    hide Code;
    var bs := Moov.ALLOWED_BRANDS;
    assert brand in bs <==> brand in [bs[0], bs[1], bs[2], bs[3], bs[4], bs[5], bs[6], bs[7]];
  }

  lemma BrandAt(major: FourCC, minor: bytes, brands: seq<bytes>, tail: bytes, i: nat)
    requires |minor| == 4 && Uniform(brands, 4) && i < |brands|
    ensures var p := FileType(major, minor, brands, tail);
            8 + 4 * i + 4 <= |p| && p[8 + 4 * i..12 + 4 * i] == brands[i]
  {
    hide Flatten;
    FlattenUniform(brands, 4, i);
    var p, rows := FileType(major, minor, brands, tail), Flatten(brands);
    assert p[8 + 4 * i..12 + 4 * i] == rows[i * 4..i * 4 + 4];
  }

  lemma FileTypeSize(major: FourCC, minor: bytes, brands: seq<bytes>, tail: bytes)
    requires |minor| == 4 && Uniform(brands, 4) && |tail| < 4
    ensures var p := FileType(major, minor, brands, tail);
            && |p| == 8 + 4 * |brands| + |tail| && p[..4] == major && (|p| - 8) / 4 == |brands|
            && ((|p| - 8) % 4 == 0 <==> |tail| == 0)
  {
    hide Flatten;
    FlattenUniformLength(brands, 4);
    assert FileType(major, minor, brands, tail)[..4] == major;
  }

  /** A file is taken for its major brand, or for a compatible brand if the list has no broken end. */
  lemma BrandsMeaning(data: bytes, h: BoxHeader, major: FourCC, minor: bytes, brands: seq<bytes>, tail: bytes)
    requires |minor| == 4 && Uniform(brands, 4) && |tail| < 4
    requires PayloadLies(data, h, FileType(major, minor, brands, tail))
    ensures Moov.Ftyp(data, h) == if Allowed(major) then Ok(())
                                  else if |tail| > 0 then Err(MalformedAtom)
                                  else if exists i :: 0 <= i < |brands| && Allowed(brands[i]) then Ok(())
                                  else Err(UnsupportedBrand)
  {
    hide FileType, Code, PayloadLies, Allowed;
    var p := FileType(major, minor, brands, tail);
    FileTypeSize(major, minor, brands, tail);
    PayloadSize(data, h, p);
    FetchInside(data, h, p, 0, |p|);
    assert p[0..|p|] == p;
    forall i | 0 <= i < |brands|
      ensures Moov.CompatibleBrand(p, i) == brands[i]
    {
      BrandAt(major, minor, brands, tail, i);
    }
    AllowedBrands(major);
    forall i | 0 <= i < |brands|
      ensures Allowed(brands[i]) <==> Moov.CompatibleBrand(p, i) in Moov.ALLOWED_BRANDS
    {
      AllowedBrands(brands[i]);
    }
  }

  /** Eight bytes are the least. */
  lemma ShortFileType(data: bytes, h: BoxHeader, payload: bytes)
    requires PayloadLies(data, h, payload) && |payload| < 8
    ensures Moov.Ftyp(data, h) == Err(MalformedAtom)
  {}

  // ---------- hdlr ----------

  /** Section 8.4.3: the handler is the second field, behind the one that was once its type. */
  lemma HandlerReadsBack(data: bytes, h: BoxHeader, version: byte, flags: nat, predefined: bytes, handler: FourCC,
                         rest: bytes)
    requires flags <= 0xFF_FFFF && |predefined| == 4
    requires PayloadLies(data, h, FullHeader(version, flags) + predefined + handler + rest)
    ensures Moov.HdlrType(data, h) == Ok(handler)
  {
    hide FullHeader;
    var p := FullHeader(version, flags) + predefined + handler + rest;
    FetchInside(data, h, p, 8, 4);
    assert p[8..12] == handler;
  }

  lemma ShortHandler(data: bytes, h: BoxHeader, payload: bytes)
    requires PayloadLies(data, h, payload) && |payload| < 12
    ensures Moov.HdlrType(data, h) == Err(MalformedAtom)
  {}

  // ---------- Encryption ----------

  /** The boxes by which a file says that samples are encrypted (sections 8.1.1 and 8.12 and ISO/IEC 23001-7). */
  predicate Encrypts(fourcc: FourCC) {
    fourcc == Code("sinf") || fourcc == Code("tenc") || fourcc == Code("senc")
    || fourcc == Code("sbgp") || fourcc == Code("sgpd")
  }

  predicate AnyEncrypts(boxes: seq<Formed>) {
    exists i :: 0 <= i < |boxes| && Encrypts(boxes[i].fourcc)
  }

  lemma VendorBoxIsNone()
    ensures !Encrypts(Code("uuid"))
  {
    hide Code;
    assert Num(Code("uuid")) == 0x7575_6964;
    assert Num(Code("sinf")) == 0x7369_6E66 && Num(Code("tenc")) == 0x7465_6E63 && Num(Code("senc")) == 0x7365_6E63;
    assert Num(Code("sbgp")) == 0x7362_6770 && Num(Code("sgpd")) == 0x7367_7064;
  }

  lemma NothingRefused()
    ensures FormHeaders([], 0) == [] && Visible([]) == []
    ensures FoldOver([], Ok(()), Moov.RefuseMarkers()) == Ok(())
  {}

  /** Visiting the boxes one by one stops at the first one that encrypts. */
  lemma {:induction false} RefusedAmong(boxes: seq<Formed>, pos: nat)
    ensures FoldOver(Visible(FormHeaders(boxes, pos)), Ok(()), Moov.RefuseMarkers())
            == if AnyEncrypts(boxes) then Err(EncryptedInput) else Ok(())
  {
    hide Code, Formed.Size, Formed.Encode;
    if |boxes| == 0 {
      NothingRefused();
      assert FormHeaders(boxes, pos) == [];
    } else {
      RefusedAmong(boxes[1..], pos + boxes[0].Size());
      VendorBoxIsNone();
      RefusedFirst(boxes, pos);
      assert AnyEncrypts(boxes) <==> Encrypts(boxes[0].fourcc) || AnyEncrypts(boxes[1..]) by {
        AnyOf(boxes);
      }
    }
  }

  lemma AnyOf(boxes: seq<Formed>)
    requires |boxes| > 0
    ensures AnyEncrypts(boxes) <==> Encrypts(boxes[0].fourcc) || AnyEncrypts(boxes[1..])
  {
    hide Encrypts;
    if i :| 0 <= i < |boxes| && Encrypts(boxes[i].fourcc) {
      if i > 0 {
        assert boxes[1..][i - 1] == boxes[i];
      }
    }
  }

  lemma RefusedFirst(boxes: seq<Formed>, pos: nat)
    requires |boxes| > 0 && !Encrypts(Code("uuid"))
    ensures FoldOver(Visible(FormHeaders(boxes, pos)), Ok(()), Moov.RefuseMarkers())
            == if Encrypts(boxes[0].fourcc) then Err(EncryptedInput)
               else FoldOver(Visible(FormHeaders(boxes[1..], pos + boxes[0].Size())), Ok(()), Moov.RefuseMarkers())
  {
    hide Code, Formed.Size, Formed.Encode;
    var h, rest := boxes[0].HeaderAt(pos), FormHeaders(boxes[1..], pos + boxes[0].Size());
    assert FormHeaders(boxes, pos) == [h] + rest && ([h] + rest)[1..] == rest;
    assert ([h] + Visible(rest))[1..] == Visible(rest);
  }

  /** Fixed fields of a sample entry: 78 bytes for video (section 12.1.3), 28 for audio (section 12.2.3). */
  function FixedLen(audio: bool): nat {
    if audio then 28 else 78
  }

  /** Behind the fixed fields of a sample entry any box that encrypts has the file refused. */
  lemma {:induction false} EncryptionMeaning(data: bytes, entry: BoxHeader, audio: bool, fields: bytes,
                                             boxes: seq<Formed>)
    requires |fields| == FixedLen(audio) && Mixed(boxes)
    requires PayloadLies(data, entry, fields + EncodeForms(boxes))
    ensures Moov.NoEncryption(data, entry, audio) == if AnyEncrypts(boxes) then Err(EncryptedInput) else Ok(())
  {
    hide Encrypts, AnyEncrypts, EncodeForms, FormHeaders, Visible, Moov.RefuseMarkers, Scan, Fold, FoldOver, Mixed;
    var at := entry.PayloadOffset() + |fields|;
    SubSlice(data, entry.PayloadOffset(), entry.End(), |fields|, entry.PayloadLen());
    assert (fields + EncodeForms(boxes))[|fields|..] == EncodeForms(boxes);
    if at == entry.End() {
      NoFormsAtAll(boxes);
      RefusedAmong(boxes, at);
      EmptyFold(boxes, at);
    } else {
      ScanOfForms(data, at, entry.End(), boxes);
      FoldIsScanned(data, at, entry.End(), (), Moov.RefuseMarkers());
      RefusedAmong(boxes, at);
    }
  }

  lemma {:induction false} NoFormsAtAll(boxes: seq<Formed>)
    requires |EncodeForms(boxes)| == 0
    ensures boxes == []
  {}

  lemma {:induction false} EmptyFold(boxes: seq<Formed>, at: nat)
    requires boxes == []
    ensures FoldOver(Visible(FormHeaders(boxes, at)), Ok(()), Moov.RefuseMarkers()) == Ok(())
  {}

  /** A video entry is taken for its codec alone, and refused first of all for encryption. */
  lemma {:induction false} VideoEntryMeaning(data: bytes, entry: BoxHeader, fields: bytes, boxes: seq<Formed>)
    requires |fields| == 78 && Mixed(boxes) && PayloadLies(data, entry, fields + EncodeForms(boxes))
    ensures Moov.EntryFields(data, entry, Code("vide"))
            == if AnyEncrypts(boxes) then Err(EncryptedInput)
               else if entry.boxType == Code("avc1") || entry.boxType == Code("hvc1") || entry.boxType == Code("hev1")
               then Ok((0, 0)) else Err(UnsupportedVideoCodec)
  {
    hide Code, Moov.NoEncryption, AnyEncrypts, PayloadLies, EncodeForms, Mixed;
    EncryptionMeaning(data, entry, false, fields, boxes);
  }

  /** An audio entry also has to make sense. */
  lemma {:induction false} AudioEntryMeaning(data: bytes, entry: BoxHeader, fields: bytes, boxes: seq<Formed>)
    requires |fields| == 28 && Mixed(boxes) && PayloadLies(data, entry, fields + EncodeForms(boxes))
    ensures Moov.EntryFields(data, entry, Code("soun"))
            == if AnyEncrypts(boxes) then Err(EncryptedInput)
               else if entry.boxType == Code("mp4a") then Moov.AudioEntry(data, entry)
               else Err(UnsupportedAudioCodec)
  {
    Moov.HandlersDiffer();
    hide Code, Moov.NoEncryption, AnyEncrypts, PayloadLies, EncodeForms, Mixed, Moov.AudioEntry;
    EncryptionMeaning(data, entry, true, fields, boxes);
  }

  /** An entry too short to have boxes has none that encrypts. */
  lemma ShortEntry(data: bytes, entry: BoxHeader, audio: bool, payload: bytes)
    requires PayloadLies(data, entry, payload) && |payload| < FixedLen(audio)
    ensures Moov.NoEncryption(data, entry, audio) == Ok(())
  {}

  /** A sample group is refused for the one grouping type of encryption (sections 8.9.2 and 8.9.3). */
  lemma GroupingMeaning(data: bytes, h: BoxHeader, version: byte, flags: nat, kind: FourCC, rest: bytes)
    requires flags <= 0xFF_FFFF && PayloadLies(data, h, FullHeader(version, flags) + kind + rest)
    ensures Moov.GroupingType(data, h) == if kind == Code("seig") then Err(EncryptedInput) else Ok(())
  {
    hide FullHeader, Code;
    var p := FullHeader(version, flags) + kind + rest;
    FetchInside(data, h, p, 4, 4);
    assert p[4..8] == kind;
  }

  lemma ShortGrouping(data: bytes, h: BoxHeader, payload: bytes)
    requires PayloadLies(data, h, payload) && |payload| < 8
    ensures Moov.GroupingType(data, h) == Err(MalformedAtom)
  {
    hide Code;
  }

  // ---------- stsd ----------

  /** Section 8.5.2: a count, and the entries. */
  function Descriptions(version: byte, flags: nat, count: u32, boxes: seq<Formed>): bytes
    requires flags <= 0xFF_FFFF
  {
    FullHeader(version, flags) + Be32(count) + EncodeForms(boxes)
  }

  predicate NoVendorBoxes(boxes: seq<Formed>) {
    forall i :: 0 <= i < |boxes| ==> boxes[i].fourcc != Code("uuid")
  }

  /** The first entry, if there is one, and whether it is the last. */
  lemma {:induction false} FirstEntry(data: bytes, at: nat, end: nat, boxes: seq<Formed>)
    requires Mixed(boxes) && NoVendorBoxes(boxes) && |boxes| > 0
    requires at <= end <= |data| && data[at..end] == EncodeForms(boxes)
    ensures First(data, at, end) == Ok(Some(boxes[0].HeaderAt(at)))
    ensures at < end && (boxes[0].HeaderAt(at).End() == end <==> |boxes| == 1)
  {
    hide Code, Head, EncodeForms;
    FormsHead(data, at, end, boxes);
    MixedRest(boxes);
    if |boxes| == 1 {
      assert boxes[1..] == [];
      NoForms(data, end);
    } else {
      FormsHead(data, at + boxes[0].Size(), end, boxes[1..]);
    }
    FormedHead(data, at, end, boxes[0]);
  }

  lemma {:induction false} DescriptionFields(version: byte, flags: nat, count: u32, boxes: seq<Formed>)
    requires flags <= 0xFF_FFFF
    ensures var p := Descriptions(version, flags, count, boxes);
            |p| >= 8 && U32At(p[0..8], 4) == count && p[8..] == EncodeForms(boxes)
  {
    hide FullHeader, Be32, ReadBe, EncodeForms;
    var p := Descriptions(version, flags, count, boxes);
    assert p[0..8][4..8] == Be32(count);
    Be32ReadBack(count);
  }

  /** What is reported of the one entry, or why it is refused. */
  function EntryReport(data: bytes, h: BoxHeader, handler: FourCC): Result<Moov.SampleEntryInfo> {
    match Moov.EntryFields(data, h, handler)
    case Ok(fields) => Ok(Moov.SampleEntryInfo(h.boxType, ByteRange(h.start, h.declaredSize), fields.0, fields.1))
    case Err(e) => Err(e)
  }

  /** The table must have one entry, and say so; that entry is reported as the whole of its box. */
  lemma DescriptionsMeaning(data: bytes, stsd: BoxHeader, version: byte, flags: nat, count: u32, boxes: seq<Formed>,
                            handler: FourCC)
    requires flags <= 0xFF_FFFF && Mixed(boxes) && NoVendorBoxes(boxes)
    requires PayloadLies(data, stsd, Descriptions(version, flags, count, boxes))
    ensures Moov.StsdEntry(data, stsd, handler)
            == if count != 1 || |boxes| != 1 then Err(MalformedAtom)
               else EntryReport(data, boxes[0].HeaderAt(stsd.PayloadOffset() + 8), handler)
  {
    hide Code, Descriptions, EncodeForms, Mixed, NoVendorBoxes, First, Moov.EntryFields, U32At;
    var p, at := Descriptions(version, flags, count, boxes), stsd.PayloadOffset() + 8;
    DescriptionFields(version, flags, count, boxes);
    FetchInside(data, stsd, p, 0, 8);
    SubSlice(data, stsd.PayloadOffset(), stsd.End(), 8, |p|);
    if |boxes| > 0 {
      FirstEntry(data, at, stsd.End(), boxes);
    } else {
      NoForms(data, at);
    }
  }

  // ---------- Places ----------

  /** What is remembered of a table box is where its payload lies. */
  lemma RangeIsPayload(data: bytes, h: BoxHeader, payload: bytes)
    requires PayloadLies(data, h, payload)
    ensures TableLaws.Lies(data, Moov.PayloadRange(h), payload)
  {}

  /** The first sample table among these boxes, or that there is none. */
  predicate FirstTableIs(hs: seq<BoxHeader>, r: Result<BoxHeader>) {
    match r
    case Ok(h) => exists i :: 0 <= i < |hs| && hs[i] == h && h.boxType == Code("stbl") && NoTable(hs[..i])
    case Err(e) => e == MissingAtom && NoTable(hs)
  }

  predicate NoTable(hs: seq<BoxHeader>) {
    forall j :: 0 <= j < |hs| ==> hs[j].boxType != Code("stbl")
  }

  lemma TableFollows(h: BoxHeader, hs: seq<BoxHeader>, r: Result<BoxHeader>)
    requires h.boxType != Code("stbl") && FirstTableIs(hs, r)
    ensures FirstTableIs([h] + hs, r)
  {
    hide Code;
    var all := [h] + hs;
    if r.Ok? {
      var i :| 0 <= i < |hs| && hs[i] == r.value && r.value.boxType == Code("stbl") && NoTable(hs[..i]);
      assert all[i + 1] == r.value && all[..i + 1] == [h] + hs[..i];
    }
  }

  lemma TableFound(h: BoxHeader, hs: seq<BoxHeader>)
    requires h.boxType == Code("stbl")
    ensures FirstTableIs([h] + hs, Ok(h))
  {
    hide Code;
    var all := [h] + hs;
    assert all[0] == h && all[..0] == [];
  }

  /** Of several sample tables the first one counts. */
  lemma {:induction false} FirstTable(data: bytes, pos: nat, end: nat)
    requires Scan(data, pos, end).Ok?
    ensures FirstTableIs(Scan(data, pos, end).value, Moov.StblIn(data, pos, end))
    decreases end - pos
  {
    hide Code, First, FirstTableIs;
    var first := First(data, pos, end).value;
    if first.None? {
      NoTables();
    } else {
      var h := first.value;
      var rest := Scan(data, h.End(), end);
      assert Scan(data, pos, end).value == [h] + rest.value;
      if h.boxType == Code("stbl") {
        TableFound(h, rest.value);
      } else {
        FirstTable(data, h.End(), end);
        TableFollows(h, rest.value, Moov.StblIn(data, h.End(), end));
      }
    }
  }

  lemma NoTables()
    ensures FirstTableIs([], Err(MissingAtom))
  {}

  // ---------- Tracks ----------

  /** The tracks with this handler, by number. */
  function With(ts: seq<Moov.UnclassifiedTrack>, handler: FourCC): set<int> {
    set i | 0 <= i < |ts| && ts[i].handler == handler
  }

  lemma WithLast(ts: seq<Moov.UnclassifiedTrack>, handler: FourCC)
    requires |ts| > 0
    ensures var front := With(ts[..|ts| - 1], handler);
            && |ts| - 1 !in front
            && With(ts, handler) == if ts[|ts| - 1].handler == handler then front + {|ts| - 1} else front
  {}

  lemma {:induction false} HandlersCounted(ts: seq<Moov.UnclassifiedTrack>, handler: FourCC)
    ensures |Moov.OfHandler(ts, handler)| == |With(ts, handler)|
    decreases |ts|
  {
    hide With;
    if |ts| > 0 {
      HandlersCounted(ts[..|ts| - 1], handler);
      WithLast(ts, handler);
    } else {
      NoneWith(handler);
    }
  }

  lemma NoneWith(handler: FourCC)
    ensures With([], handler) == {}
  {}

  /** Refused tracks are counted by kind. */
  lemma LayoutRefused(ts: seq<Moov.UnclassifiedTrack>)
    requires Moov.Classified(ts).Err?
    ensures Moov.Classified(ts).error == UnsupportedTrackLayout(|With(ts, Code("vide"))|, |With(ts, Code("soun"))|)
  {
    hide Code, With;
    HandlersCounted(ts, Code("vide"));
    HandlersCounted(ts, Code("soun"));
  }

  // ---------- Refused files ----------

  /** What a top-level box is refused for, after other boxes with or without a `moov` among them. */
  ghost function Objection(data: bytes, h: BoxHeader, moovSeen: bool): Option<PackagerError> {
    if h.boxType == Code("ftyp") && Moov.Ftyp(data, h).Err? then Some(Moov.Ftyp(data, h).error)
    else if h.boxType == Code("moov") && moovSeen then Some(MalformedAtom)
    else if h.boxType == Code("moof") then Some(FragmentedInput)
    else if Encrypts(h.boxType) then Some(EncryptedInput)
    else None
  }

  /** One of the first `n` boxes is a `moov`. */
  predicate MoovAmong(hs: seq<BoxHeader>, n: nat)
    requires n <= |hs|
  {
    exists j :: 0 <= j < n && hs[j].boxType == Code("moov")
  }

  ghost predicate NoObjection(data: bytes, hs: seq<BoxHeader>, n: nat)
    requires n <= |hs|
  {
    forall j :: 0 <= j < n ==> Objection(data, hs[j], MoovAmong(hs, j)).None?
  }

  lemma TopVisitMeaning(data: bytes, h: BoxHeader, s: Moov.TopSlots)
    ensures var visited, objection := Moov.TopVisit(data, h, s), Objection(data, h, s.moov.Some?);
            && (objection.Some? ==> visited == Err(objection.value))
            && (objection.None? ==>
                  && visited.Ok?
                  && (visited.value.moov.Some? <==> s.moov.Some? || h.boxType == Code("moov")))
  {
    hide Code, Moov.Ftyp;
    assert Num(Code("ftyp")) == 0x6674_7970 && Num(Code("moov")) == 0x6D6F_6F76 && Num(Code("moof")) == 0x6D6F_6F66;
    assert Num(Code("sinf")) == 0x7369_6E66 && Num(Code("tenc")) == 0x7465_6E63 && Num(Code("senc")) == 0x7365_6E63;
    assert Num(Code("sbgp")) == 0x7362_6770 && Num(Code("sgpd")) == 0x7367_7064;
    hide Num;
  }

  lemma {:induction false} VisitedSoFar(data: bytes, hs: seq<BoxHeader>, n: nat)
    requires n <= |hs| && NoObjection(data, hs, n)
    ensures var slots := FoldOver(hs[..n], Ok(Moov.NO_TOP), Moov.TopVisitor(data));
            slots.Ok? && (slots.value.moov.Some? <==> MoovAmong(hs, n))
    decreases n
  {
    hide Code, Objection, FoldOver, Moov.TopVisit;
    if n == 0 {
      NoneVisited(data);
      assert hs[..0] == [];
    } else {
      VisitedSoFar(data, hs, n - 1);
      assert hs[..n][..n - 1] == hs[..n - 1];
      FoldOverSnoc(hs[..n], Ok(Moov.NO_TOP), Moov.TopVisitor(data));
      TopVisitMeaning(data, hs[n - 1], FoldOver(hs[..n - 1], Ok(Moov.NO_TOP), Moov.TopVisitor(data)).value);
    }
  }

  lemma NoneVisited(data: bytes)
    ensures FoldOver([], Ok(Moov.NO_TOP), Moov.TopVisitor(data)) == Ok(Moov.NO_TOP)
  {}

  /** A failed visit ends it. */
  lemma {:induction false} FoldStops<S>(hs: seq<BoxHeader>, r: Result<S>, visit: (BoxHeader, S) -> Result<S>, n: nat)
    requires n <= |hs| && FoldOver(hs[..n], r, visit).Err?
    ensures FoldOver(hs, r, visit) == FoldOver(hs[..n], r, visit)
    decreases |hs|
  {
    if n == 0 {
      assert hs[..0] == [];
    } else if r.Ok? {
      assert hs[..n][1..] == hs[1..][..n - 1];
      FoldStops(hs[1..], visit(hs[0], r.value), visit, n - 1);
    }
  }

  /** The first top-level box that there is an objection to decides why the file is refused. */
  lemma {:induction false} FirstObjection(data: bytes, sourceLen: nat, i: nat)
    requires Scan(data, 0, sourceLen).Ok? && i < |Scan(data, 0, sourceLen).value|
    requires NoObjection(data, Scan(data, 0, sourceLen).value, i)
    requires var hs := Scan(data, 0, sourceLen).value; Objection(data, hs[i], MoovAmong(hs, i)).Some?
    ensures var hs := Scan(data, 0, sourceLen).value;
            Moov.Parsed(data, sourceLen) == Err(Objection(data, hs[i], MoovAmong(hs, i)).value)
  {
    hide Code, Objection, FoldOver, Fold, Scan, Moov.TopVisit, Moov.Classified, MoovAmong, NoObjection;
    var hs, visit := Scan(data, 0, sourceLen).value, Moov.TopVisitor(data);
    VisitedSoFar(data, hs, i);
    var before := FoldOver(hs[..i], Ok(Moov.NO_TOP), visit).value;
    assert hs[..i + 1][..i] == hs[..i];
    FoldOverSnoc(hs[..i + 1], Ok(Moov.NO_TOP), visit);
    TopVisitMeaning(data, hs[i], before);
    FoldStops(hs, Ok(Moov.NO_TOP), visit, i + 1);
    FoldIsScanned(data, 0, sourceLen, Moov.NO_TOP, visit);
  }
}
