/** The movie box: from the top-level boxes of a file to one video and one audio track. */
module Moov {
  import opened Boxes
  import opened BoxFolds
  import opened BoxReader
  import opened Bytes
  import opened SampleTable
  import opened Sources
  import opened Wrappers

  const ALLOWED_BRANDS: seq<FourCC> :=
    [Code("isom"), Code("mp42"), Code("iso2"), Code("iso4"), Code("iso5"), Code("iso6"), Code("cmfc"), Code("mp41")]
  const VIDEO_FOURCCS: seq<FourCC> := [Code("avc1"), Code("hvc1"), Code("hev1")]
  const AUDIO_FOURCCS: seq<FourCC> := [Code("mp4a")]
  const HANDLER_VIDEO: FourCC := Code("vide")
  const HANDLER_AUDIO: FourCC := Code("soun")

  datatype ParsedTrack = ParsedTrack(
    timescale: u32, fourcc: FourCC, width: u32, height: u32, sampleRate: u32, channelCount: byte,
    sampleEntry: ByteRange, elst: Option<ByteRange>, sampleTable: SampleTableLocs)

  datatype UnclassifiedTrack = UnclassifiedTrack(handler: FourCC, track: ParsedTrack)

  datatype MoovParse = MoovParse(video: ParsedTrack, audio: ParsedTrack)

  function PayloadRange(h: BoxHeader): ByteRange {
    ByteRange(h.PayloadOffset(), h.PayloadLen())
  }

  // ---------- ftyp ----------

  /** Brand `i` of the compatible brands that follow the minor version. */
  function CompatibleBrand(payload: bytes, i: nat): FourCC
    requires 8 + 4 * i + 4 <= |payload|
  {
    payload[8 + 4 * i..12 + 4 * i]
  }

  ghost predicate HasAllowedBrand(payload: bytes)
    requires |payload| >= 8
  {
    exists i :: 0 <= i < (|payload| - 8) / 4 && CompatibleBrand(payload, i) in ALLOWED_BRANDS
  }

  ghost function Ftyp(data: bytes, h: BoxHeader): Result<()> {
    if h.PayloadLen() < 8 then Err(MalformedAtom)
    else
      var buf :- Fetch(data, h.PayloadOffset(), h.PayloadLen());
      if buf[..4] in ALLOWED_BRANDS then Ok(())
      else if (|buf| - 8) % 4 != 0 then Err(MalformedAtom)
      else if HasAllowedBrand(buf) then Ok(())
      else Err(UnsupportedBrand)
  }

  method CheckFtyp(src: Source, h: BoxHeader) returns (r: Result<()>)
    ensures r == Ftyp(src.data, h)
  {
    hide Code;
    if h.PayloadLen() < 8 {
      return Err(MalformedAtom);
    }
    var buf :- ReadBytes(src, h.PayloadOffset(), h.PayloadLen());
    if buf[..4] in ALLOWED_BRANDS {
      return Ok(());
    }
    if (|buf| - 8) % 4 != 0 {
      return Err(MalformedAtom);
    }
    for i := 0 to (|buf| - 8) / 4
      invariant forall j :: 0 <= j < i ==> CompatibleBrand(buf, j) !in ALLOWED_BRANDS
    {
      if CompatibleBrand(buf, i) in ALLOWED_BRANDS {
        return Ok(());
      }
    }
    return Err(UnsupportedBrand);
  }

  // ---------- tkhd, mdhd, hdlr ----------

  /** Width and height in whole pixels. */
  datatype TkhdInfo = TkhdInfo(width: u32, height: u32)

  /** Where width and height lie after version and flags, and how long the rest is, by version. */
  function TkhdLayout(version: byte): Option<(nat, nat)> {
    if version == 0 then Some((80, 72)) else if version == 1 then Some((92, 84)) else None
  }

  function Tkhd(data: bytes, h: BoxHeader): (r: Result<TkhdInfo>)
    ensures r.Ok? ==> r.value.width <= 0xFFFF && r.value.height <= 0xFFFF
  {
    if h.PayloadLen() < 4 then Err(MalformedAtom)
    else
      var head :- Fetch(data, h.PayloadOffset(), 4);
      var layout := TkhdLayout(head[0]);
      if layout.None? || h.PayloadLen() < 4 + layout.value.0 then Err(MalformedAtom)
      else
        var wh :- Fetch(data, h.PayloadOffset() + 4 + layout.value.1, 8);
        Ok(TkhdInfo(U32At(wh, 0) / 0x1_0000, U32At(wh, 4) / 0x1_0000))
  }

  method ParseTkhd(src: Source, h: BoxHeader) returns (r: Result<TkhdInfo>)
    ensures r == Tkhd(src.data, h)
  {
    if h.PayloadLen() < 4 {
      return Err(MalformedAtom);
    }
    var header :- ReadBytes(src, h.PayloadOffset(), 4);
    var layout := TkhdLayout(header[0]);
    if layout.None? {
      return Err(MalformedAtom);
    }
    if h.PayloadLen() < 4 + layout.value.0 {
      return Err(MalformedAtom);
    }
    var wh :- ReadBytes(src, h.PayloadOffset() + 4 + layout.value.1, 8);
    return Ok(TkhdInfo(U32At(wh, 0) / 0x1_0000, U32At(wh, 4) / 0x1_0000));
  }

  function TimescaleOffset(version: byte): Option<nat> {
    if version == 0 then Some(8) else if version == 1 then Some(16) else None
  }

  function MdhdTimescale(data: bytes, h: BoxHeader): Result<u32> {
    if h.PayloadLen() < 4 then Err(MalformedAtom)
    else
      var head :- Fetch(data, h.PayloadOffset(), 4);
      var offset := TimescaleOffset(head[0]);
      if offset.None? || h.PayloadLen() < 4 + offset.value + 4 then Err(MalformedAtom)
      else
        var ts :- Fetch(data, h.PayloadOffset() + 4 + offset.value, 4);
        Ok(U32At(ts, 0))
  }

  method ParseMdhdTimescale(src: Source, h: BoxHeader) returns (r: Result<u32>)
    ensures r == MdhdTimescale(src.data, h)
  {
    if h.PayloadLen() < 4 {
      return Err(MalformedAtom);
    }
    var versionFlags :- ReadBytes(src, h.PayloadOffset(), 4);
    var offset := TimescaleOffset(versionFlags[0]);
    if offset.None? {
      return Err(MalformedAtom);
    }
    if h.PayloadLen() < 4 + offset.value + 4 {
      return Err(MalformedAtom);
    }
    var ts :- ReadBytes(src, h.PayloadOffset() + 4 + offset.value, 4);
    return Ok(U32At(ts, 0));
  }

  function HdlrType(data: bytes, h: BoxHeader): Result<FourCC> {
    if h.PayloadLen() < 12 then Err(MalformedAtom)
    else
      var buf :- Fetch(data, h.PayloadOffset() + 8, 4);
      Ok(buf)
  }

  method ParseHdlrType(src: Source, h: BoxHeader) returns (r: Result<FourCC>)
    ensures r == HdlrType(src.data, h)
  {
    if h.PayloadLen() < 12 {
      return Err(MalformedAtom);
    }
    var buf :- ReadBytes(src, h.PayloadOffset() + 8, 4);
    return Ok(buf);
  }

  // ---------- stsd ----------

  predicate EncryptionMarker(t: FourCC) {
    t == Code("sinf") || t == Code("tenc") || t == Code("senc") || t == Code("sbgp") || t == Code("sgpd")
  }

  function RefuseMarker(h: BoxHeader, s: ()): Result<()> {
    if EncryptionMarker(h.boxType) then Err(EncryptedInput) else Ok(())
  }

  function RefuseMarkers(): (BoxHeader, ()) -> Result<()> {
    (h, s) => RefuseMarker(h, s)
  }

  /** Fixed part of a sample entry, before its child boxes. */
  function EntryPrefix(audio: bool): nat {
    if audio then 28 else 78
  }

  function NoEncryption(data: bytes, entry: BoxHeader, audio: bool): Result<()> {
    if entry.PayloadLen() <= EntryPrefix(audio) then Ok(())
    else Fold(data, entry.PayloadOffset() + EntryPrefix(audio), entry.End(), (), RefuseMarkers())
  }

  method VerifyNoEncryption(src: Source, entry: BoxHeader, audio: bool) returns (r: Result<()>)
    ensures r == NoEncryption(src.data, entry, audio)
  {
    hide EncryptionMarker;
    if entry.PayloadLen() <= EntryPrefix(audio) {
      return Ok(());
    }
    ghost var all := NoEncryption(src.data, entry, audio);
    var iter := new BoxIter(src, entry.PayloadOffset() + EntryPrefix(audio), entry.End());
    while true
      invariant iter.reader == src && iter.end == entry.End()
      invariant Fold(src.data, iter.cursor, entry.End(), (), RefuseMarkers()) == all
      decreases entry.End() - iter.cursor
    {
      var next :- iter.NextHeader();
      if next.None? {
        return Ok(());
      }
      if EncryptionMarker(next.value.boxType) {
        return Err(EncryptedInput);
      }
    }
  }

  function U16At(b: bytes, pos: nat): nat
    requires pos + 2 <= |b|
  {
    ReadBe(b[pos..pos + 2])
  }

  /** Sample rate and channel count of an audio sample entry. */
  function AudioEntry(data: bytes, entry: BoxHeader): Result<(u32, byte)> {
    if entry.PayloadLen() < 28 then Err(MalformedAtom)
    else
      var buf :- Fetch(data, entry.PayloadOffset(), 28);
      if U16At(buf, 8) > 1 || U16At(buf, 16) > U8_MAX then Err(MalformedAtom)
      else Ok((U32At(buf, 24) / 0x1_0000, U16At(buf, 16)))
  }

  method ParseAudioSampleEntry(src: Source, entry: BoxHeader) returns (r: Result<(u32, byte)>)
    ensures r == AudioEntry(src.data, entry)
  {
    if entry.PayloadLen() < 28 {
      return Err(MalformedAtom);
    }
    var buf :- ReadBytes(src, entry.PayloadOffset(), 28);
    if U16At(buf, 8) > 1 {
      return Err(MalformedAtom);
    }
    if U16At(buf, 16) > U8_MAX {
      return Err(MalformedAtom);
    }
    return Ok((U32At(buf, 24) / 0x1_0000, U16At(buf, 16)));
  }

  /** Big-endian fields of an audio sample entry, between bytes that are not looked at. */
  function AudioFields(a: bytes, version: nat, b: bytes, channels: nat, c: bytes, rate: nat, fraction: nat): (p: bytes)
    requires |a| == 8 && |b| == |c| == 6
    ensures |p| == 28
  {
    a + Be(2, version) + b + Be(2, channels) + c + Be32(rate * 0x1_0000 + fraction)
  }

  lemma AudioFieldsAt(a: bytes, version: nat, b: bytes, channels: nat, c: bytes, rate: nat, fraction: nat)
    requires |a| == 8 && |b| == |c| == 6
    requires version <= 0xFFFF && channels <= 0xFFFF && rate <= 0xFFFF && fraction <= 0xFFFF
    ensures var p := AudioFields(a, version, b, channels, c, rate, fraction);
            U16At(p, 8) == version && U16At(p, 16) == channels && U32At(p, 24) / 0x1_0000 == rate
  {
    hide Be, Be32, ReadBe;
    var p := AudioFields(a, version, b, channels, c, rate, fraction);
    assert p[8..10] == Be(2, version) && p[16..18] == Be(2, channels);
    assert p[24..28] == Be32(rate * 0x1_0000 + fraction);
    Pow256Values();
    BeReadBack(2, version);
    BeReadBack(2, channels);
    Be32ReadBack(rate * 0x1_0000 + fraction);
  }

  /**
   An audio sample entry (section 12.2.3 of ISO/IEC 14496-12) reads back its channel count and the whole
   part of its sample rate; layouts past version 1 and counts past one byte are refused.
   */
  lemma AudioEntryReadsBack(data: bytes, entry: BoxHeader, a: bytes, version: nat, b: bytes, channels: nat, c: bytes,
                            rate: nat, fraction: nat, rest: bytes)
    requires |a| == 8 && |b| == |c| == 6
    requires version <= 0xFFFF && channels <= 0xFFFF && rate <= 0xFFFF && fraction <= 0xFFFF
    requires entry.PayloadOffset() <= entry.End() <= |data|
    requires data[entry.PayloadOffset()..entry.End()]
             == AudioFields(a, version, b, channels, c, rate, fraction) + rest
    ensures AudioEntry(data, entry)
            == if version > 1 || channels > U8_MAX then Err(MalformedAtom) else Ok((rate, channels))
  {
    hide AudioFields, U32At, U16At;
    var p := AudioFields(a, version, b, channels, c, rate, fraction);
    AudioFieldsAt(a, version, b, channels, c, rate, fraction);
    SubSlice(data, entry.PayloadOffset(), entry.End(), 0, 28);
    assert (p + rest)[0..28] == p;
  }

  /** The handler decides which codecs are taken, and which fields the entry has. */
  function EntryFields(data: bytes, entry: BoxHeader, handler: FourCC): Result<(u32, byte)> {
    if handler == HANDLER_VIDEO then
      var clear :- NoEncryption(data, entry, false);
      if entry.boxType !in VIDEO_FOURCCS then Err(UnsupportedVideoCodec) else Ok((0, 0))
    else if handler == HANDLER_AUDIO then
      var clear :- NoEncryption(data, entry, true);
      if entry.boxType !in AUDIO_FOURCCS then Err(UnsupportedAudioCodec) else AudioEntry(data, entry)
    else Ok((0, 0))
  }

  method ParseEntryFields(src: Source, entry: BoxHeader, handler: FourCC) returns (r: Result<(u32, byte)>)
    ensures r == EntryFields(src.data, entry, handler)
  {
    hide Code, NoEncryption;
    if handler == HANDLER_VIDEO {
      var _ :- VerifyNoEncryption(src, entry, false);
      if entry.boxType !in VIDEO_FOURCCS {
        return Err(UnsupportedVideoCodec);
      }
      return Ok((0, 0));
    } else if handler == HANDLER_AUDIO {
      var _ :- VerifyNoEncryption(src, entry, true);
      if entry.boxType !in AUDIO_FOURCCS {
        return Err(UnsupportedAudioCodec);
      }
      r := ParseAudioSampleEntry(src, entry);
    } else {
      return Ok((0, 0));
    }
  }

  datatype SampleEntryInfo = SampleEntryInfo(
    fourcc: FourCC, sampleEntry: ByteRange, sampleRate: u32, channelCount: byte)

  /** Exactly one sample entry, which fills the rest of the box. */
  function StsdEntry(data: bytes, stsd: BoxHeader, handler: FourCC): Result<SampleEntryInfo> {
    if stsd.PayloadLen() < 8 then Err(MalformedAtom)
    else
      var head :- Fetch(data, stsd.PayloadOffset(), 8);
      var first := stsd.PayloadOffset() + 8;
      if U32At(head, 4) != 1 || first >= stsd.End() then Err(MalformedAtom)
      else
        var entry :- First(data, first, stsd.End());
        if entry.None? || entry.value.End() != stsd.End() then Err(MalformedAtom)
        else
          var fields :- EntryFields(data, entry.value, handler);
          Ok(SampleEntryInfo(entry.value.boxType, ByteRange(entry.value.start, entry.value.declaredSize),
                             fields.0, fields.1))
  }

  method ParseStsdEntry(src: Source, stsd: BoxHeader, handler: FourCC) returns (r: Result<SampleEntryInfo>)
    ensures r == StsdEntry(src.data, stsd, handler)
  {
    hide EntryFields, Code;
    if stsd.PayloadLen() < 8 {
      return Err(MalformedAtom);
    }
    var head :- ReadBytes(src, stsd.PayloadOffset(), 8);
    if U32At(head, 4) != 1 {
      return Err(MalformedAtom);
    }
    var firstOff := stsd.PayloadOffset() + 8;
    if firstOff >= stsd.End() {
      return Err(MalformedAtom);
    }
    var iter := new BoxIter(src, firstOff, stsd.End());
    var next :- iter.NextHeader();
    if next.None? {
      return Err(MalformedAtom);
    }
    var entry := next.value;
    if entry.End() != stsd.End() {
      return Err(MalformedAtom);
    }
    var fields :- ParseEntryFields(src, entry, handler);
    return Ok(SampleEntryInfo(entry.boxType, ByteRange(entry.start, entry.declaredSize), fields.0, fields.1));
  }

  // ---------- stbl ----------

  /** Only sample groups of the encryption kind are refused. */
  function GroupingType(data: bytes, h: BoxHeader): Result<()> {
    if h.PayloadLen() < 8 then Err(MalformedAtom)
    else
      var buf :- Fetch(data, h.PayloadOffset() + 4, 4);
      if buf == Code("seig") then Err(EncryptedInput) else Ok(())
  }

  method CheckGroupingType(src: Source, h: BoxHeader) returns (r: Result<()>)
    ensures r == GroupingType(src.data, h)
  {
    if h.PayloadLen() < 8 {
      return Err(MalformedAtom);
    }
    var buf :- ReadBytes(src, h.PayloadOffset() + 4, 4);
    if buf == Code("seig") {
      return Err(EncryptedInput);
    }
    return Ok(());
  }

  /** What has been seen of a sample table. A later box of the same type replaces an earlier one. */
  datatype StblSlots = StblSlots(
    stsd: Option<BoxHeader>, stts: Option<ByteRange>, stsc: Option<ByteRange>, stsz: Option<ByteRange>,
    stco: Option<ByteRange>, co64: Option<ByteRange>, stss: Option<ByteRange>, ctts: Option<ByteRange>)

  const NO_STBL := StblSlots(None, None, None, None, None, None, None, None)

  function StblVisit(data: bytes, h: BoxHeader, s: StblSlots): Result<StblSlots> {
    if h.boxType == Code("stsd") then Ok(s.(stsd := Some(h)))
    else if h.boxType == Code("stts") then Ok(s.(stts := Some(PayloadRange(h))))
    else if h.boxType == Code("stsc") then Ok(s.(stsc := Some(PayloadRange(h))))
    else if h.boxType == Code("stsz") then Ok(s.(stsz := Some(PayloadRange(h))))
    else if h.boxType == Code("stco") then Ok(s.(stco := Some(PayloadRange(h))))
    else if h.boxType == Code("co64") then Ok(s.(co64 := Some(PayloadRange(h))))
    else if h.boxType == Code("stss") then Ok(s.(stss := Some(PayloadRange(h))))
    else if h.boxType == Code("ctts") then Ok(s.(ctts := Some(PayloadRange(h))))
    else if h.boxType == Code("sbgp") || h.boxType == Code("sgpd") then
      var clear :- GroupingType(data, h);
      Ok(s)
    else if h.boxType == Code("senc") then Err(EncryptedInput)
    else Ok(s)
  }

  function StblVisitor(data: bytes): (BoxHeader, StblSlots) -> Result<StblSlots> {
    (h, s) => StblVisit(data, h, s)
  }

  datatype StblData = StblData(entry: SampleEntryInfo, locs: SampleTableLocs)

  function Required<T>(o: Option<T>): Result<T> {
    if o.None? then Err(MissingAtom) else Ok(o.value)
  }

  function ChunkTable(s: StblSlots): Result<ChunkOffsets> {
    if s.stco.Some? && s.co64.Some? then Err(MalformedAtom)
    else if s.stco.Some? then Ok(Stco(s.stco.value))
    else if s.co64.Some? then Ok(Co64(s.co64.value))
    else Err(MissingAtom)
  }

  /** What the collected boxes of a sample table amount to. */
  function StblResult(data: bytes, s: StblSlots, handler: FourCC): Result<StblData> {
    var stsd :- Required(s.stsd);
    var entry :- StsdEntry(data, stsd, handler);
    var chunks :- ChunkTable(s);
    var stts :- Required(s.stts);
    var stsc :- Required(s.stsc);
    var stsz :- Required(s.stsz);
    Ok(StblData(entry, SampleTableLocs(stts, stsc, stsz, chunks, s.stss, s.ctts)))
  }

  function Stbl(data: bytes, stbl: BoxHeader, handler: FourCC): Result<StblData> {
    var slots :- Fold(data, stbl.PayloadOffset(), stbl.End(), NO_STBL, StblVisitor(data));
    StblResult(data, slots, handler)
  }

  /** One child of `stbl`. */
  method StblChild(src: Source, h: BoxHeader, s: StblSlots) returns (r: Result<StblSlots>)
    ensures r == StblVisit(src.data, h, s)
  {
    hide Code;
    if h.boxType == Code("stsd") {
      return Ok(s.(stsd := Some(h)));
    } else if h.boxType == Code("stts") {
      return Ok(s.(stts := Some(PayloadRange(h))));
    } else if h.boxType == Code("stsc") {
      return Ok(s.(stsc := Some(PayloadRange(h))));
    } else if h.boxType == Code("stsz") {
      return Ok(s.(stsz := Some(PayloadRange(h))));
    } else if h.boxType == Code("stco") {
      return Ok(s.(stco := Some(PayloadRange(h))));
    } else if h.boxType == Code("co64") {
      return Ok(s.(co64 := Some(PayloadRange(h))));
    } else if h.boxType == Code("stss") {
      return Ok(s.(stss := Some(PayloadRange(h))));
    } else if h.boxType == Code("ctts") {
      return Ok(s.(ctts := Some(PayloadRange(h))));
    } else if h.boxType == Code("sbgp") || h.boxType == Code("sgpd") {
      var _ :- CheckGroupingType(src, h);
      return Ok(s);
    } else if h.boxType == Code("senc") {
      return Err(EncryptedInput);
    }
    return Ok(s);
  }

  method ParseStbl(src: Source, stbl: BoxHeader, handler: FourCC) returns (r: Result<StblData>)
    ensures r == Stbl(src.data, stbl, handler)
  {
    hide StsdEntry, StblVisit;
    var slots := NO_STBL;
    ghost var all := Fold(src.data, stbl.PayloadOffset(), stbl.End(), NO_STBL, StblVisitor(src.data));
    var iter := new BoxIter(src, stbl.PayloadOffset(), stbl.End());
    while true
      invariant iter.reader == src && iter.end == stbl.End()
      invariant Fold(src.data, iter.cursor, stbl.End(), slots, StblVisitor(src.data)) == all
      decreases stbl.End() - iter.cursor
    {
      var next :- iter.NextHeader();
      if next.None? {
        break;
      }
      slots :- StblChild(src, next.value, slots);
    }
    if slots.stsd.None? {
      return Err(MissingAtom);
    }
    var entry :- ParseStsdEntry(src, slots.stsd.value, handler);
    var chunks :- ChunkTable(slots);
    var stts :- Required(slots.stts);
    var stsc :- Required(slots.stsc);
    var stsz :- Required(slots.stsz);
    return Ok(StblData(entry, SampleTableLocs(stts, stsc, stsz, chunks, slots.stss, slots.ctts)));
  }

  // ---------- minf and mdia ----------

  /** The first sample table. */
  function StblIn(data: bytes, pos: nat, end: nat): Result<BoxHeader>
    decreases end - pos
  {
    var first :- First(data, pos, end);
    if first.None? then Err(MissingAtom)
    else if first.value.boxType == Code("stbl") then Ok(first.value)
    else StblIn(data, first.value.End(), end)
  }

  method LocateStbl(src: Source, minf: BoxHeader) returns (r: Result<BoxHeader>)
    ensures r == StblIn(src.data, minf.PayloadOffset(), minf.End())
  {
    hide Code;
    var iter := new BoxIter(src, minf.PayloadOffset(), minf.End());
    while true
      invariant iter.reader == src && iter.end == minf.End()
      invariant StblIn(src.data, iter.cursor, minf.End()) == StblIn(src.data, minf.PayloadOffset(), minf.End())
      decreases minf.End() - iter.cursor
    {
      var next :- iter.NextHeader();
      if next.None? {
        return Err(MissingAtom);
      }
      if next.value.boxType == Code("stbl") {
        return Ok(next.value);
      }
    }
  }

  datatype MdiaSlots = MdiaSlots(mdhd: Option<u32>, handler: Option<FourCC>, minf: Option<BoxHeader>)

  const NO_MDIA := MdiaSlots(None, None, None)

  function MdiaVisit(data: bytes, h: BoxHeader, s: MdiaSlots): Result<MdiaSlots> {
    if h.boxType == Code("mdhd") then
      var timescale :- MdhdTimescale(data, h);
      Ok(s.(mdhd := Some(timescale)))
    else if h.boxType == Code("hdlr") then
      var handler :- HdlrType(data, h);
      Ok(s.(handler := Some(handler)))
    else if h.boxType == Code("minf") then Ok(s.(minf := Some(h)))
    else Ok(s)
  }

  function MdiaVisitor(data: bytes): (BoxHeader, MdiaSlots) -> Result<MdiaSlots> {
    (h, s) => MdiaVisit(data, h, s)
  }

  datatype MdiaData = MdiaData(handler: FourCC, timescale: u32, stbl: StblData)

  function MdiaResult(data: bytes, s: MdiaSlots): Result<MdiaData> {
    var timescale :- Required(s.mdhd);
    var handler :- Required(s.handler);
    var minf :- Required(s.minf);
    var stbl :- StblIn(data, minf.PayloadOffset(), minf.End());
    var stblData :- Stbl(data, stbl, handler);
    Ok(MdiaData(handler, timescale, stblData))
  }

  function Mdia(data: bytes, mdia: BoxHeader): Result<MdiaData> {
    var slots :- Fold(data, mdia.PayloadOffset(), mdia.End(), NO_MDIA, MdiaVisitor(data));
    MdiaResult(data, slots)
  }

  method MdiaChild(src: Source, h: BoxHeader, s: MdiaSlots) returns (r: Result<MdiaSlots>)
    ensures r == MdiaVisit(src.data, h, s)
  {
    hide Code, MdhdTimescale, HdlrType;
    if h.boxType == Code("mdhd") {
      var timescale :- ParseMdhdTimescale(src, h);
      return Ok(s.(mdhd := Some(timescale)));
    } else if h.boxType == Code("hdlr") {
      var handler :- ParseHdlrType(src, h);
      return Ok(s.(handler := Some(handler)));
    } else if h.boxType == Code("minf") {
      return Ok(s.(minf := Some(h)));
    }
    return Ok(s);
  }

  method ParseMdia(src: Source, mdia: BoxHeader) returns (r: Result<MdiaData>)
    ensures r == Mdia(src.data, mdia)
  {
    hide MdiaVisit, Stbl, StblIn;
    var slots := NO_MDIA;
    ghost var all := Fold(src.data, mdia.PayloadOffset(), mdia.End(), NO_MDIA, MdiaVisitor(src.data));
    var iter := new BoxIter(src, mdia.PayloadOffset(), mdia.End());
    while true
      invariant iter.reader == src && iter.end == mdia.End()
      invariant Fold(src.data, iter.cursor, mdia.End(), slots, MdiaVisitor(src.data)) == all
      decreases mdia.End() - iter.cursor
    {
      var next :- iter.NextHeader();
      if next.None? {
        break;
      }
      slots :- MdiaChild(src, next.value, slots);
    }
    var timescale :- Required(slots.mdhd);
    var handler :- Required(slots.handler);
    var minf :- Required(slots.minf);
    var stbl :- LocateStbl(src, minf);
    var stblData :- ParseStbl(src, stbl, handler);
    return Ok(MdiaData(handler, timescale, stblData));
  }

  // ---------- trak ----------

  datatype TrakSlots = TrakSlots(tkhd: Option<TkhdInfo>, mdia: Option<BoxHeader>, elst: Option<ByteRange>)

  const NO_TRAK := TrakSlots(None, None, None)

  /** The edit list is remembered as the whole `edts` box, header included. */
  function TrakVisit(data: bytes, h: BoxHeader, s: TrakSlots): Result<TrakSlots> {
    if h.boxType == Code("tkhd") then
      var tkhd :- Tkhd(data, h);
      Ok(s.(tkhd := Some(tkhd)))
    else if h.boxType == Code("mdia") then Ok(s.(mdia := Some(h)))
    else if h.boxType == Code("edts") then Ok(s.(elst := Some(ByteRange(h.start, h.declaredSize))))
    else Ok(s)
  }

  function TrakVisitor(data: bytes): (BoxHeader, TrakSlots) -> Result<TrakSlots> {
    (h, s) => TrakVisit(data, h, s)
  }

  /** Only video tracks have a size. */
  function TrakResult(data: bytes, s: TrakSlots): Result<UnclassifiedTrack> {
    var tkhd :- Required(s.tkhd);
    var mdia :- Required(s.mdia);
    var m :- Mdia(data, mdia);
    var size := if m.handler == HANDLER_VIDEO then tkhd else TkhdInfo(0, 0);
    Ok(UnclassifiedTrack(m.handler,
                         ParsedTrack(m.timescale, m.stbl.entry.fourcc, size.width, size.height, m.stbl.entry.sampleRate,
                                     m.stbl.entry.channelCount, m.stbl.entry.sampleEntry, s.elst, m.stbl.locs)))
  }

  function Trak(data: bytes, trak: BoxHeader): Result<UnclassifiedTrack> {
    var slots :- Fold(data, trak.PayloadOffset(), trak.End(), NO_TRAK, TrakVisitor(data));
    TrakResult(data, slots)
  }

  method TrakChild(src: Source, h: BoxHeader, s: TrakSlots) returns (r: Result<TrakSlots>)
    ensures r == TrakVisit(src.data, h, s)
  {
    hide Code, Tkhd;
    if h.boxType == Code("tkhd") {
      var tkhd :- ParseTkhd(src, h);
      return Ok(s.(tkhd := Some(tkhd)));
    } else if h.boxType == Code("mdia") {
      return Ok(s.(mdia := Some(h)));
    } else if h.boxType == Code("edts") {
      return Ok(s.(elst := Some(ByteRange(h.start, h.declaredSize))));
    }
    return Ok(s);
  }

  method ParseTrak(src: Source, trak: BoxHeader) returns (r: Result<UnclassifiedTrack>)
    ensures r == Trak(src.data, trak)
  {
    hide TrakVisit, Mdia, Code;
    var slots := NO_TRAK;
    ghost var all := Fold(src.data, trak.PayloadOffset(), trak.End(), NO_TRAK, TrakVisitor(src.data));
    var iter := new BoxIter(src, trak.PayloadOffset(), trak.End());
    while true
      invariant iter.reader == src && iter.end == trak.End()
      invariant Fold(src.data, iter.cursor, trak.End(), slots, TrakVisitor(src.data)) == all
      decreases trak.End() - iter.cursor
    {
      var next :- iter.NextHeader();
      if next.None? {
        break;
      }
      slots :- TrakChild(src, next.value, slots);
    }
    var tkhd :- Required(slots.tkhd);
    var mdia :- Required(slots.mdia);
    var m :- ParseMdia(src, mdia);
    var size := if m.handler == HANDLER_VIDEO then tkhd else TkhdInfo(0, 0);
    return Ok(UnclassifiedTrack(m.handler,
                                ParsedTrack(m.timescale, m.stbl.entry.fourcc, size.width, size.height,
                                            m.stbl.entry.sampleRate, m.stbl.entry.channelCount,
                                            m.stbl.entry.sampleEntry, slots.elst, m.stbl.locs)));
  }

  // ---------- The whole file ----------

  datatype TopSlots = TopSlots(ftypSeen: bool, moov: Option<BoxHeader>)

  const NO_TOP := TopSlots(false, None)

  ghost function TopVisit(data: bytes, h: BoxHeader, s: TopSlots): Result<TopSlots> {
    if h.boxType == Code("ftyp") then
      var checked :- Ftyp(data, h);
      Ok(s.(ftypSeen := true))
    else if h.boxType == Code("moov") then
      if s.moov.Some? then Err(MalformedAtom) else Ok(s.(moov := Some(h)))
    else if h.boxType == Code("moof") then Err(FragmentedInput)
    else if EncryptionMarker(h.boxType) then Err(EncryptedInput)
    else Ok(s)
  }

  ghost function TopVisitor(data: bytes): (BoxHeader, TopSlots) -> Result<TopSlots> {
    (h, s) => TopVisit(data, h, s)
  }

  method TopChild(src: Source, h: BoxHeader, s: TopSlots) returns (r: Result<TopSlots>)
    ensures r == TopVisit(src.data, h, s)
  {
    hide Code, Ftyp, EncryptionMarker;
    if h.boxType == Code("ftyp") {
      var _ :- CheckFtyp(src, h);
      return Ok(s.(ftypSeen := true));
    } else if h.boxType == Code("moov") {
      if s.moov.Some? {
        return Err(MalformedAtom);
      }
      return Ok(s.(moov := Some(h)));
    } else if h.boxType == Code("moof") {
      return Err(FragmentedInput);
    } else if EncryptionMarker(h.boxType) {
      return Err(EncryptedInput);
    }
    return Ok(s);
  }

  method ScanTop(src: Source, sourceLen: nat) returns (r: Result<TopSlots>)
    ensures r == Fold(src.data, 0, sourceLen, NO_TOP, TopVisitor(src.data))
  {
    hide TopVisit;
    var slots := NO_TOP;
    var iter := new BoxIter(src, 0, sourceLen);
    while true
      invariant iter.reader == src && iter.end == sourceLen
      invariant Fold(src.data, iter.cursor, sourceLen, slots, TopVisitor(src.data))
                == Fold(src.data, 0, sourceLen, NO_TOP, TopVisitor(src.data))
      decreases sourceLen - iter.cursor
    {
      var next :- iter.NextHeader();
      if next.None? {
        return Ok(slots);
      }
      slots :- TopChild(src, next.value, slots);
    }
  }

  function TracksVisit(data: bytes, h: BoxHeader, ts: seq<UnclassifiedTrack>): Result<seq<UnclassifiedTrack>> {
    if h.boxType == Code("trak") then
      var t :- Trak(data, h);
      Ok(ts + [t])
    else Ok(ts)
  }

  function TracksVisitor(data: bytes): (BoxHeader, seq<UnclassifiedTrack>) -> Result<seq<UnclassifiedTrack>> {
    (h, s) => TracksVisit(data, h, s)
  }

  method ParseTracks(src: Source, moov: BoxHeader) returns (r: Result<seq<UnclassifiedTrack>>)
    ensures r == Fold(src.data, moov.PayloadOffset(), moov.End(), [], TracksVisitor(src.data))
  {
    hide Trak, Code;
    var tracks: seq<UnclassifiedTrack> := [];
    ghost var none: seq<UnclassifiedTrack> := [];
    var iter := new BoxIter(src, moov.PayloadOffset(), moov.End());
    while true
      invariant iter.reader == src && iter.end == moov.End()
      invariant Fold(src.data, iter.cursor, moov.End(), tracks, TracksVisitor(src.data))
                == Fold(src.data, moov.PayloadOffset(), moov.End(), none, TracksVisitor(src.data))
      decreases moov.End() - iter.cursor
    {
      var next :- iter.NextHeader();
      if next.None? {
        return Ok(tracks);
      }
      if next.value.boxType == Code("trak") {
        var t :- ParseTrak(src, next.value);
        tracks := tracks + [t];
      }
    }
  }

  /** The tracks of one kind, in order. */
  function OfHandler(ts: seq<UnclassifiedTrack>, handler: FourCC): seq<ParsedTrack> {
    if |ts| == 0 then []
    else OfHandler(ts[..|ts| - 1], handler) + if ts[|ts| - 1].handler == handler then [ts[|ts| - 1].track] else []
  }

  /** Exactly one video track and one audio track, and no other. */
  function Classified(ts: seq<UnclassifiedTrack>): Result<MoovParse> {
    var video, audio := OfHandler(ts, HANDLER_VIDEO), OfHandler(ts, HANDLER_AUDIO);
    if |ts| == 2 && |video| == 1 && |audio| == 1 then Ok(MoovParse(video[0], audio[0]))
    else Err(UnsupportedTrackLayout(|video|, |audio|))
  }

  method ClassifyTracks(ts: seq<UnclassifiedTrack>) returns (r: Result<MoovParse>)
    ensures r == Classified(ts)
  {
    HandlersDiffer();
    hide Code;
    var video: Option<ParsedTrack>, audio: Option<ParsedTrack> := None, None;
    var videoCount, audioCount := 0, 0;
    for i := 0 to |ts|
      invariant videoCount == |OfHandler(ts[..i], HANDLER_VIDEO)| && audioCount == |OfHandler(ts[..i], HANDLER_AUDIO)|
      invariant video == if videoCount == 0 then None else Some(OfHandler(ts[..i], HANDLER_VIDEO)[0])
      invariant audio == if audioCount == 0 then None else Some(OfHandler(ts[..i], HANDLER_AUDIO)[0])
    {
      assert ts[..i + 1][..i] == ts[..i];
      if ts[i].handler == HANDLER_VIDEO {
        videoCount := videoCount + 1;
        if video.None? {
          video := Some(ts[i].track);
        }
      } else if ts[i].handler == HANDLER_AUDIO {
        audioCount := audioCount + 1;
        if audio.None? {
          audio := Some(ts[i].track);
        }
      }
    }
    assert ts[..|ts|] == ts;
    if video.Some? && audio.Some? && |ts| == 2 && videoCount == 1 && audioCount == 1 {
      return Ok(MoovParse(video.value, audio.value));
    }
    return Err(UnsupportedTrackLayout(videoCount, audioCount));
  }

  lemma HandlersDiffer()
    ensures HANDLER_VIDEO != HANDLER_AUDIO
  {
    CodesDiffer("vide", "soun");
  }

  /** What parsing the file gives. */
  ghost function Parsed(data: bytes, sourceLen: nat): Result<MoovParse> {
    var top :- Fold(data, 0, sourceLen, NO_TOP, TopVisitor(data));
    if !top.ftypSeen then Err(MissingAtom)
    else
      var moov :- Required(top.moov);
      var tracks :- Fold(data, moov.PayloadOffset(), moov.End(), [], TracksVisitor(data));
      Classified(tracks)
  }

  method ParseTopLevel(src: Source, sourceLen: nat) returns (r: Result<MoovParse>)
    ensures r == Parsed(src.data, sourceLen)
  {
    hide Classified;
    var top :- ScanTop(src, sourceLen);
    if !top.ftypSeen {
      return Err(MissingAtom);
    }
    var moov :- Required(top.moov);
    var tracks :- ParseTracks(src, moov);
    r := ClassifyTracks(tracks);
  }
}
