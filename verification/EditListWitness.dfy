/**
 A file whose edit list does not state its size: the demuxer takes it, and its init segment is not
 readable any more.
 */
module EditListWitness {
  import opened Boxes
  import opened BoxFolds
  import opened BoxReader
  import opened Bytes
  import opened Format
  import opened InitLaws
  import opened InitRoundTrip
  import opened Sources
  import opened Wrappers
  import Init
  import Moov

  // ---------- Files whose video track ends with its edit list ----------

  /** Track header, media, edit list: the other order from that of the init segment. */
  function TailTrak(t: Init.Track): Plain {
    Plain(Code("trak"), Init.TrackTkhd(t).Encode() + Init.Mdia(t).Encode() + t.Elst())
  }

  function TailMoov(v: VideoTrackMeta, a: AudioTrackMeta): Plain {
    Plain(Code("moov"), EncodeAll([TailTrak(Init.Video(v)), Init.Trak(Init.Audio(a))]))
  }

  function TailFile(v: VideoTrackMeta, a: AudioTrackMeta): bytes {
    EncodeAll([Init.Ftyp(), TailMoov(v, a)])
  }

  /** The parts of such a track. */
  lemma TailParts(out: bytes, h: BoxHeader, t: Init.Track)
    requires PayloadIs(out, h, TailTrak(t).payload)
    ensures var p, q := h.PayloadOffset(), h.PayloadOffset() + 104 + Init.Mdia(t).Size();
            && q + |t.Elst()| == h.End() <= |out|
            && out[p..p + 104] == Init.TrackTkhd(t).Encode()
            && out[p + 104..q] == Init.Mdia(t).Encode()
            && out[q..q + |t.Elst()|] == t.Elst()
  {
    hide Plain.Encode, Init.TrackTkhd, Init.Mdia;
    var a, b, c := Init.TrackTkhd(t).Encode(), Init.Mdia(t).Encode(), t.Elst();
    var p, end := h.PayloadOffset(), h.End();
    Middle(a, b, c);
    SubSlice(out, p, end, 0, |a|);
    SubSlice(out, p, end, |a|, |a| + |b|);
    SubSlice(out, p, end, |a| + |b|, |a| + |b| + |c|);
  }

  /** As the last child an edit list without a size swallows nothing. */
  lemma {:induction false} TailCollects(out: bytes, p: nat, end: nat, t: Init.Track)
    requires p + 104 + Init.Mdia(t).Size() + |t.Elst()| == end <= |out|
    requires out[p..p + 104] == Init.TrackTkhd(t).Encode()
    requires out[p + 104..end - |t.Elst()|] == Init.Mdia(t).Encode() && out[end - |t.Elst()|..end] == t.Elst()
    requires Init.Mdia(t).Sized() && t.Width() <= 0xFFFF && t.Height() <= 0xFFFF
    requires EditBox(t.Elst()) && !StatesSize(t.Elst())
    ensures var m, q := HeaderOf(Init.Mdia(t), p + 104), end - |t.Elst()|;
            && PayloadIs(out, m, EncodeAll(Init.MdiaBoxes(t)))
            && Fold(out, p, end, Moov.NO_TRAK, Moov.TrakVisitor(out))
               == Ok(Moov.TrakSlots(Some(Moov.TkhdInfo(t.Width(), t.Height())), Some(m),
                                    Some(ByteRange(q, |t.Elst()|))))
  {
    hide Code, Fold, EncodeAll, PayloadIs, EditBox, StatesSize, Init.MdiaBoxes, Init.TrackTkhd, Plain.Encode, Moov.Tkhd;
    TrakCodes();
    TrakHead(out, p, end, t);
    var s := Moov.TrakSlots(Some(Moov.TkhdInfo(t.Width(), t.Height())), None, None);
    var m := HeaderOf(Init.Mdia(t), p + 104);
    PlainStep(out, p + 104, end, Init.Mdia(t), s, Moov.TrakVisitor(out));
    EditSwallows(out, end - |t.Elst()|, end, t.Elst(), s.(mdia := Some(m)));
  }

  lemma TailAssembles(out: bytes, p: nat, q: nat, t: Init.Track, e: Moov.SampleEntryInfo)
    requires PayloadIs(out, HeaderOf(Init.Mdia(t), p + 104), EncodeAll(Init.MdiaBoxes(t))) && Init.Mdia(t).Sized()
    requires q + |t.Elst()| <= |out| && out[q..q + |t.Elst()|] == t.Elst() && |t.Elst()| > 0
    requires EntryBox(t.SampleEntry(), t.Handler(), e.fourcc, e.sampleRate, e.channelCount)
    ensures var m, size := HeaderOf(Init.Mdia(t), p + 104), Moov.TkhdInfo(t.Width(), t.Height());
            var s := Moov.TrakSlots(Some(size), Some(m), Some(ByteRange(q, |t.Elst()|)));
            Moov.TrakResult(out, s).Ok? && TrackIs(out, Moov.TrakResult(out, s).value, t, e)
  {
    hide Code, EncodeAll, PayloadIs, EntryBox, Moov.Mdia, Init.MdiaBoxes, Init.Mdia, HeaderOf, EntryIs, TrackIs,
         Moov.TrakResult;
    var m := HeaderOf(Init.Mdia(t), p + 104);
    MdiaReadsBack(out, m, t, e);
    TrackAssembled(out, t, e, Moov.TrakSlots(Some(Moov.TkhdInfo(t.Width(), t.Height())), Some(m),
                                             Some(ByteRange(q, |t.Elst()|))), q);
  }

  lemma MdiaSized(t: Init.Track)
    requires Init.Trak(t).Sized()
    ensures Init.Mdia(t).Sized()
  {
    hide Init.Mdia, Init.Minf, Init.Stbl, Init.Trak;
    Init.TrakSize(t);
  }

  lemma TailTrakReads(out: bytes, h: BoxHeader, t: Init.Track, e: Moov.SampleEntryInfo)
    requires PayloadIs(out, h, TailTrak(t).payload) && Presentable(t, e) && EditBox(t.Elst()) && !StatesSize(t.Elst())
    ensures Moov.Trak(out, h).Ok? && TrackIs(out, Moov.Trak(out, h).value, t, e)
  {
    hide Code, Fold, EncodeAll, PayloadIs, EntryBox, EditBox, StatesSize, Moov.Mdia, Init.MdiaBoxes, Init.Mdia,
         Init.Minf, Init.Stbl, Init.Trak, Init.TrackTkhd, Plain.Encode, Moov.TrakVisitor, HeaderOf, EntryIs, TrackIs,
         Moov.TrakResult, Box, Be32, TailTrak;
    MdiaSized(t);
    TailParts(out, h, t);
    EditThere(t);
    var p, q := h.PayloadOffset(), h.End() - |t.Elst()|;
    TailCollects(out, p, h.End(), t);
    TailAssembles(out, p, q, t, e);
  }

  lemma TailTrakKind(t: Init.Track)
    ensures TailTrak(t).fourcc == Code("trak")
  {}

  lemma TailTracks(out: bytes, h: BoxHeader, v: VideoTrackMeta, a: AudioTrackMeta,
                   ve: Moov.SampleEntryInfo, ae: Moov.SampleEntryInfo)
    requires PayloadIs(out, h, TailMoov(v, a).payload) && TailTrak(Init.Video(v)).Sized()
    requires Presentable(Init.Video(v), ve) && Presentable(Init.Audio(a), ae)
    requires EditBox(v.elst) && !StatesSize(v.elst) && StatesSize(a.elst)
    ensures Tracks(out, h).Ok? && |Tracks(out, h).value| == 2
            && TrackIs(out, Tracks(out, h).value[0], Init.Video(v), ve)
            && TrackIs(out, Tracks(out, h).value[1], Init.Audio(a), ae)
  {
    hide Code, Fold, Holds, EncodeAll, PayloadIs, StatesSize, Presentable, TrackIs, Moov.Trak, Init.Trak, Plain.Encode,
         EditBox, Init.TrackTkhd, Init.Mdia, Plain.Sized;
    TopCodes();
    TailTrakKind(Init.Video(v));
    var bs, visit, none: seq<Moov.UnclassifiedTrack> :=
      [TailTrak(Init.Video(v)), Init.Trak(Init.Audio(a))], Moov.TracksVisitor(out), [];
    Children(out, h, bs);
    PayloadInside(out, h, EncodeAll(bs));
    TrakVisible(Init.Audio(a), ae);
    StepInto(out, h.PayloadOffset(), h.End(), bs, none, visit);
    var h0 := HeaderOf(bs[0], h.PayloadOffset());
    TailTrakReads(out, h0, Init.Video(v), ve);
    var one := none + [Moov.Trak(out, h0).value];
    StepInto(out, h0.End(), h.End(), bs[1..], one, visit);
    var h1 := HeaderOf(bs[1], h0.End());
    TrakReadsBack(out, h1, Init.Audio(a), ae);
    assert bs[1..][1..] == [];
    StepEnd(out, h1.End(), h.End(), one + [Moov.Trak(out, h1).value], visit);
  }

  /** Any such file parses to the metadata it was made of. */
  lemma TailFileParses(v: VideoTrackMeta, a: AudioTrackMeta, ve: Moov.SampleEntryInfo, ae: Moov.SampleEntryInfo)
    requires TailMoov(v, a).Sized() && TailTrak(Init.Video(v)).Sized()
    requires ve.fourcc == v.fourcc && ve.sampleRate == 0 && ve.channelCount == 0
    requires ae.fourcc == a.fourcc && ae.sampleRate == a.sampleRate && ae.channelCount == a.channelCount
    requires Presentable(Init.Video(v), ve) && Presentable(Init.Audio(a), ae)
    requires EditBox(v.elst) && !StatesSize(v.elst) && StatesSize(a.elst)
    ensures ParsesTo(TailFile(v, a), |TailFile(v, a)|, (v, a))
  {
    hide Fold, PayloadIs, StatesSize, EditBox, Moov.Classified, TailMoov, TailTrak, Init.Ftyp, Code, Presentable,
         EncodeAll, BlobsReadable, Moov.Ftyp;
    var out := TailFile(v, a);
    MoovKind(v, a);
    var moov := TopOf(out, TailMoov(v, a));
    TailTracks(out, moov, v, a, ve, ae);
    ClassifyTwo(Tracks(out, moov).value);
  }

  lemma MoovKind(v: VideoTrackMeta, a: AudioTrackMeta)
    ensures TailMoov(v, a).fourcc == Code("moov")
  {}

  // ---------- One of them ----------

  /** An `edts` box that is nothing but a header with size 0. */
  function OpenEdit(): (b: bytes)
    ensures |b| == 8
  {
    Be32(0) + Code("edts")
  }

  lemma OpenBox(b: bytes, fourcc: FourCC)
    requires |b| == 8 && U32At(b, 0) == 0 && b[4..8] == fourcc && fourcc != Code("uuid")
    ensures IsBox(b, BoxHeader(fourcc, 0, 8, 8))
  {
    hide Code, U32At;
  }

  lemma OpenEditIsBox()
    ensures EditBox(OpenEdit()) && !StatesSize(OpenEdit())
  {
    hide Be32, Code, ReadBe, IsBox;
    TrakCodes();
    Be32ReadBack(0);
    var b := OpenEdit();
    assert b[0..4] == Be32(0) && b[4..8] == Code("edts");
    assert U32At(b, 0) == 0;
    OpenBox(b, Code("edts"));
  }

  /** A sample entry without child boxes. */
  function AvcEntry(): Plain {
    Plain(Code("avc1"), [])
  }

  function AacEntry(): Plain {
    Plain(Code("mp4a"), Moov.AudioFields(Zeros(8), 0, Zeros(6), 2, Zeros(6), 48000, 0))
  }

  lemma PlainIsBox(b: Plain)
    requires b.Sized() && b.fourcc != Code("uuid")
    ensures IsBox(b.Encode(), HeaderOf(b, 0))
    ensures b.Encode()[8..] == b.payload
  {
    hide Plain.Encode, Code, HeaderAt, U32At;
    assert b.Encode()[0..b.Size()] == b.Encode();
    HeaderOfBox(b.Encode(), 0, b.Size(), b);
    BoxFields(b.Encode(), 0, b);
  }

  lemma EntryCodes()
    ensures Code("avc1") != Code("uuid") && Code("mp4a") != Code("uuid")
    ensures Code("avc1") in Moov.VIDEO_FOURCCS && Code("mp4a") in Moov.AUDIO_FOURCCS
    ensures Moov.HANDLER_AUDIO != Moov.HANDLER_VIDEO
  {
    hide Code;
    CodesDiffer("avc1", "uuid");
    CodesDiffer("mp4a", "uuid");
    assert Moov.VIDEO_FOURCCS[0] == Code("avc1") && Moov.AUDIO_FOURCCS[0] == Code("mp4a");
    Moov.HandlersDiffer();
  }

  /** A box whose fields are accepted is a sample entry. */
  lemma PlainIsEntry(b: Plain, handler: FourCC, sampleRate: u32, channelCount: byte)
    requires b.Sized() && b.fourcc != Code("uuid")
    requires Moov.EntryFields(b.Encode(), HeaderOf(b, 0), handler) == Ok((sampleRate, channelCount))
    ensures EntryBox(b.Encode(), handler, b.fourcc, sampleRate, channelCount)
  {
    hide Plain.Encode, Code, Moov.EntryFields, IsBox;
    PlainIsBox(b);
  }

  /** A video entry without room for child boxes. */
  lemma ShortVideoFields(data: bytes, h: BoxHeader)
    requires h.PayloadLen() <= 78 && h.boxType in Moov.VIDEO_FOURCCS
    ensures Moov.EntryFields(data, h, Moov.HANDLER_VIDEO) == Ok((0, 0))
  {
    hide Fold, Code;
  }

  lemma ShortAudioFields(data: bytes, h: BoxHeader)
    requires h.PayloadLen() <= 28 && h.boxType in Moov.AUDIO_FOURCCS
    ensures Moov.EntryFields(data, h, Moov.HANDLER_AUDIO) == Moov.AudioEntry(data, h)
  {
    EntryCodes();
    hide Fold, Code, Moov.AudioEntry;
  }

  lemma AvcIsEntry()
    ensures EntryBox(AvcEntry().Encode(), Moov.HANDLER_VIDEO, Code("avc1"), 0, 0)
  {
    hide Plain.Encode, Code, Moov.EntryFields, EntryBox;
    EntryCodes();
    ShortVideoFields(AvcEntry().Encode(), HeaderOf(AvcEntry(), 0));
    PlainIsEntry(AvcEntry(), Moov.HANDLER_VIDEO, 0, 0);
  }

  lemma AacIsEntry()
    ensures EntryBox(AacEntry().Encode(), Moov.HANDLER_AUDIO, Code("mp4a"), 48000, 2)
  {
    hide Plain.Encode, Code, Moov.AudioFields, Moov.AudioEntry, Moov.EntryFields, EntryBox, IsBox;
    EntryCodes();
    PlainIsBox(AacEntry());
    var blob, h := AacEntry().Encode(), HeaderOf(AacEntry(), 0);
    ShortAudioFields(blob, h);
    assert blob[8..36] == blob[8..] == AacEntry().payload == AacEntry().payload + [];
    Moov.AudioEntryReadsBack(blob, h, Zeros(8), 0, Zeros(6), 2, Zeros(6), 48000, 0, []);
    PlainIsEntry(AacEntry(), Moov.HANDLER_AUDIO, 48000, 2);
  }

  function OpenVideo(): VideoTrackMeta {
    VideoTrackMeta(90000, Code("avc1"), 640, 360, AvcEntry().Encode(), OpenEdit())
  }

  function PlainAudio(): AudioTrackMeta {
    AudioTrackMeta(48000, Code("mp4a"), 48000, 2, AacEntry().Encode(), [])
  }

  lemma WitnessSizes()
    ensures Init.Moov(OpenVideo(), PlainAudio()).Sized() && TailMoov(OpenVideo(), PlainAudio()).Sized()
    ensures TailTrak(Init.Video(OpenVideo())).Sized()
    ensures Init.Trak(Init.Video(OpenVideo())).Sized() && Init.Trak(Init.Audio(PlainAudio())).Sized()
  {
    hide Code, Plain.Encode, Init.Trak, Init.Mdia, Init.Minf, Init.Stbl, Init.Moov, OpenEdit, Moov.AudioFields;
    var v, a := OpenVideo(), PlainAudio();
    Init.MoovSize(v, a);
    Init.TrakSize(Init.Video(v));
    Init.TrakSize(Init.Audio(a));
    var bs := [TailTrak(Init.Video(v)), Init.Trak(Init.Audio(a))];
    Init.EncodeAllSize(bs);
    Init.TwoSizes(bs);
  }

  /** The demuxer takes this file, but not the init segment that is written for it. */
  lemma UnreadableInit() returns (data: bytes, v: VideoTrackMeta, a: AudioTrackMeta)
    ensures ParsesTo(data, |data|, (v, a)) && Init.Moov(v, a).Sized() && !StatesSize(v.elst)
    ensures Moov.Parsed(Init.InitSegment(v, a), |Init.InitSegment(v, a)|) == Err(MissingAtom)
    ensures data == TailFile(v, a) && v == OpenVideo() && a == PlainAudio()
  {
    hide Code, TailFile, TailMoov, TailTrak, Init.Moov, Init.Trak, Init.InitSegment, EditBox, StatesSize, EntryBox,
         Moov.Parsed, ParsesTo, OpenEdit, Plain.Encode, AvcEntry, AacEntry;
    v, a := OpenVideo(), PlainAudio();
    data := TailFile(v, a);
    OpenEditIsBox();
    AvcIsEntry();
    AacIsEntry();
    WitnessSizes();
    NothingStatesSize([]);
    var ve := Moov.SampleEntryInfo(Code("avc1"), ByteRange(0, 0), 0, 0);
    var ae := Moov.SampleEntryInfo(Code("mp4a"), ByteRange(0, 0), 48000, 2);
    TailFileParses(v, a, ve, ae);
    InitReadsBack(data, |data|, v, a);
  }
}
