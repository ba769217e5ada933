/** An init segment demuxes to the tracks it was written for. */
module InitLaws {
  import opened Boxes
  import opened BoxFolds
  import opened BoxReader
  import opened Bytes
  import opened Format
  import opened Sources
  import opened Wrappers
  import Moov

  // ---------- What a blob is, wherever it lies ----------

  /** One box that fills the blob. */
  predicate IsBox(blob: bytes, h: BoxHeader) {
    IsHeader(blob, h, |blob|) && h.start == 0 && h.End() == |blob|
  }

  /** A sample entry that the demuxer takes for this handler, with these fields. */
  ghost predicate EntryBox(blob: bytes, handler: FourCC, fourcc: FourCC, sampleRate: u32, channelCount: byte) {
    exists h :: IsBox(blob, h) && h.boxType == fourcc
        && Moov.EntryFields(blob, h, handler) == Ok((sampleRate, channelCount))
  }

  ghost predicate EditBox(blob: bytes) {
    exists h :: IsBox(blob, h) && h.boxType == Code("edts")
  }

  /** The box states its own size instead of reaching to the end of its container. */
  predicate StatesSize(blob: bytes) {
    |blob| >= 4 ==> U32At(blob, 0) != 0
  }

  /** A box that ends inside its container reads the same when the container ends with it. */
  lemma OwnContainer(data: bytes, h: BoxHeader, end: nat)
    requires IsHeader(data, h, end)
    ensures IsHeader(data, h, h.End())
  {
    hide ReadBe, Code;
  }

  lemma SliceIsSame(data: bytes, offset: nat, len: nat)
    requires offset + len <= |data|
    ensures SameBytes(data, offset, data[offset..offset + len], 0, len)
  {
    assert data[offset..offset + len][0..0 + len] == data[offset..offset + len];
  }

  lemma BoxMoves(here: bytes, h: BoxHeader, there: bytes, q: nat)
    requires IsHeader(here, h, h.End()) && SameBytes(here, h.start, there, q, h.declaredSize)
    ensures IsHeader(there, Moved(h, q), q + h.declaredSize)
  {
    hide HeaderAt, Code;
    HeaderMoves(here, h.start, there, q, h.declaredSize);
  }

  // ---------- Reading a sample entry does not depend on its place ----------

  lemma {:induction false} MarkersMove(here: bytes, p: nat, there: bytes, q: nat, n: nat)
    requires SameBytes(here, p, there, q, n)
    ensures Fold(there, q, q + n, (), Moov.RefuseMarkers()) == Fold(here, p, p + n, (), Moov.RefuseMarkers())
    decreases n
  {
    hide First, HeaderAt, Code, Moov.EncryptionMarker;
    FirstMoves(here, p, there, q, n);
    var first := First(here, p, p + n);
    if first.Ok? && first.value.Some? {
      var h := first.value.value;
      SamePart(here, p, there, q, n, h.End() - p, p + n - h.End());
      MarkersMove(here, h.End(), there, q + (h.End() - p), p + n - h.End());
    }
  }

  lemma NoEncryptionMoves(here: bytes, h: BoxHeader, there: bytes, q: nat, audio: bool)
    requires h.headerSize <= h.declaredSize && SameBytes(here, h.start, there, q, h.declaredSize)
    ensures Moov.NoEncryption(there, Moved(h, q), audio) == Moov.NoEncryption(here, h, audio)
  {
    hide Fold;
    var skip := h.headerSize + Moov.EntryPrefix(audio);
    if h.PayloadLen() > Moov.EntryPrefix(audio) {
      SamePart(here, h.start, there, q, h.declaredSize, skip, h.declaredSize - skip);
      MarkersMove(here, h.start + skip, there, q + skip, h.declaredSize - skip);
    }
  }

  lemma AudioEntryMoves(here: bytes, h: BoxHeader, there: bytes, q: nat)
    requires h.headerSize <= h.declaredSize && SameBytes(here, h.start, there, q, h.declaredSize)
    ensures Moov.AudioEntry(there, Moved(h, q)) == Moov.AudioEntry(here, h)
  {
    hide ReadBe;
    if h.PayloadLen() >= 28 {
      SamePart(here, h.start, there, q, h.declaredSize, h.headerSize, 28);
    }
  }

  lemma EntryFieldsMove(here: bytes, h: BoxHeader, there: bytes, q: nat, handler: FourCC)
    requires h.headerSize <= h.declaredSize && SameBytes(here, h.start, there, q, h.declaredSize)
    ensures Moov.EntryFields(there, Moved(h, q), handler) == Moov.EntryFields(here, h, handler)
  {
    hide Moov.NoEncryption, Moov.AudioEntry, Code;
    NoEncryptionMoves(here, h, there, q, false);
    NoEncryptionMoves(here, h, there, q, true);
    AudioEntryMoves(here, h, there, q);
  }

  // ---------- What the demuxer reports ----------

  /** Both blobs of the track can be read. */
  predicate BlobsReadable(data: bytes, t: Moov.ParsedTrack) {
    InFile(data, t.sampleEntry) && (t.elst.Some? ==> InFile(data, t.elst.value))
  }

  /** The edit list, or nothing. */
  function ElstOf(data: bytes, t: Moov.ParsedTrack): bytes
    requires BlobsReadable(data, t)
  {
    if t.elst.Some? then Blob(data, t.elst.value) else []
  }

  function VideoMetaOf(data: bytes, t: Moov.ParsedTrack): VideoTrackMeta
    requires BlobsReadable(data, t)
  {
    VideoTrackMeta(t.timescale, t.fourcc, t.width, t.height, Blob(data, t.sampleEntry), ElstOf(data, t))
  }

  function AudioMetaOf(data: bytes, t: Moov.ParsedTrack): AudioTrackMeta
    requires BlobsReadable(data, t)
  {
    AudioTrackMeta(t.timescale, t.fourcc, t.sampleRate, t.channelCount, Blob(data, t.sampleEntry), ElstOf(data, t))
  }

  lemma EntryIsBox(data: bytes, stsd: BoxHeader, handler: FourCC)
    requires Moov.StsdEntry(data, stsd, handler).Ok?
    requires InFile(data, Moov.StsdEntry(data, stsd, handler).value.sampleEntry)
    ensures var e := Moov.StsdEntry(data, stsd, handler).value;
            EntryBox(Blob(data, e.sampleEntry), handler, e.fourcc, e.sampleRate, e.channelCount)
  {
    hide HeaderAt, Code, Moov.EntryFields;
    var e := Moov.StsdEntry(data, stsd, handler).value;
    var h := First(data, stsd.PayloadOffset() + 8, stsd.End()).value.value;
    var blob := Blob(data, e.sampleEntry);
    SliceIsSame(data, h.start, h.declaredSize);
    BoxMoves(data, h, blob, 0);
    EntryFieldsMove(data, h, blob, 0, handler);
    assert IsBox(blob, Moved(h, 0));
  }

  /** Slots of a track whose edit list, if any, is the header of a real box. */
  ghost predicate SlotsFrom(data: bytes, s: Moov.TrakSlots, end: nat) {
    && (s.tkhd.Some? ==> s.tkhd.value.width <= 0xFFFF && s.tkhd.value.height <= 0xFFFF)
    && (s.elst.Some? ==> exists h :: IsHeader(data, h, end) && h.boxType == Code("edts")
                                     && s.elst.value == ByteRange(h.start, h.declaredSize))
  }

  lemma {:induction false} SlotsKept(data: bytes, trak: BoxHeader)
    ensures var slots := Fold(data, trak.PayloadOffset(), trak.End(), Moov.NO_TRAK, Moov.TrakVisitor(data));
            slots.Ok? ==> SlotsFrom(data, slots.value, trak.End())
  {
    var end := trak.End();
    var inv := (s: Moov.TrakSlots) => SlotsFrom(data, s, end);
    forall h: BoxHeader, t: Moov.TrakSlots | inv(t) && IsHeader(data, h, end) && Moov.TrakVisitor(data)(h, t).Ok?
      ensures inv(Moov.TrakVisitor(data)(h, t).value)
    {
      VisitKeeps(data, h, t, end);
    }
    FoldKeeps(data, trak.PayloadOffset(), end, Moov.NO_TRAK, Moov.TrakVisitor(data), inv);
  }

  lemma VisitKeeps(data: bytes, h: BoxHeader, s: Moov.TrakSlots, end: nat)
    requires SlotsFrom(data, s, end) && IsHeader(data, h, end) && Moov.TrakVisit(data, h, s).Ok?
    ensures SlotsFrom(data, Moov.TrakVisit(data, h, s).value, end)
  {
    hide HeaderAt, Moov.Tkhd;
  }

  /** What every reported track is known to be. */
  ghost predicate TrackFacts(data: bytes, u: Moov.UnclassifiedTrack) {
    && u.track.width <= 0xFFFF && u.track.height <= 0xFFFF
    && (BlobsReadable(data, u.track) ==>
          && EntryBox(Blob(data, u.track.sampleEntry), u.handler, u.track.fourcc, u.track.sampleRate,
              u.track.channelCount)
          && (u.track.elst.Some? ==> EditBox(Blob(data, u.track.elst.value))))
  }

  lemma EditIsBox(data: bytes, h: BoxHeader, end: nat)
    requires IsHeader(data, h, end) && h.boxType == Code("edts")
    requires InFile(data, ByteRange(h.start, h.declaredSize))
    ensures EditBox(Blob(data, ByteRange(h.start, h.declaredSize)))
  {
    hide HeaderAt, Code;
    OwnContainer(data, h, end);
    SliceIsSame(data, h.start, h.declaredSize);
    BoxMoves(data, h, data[h.start..h.End()], 0);
    assert IsBox(data[h.start..h.End()], Moved(h, 0));
  }

  /** The sample entry of a track comes from some sample description box. */
  lemma EntryOfMdia(data: bytes, mdia: BoxHeader) returns (stsd: BoxHeader)
    requires Moov.Mdia(data, mdia).Ok?
    ensures Moov.StsdEntry(data, stsd, Moov.Mdia(data, mdia).value.handler)
            == Ok(Moov.Mdia(data, mdia).value.stbl.entry)
  {
    hide Fold, Moov.StsdEntry, Moov.StblIn;
    var slots := Fold(data, mdia.PayloadOffset(), mdia.End(), Moov.NO_MDIA, Moov.MdiaVisitor(data)).value;
    var minf := slots.minf.value;
    var stbl := Moov.StblIn(data, minf.PayloadOffset(), minf.End()).value;
    stsd := Fold(data, stbl.PayloadOffset(), stbl.End(), Moov.NO_STBL, Moov.StblVisitor(data)).value.stsd.value;
  }

  lemma TrakFacts(data: bytes, trak: BoxHeader)
    requires Moov.Trak(data, trak).Ok?
    ensures TrackFacts(data, Moov.Trak(data, trak).value)
  {
    hide IsHeader, EntryBox, EditBox, Moov.StsdEntry, Moov.Mdia, Fold, Code;
    var u := Moov.Trak(data, trak).value;
    SlotsKept(data, trak);
    var slots := Fold(data, trak.PayloadOffset(), trak.End(), Moov.NO_TRAK, Moov.TrakVisitor(data)).value;
    if BlobsReadable(data, u.track) {
      var stsd := EntryOfMdia(data, slots.mdia.value);
      EntryIsBox(data, stsd, u.handler);
      if u.track.elst.Some? {
        var h :| IsHeader(data, h, trak.End()) && h.boxType == Code("edts")
                 && u.track.elst.value == ByteRange(h.start, h.declaredSize);
        EditIsBox(data, h, trak.End());
      }
    }
  }

  ghost predicate AllFacts(data: bytes, ts: seq<Moov.UnclassifiedTrack>) {
    forall i :: 0 <= i < |ts| ==> TrackFacts(data, ts[i])
  }

  lemma {:induction false} TracksKept(data: bytes, pos: nat, end: nat)
    ensures var ts := Fold(data, pos, end, [], Moov.TracksVisitor(data));
            ts.Ok? ==> AllFacts(data, ts.value)
  {
    hide TrackFacts, Moov.Trak, HeaderAt;
    var inv := (ts: seq<Moov.UnclassifiedTrack>) => AllFacts(data, ts);
    var none: seq<Moov.UnclassifiedTrack> := [];
    forall h: BoxHeader, ts: seq<Moov.UnclassifiedTrack>
      | inv(ts) && IsHeader(data, h, end) && Moov.TracksVisitor(data)(h, ts).Ok?
      ensures inv(Moov.TracksVisitor(data)(h, ts).value)
    {
      if h.boxType == Code("trak") {
        TrakFacts(data, h);
      }
    }
    FoldKeeps(data, pos, end, none, Moov.TracksVisitor(data), inv);
  }

  /** The only track of a kind is one of the tracks, and has that kind. */
  lemma {:induction false} OnlyTrack(ts: seq<Moov.UnclassifiedTrack>, handler: FourCC)
    requires |Moov.OfHandler(ts, handler)| > 0
    ensures exists i :: 0 <= i < |ts| && ts[i].handler == handler && ts[i].track == Moov.OfHandler(ts, handler)[0]
  {
    var last := |ts| - 1;
    if |Moov.OfHandler(ts[..last], handler)| > 0 {
      OnlyTrack(ts[..last], handler);
      var i :| 0 <= i < last && ts[..last][i].handler == handler
          && ts[..last][i].track == Moov.OfHandler(ts[..last], handler)[0];
      assert ts[i] == ts[..last][i];
    } else {
      assert ts[last].handler == handler;
    }
  }

  /** What parsing a file says about its two tracks. */
  lemma ParsedFacts(data: bytes, sourceLen: nat)
    requires Moov.Parsed(data, sourceLen).Ok?
    ensures var m := Moov.Parsed(data, sourceLen).value;
            && TrackFacts(data, Moov.UnclassifiedTrack(Moov.HANDLER_VIDEO, m.video))
            && TrackFacts(data, Moov.UnclassifiedTrack(Moov.HANDLER_AUDIO, m.audio))
  {
    hide TrackFacts, Moov.Trak, HeaderAt, Fold, Moov.OfHandler, Code;
    var top := Fold(data, 0, sourceLen, Moov.NO_TOP, Moov.TopVisitor(data)).value;
    var moov := top.moov.value;
    var ts := Fold(data, moov.PayloadOffset(), moov.End(), [], Moov.TracksVisitor(data)).value;
    TracksKept(data, moov.PayloadOffset(), moov.End());
    OnlyTrack(ts, Moov.HANDLER_VIDEO);
    OnlyTrack(ts, Moov.HANDLER_AUDIO);
    var i :| 0 <= i < |ts| && ts[i].handler == Moov.HANDLER_VIDEO
        && ts[i].track == Moov.OfHandler(ts, Moov.HANDLER_VIDEO)[0];
    var j :| 0 <= j < |ts| && ts[j].handler == Moov.HANDLER_AUDIO
        && ts[j].track == Moov.OfHandler(ts, Moov.HANDLER_AUDIO)[0];
    assert ts[i] == Moov.UnclassifiedTrack(Moov.HANDLER_VIDEO, ts[i].track);
    assert ts[j] == Moov.UnclassifiedTrack(Moov.HANDLER_AUDIO, ts[j].track);
  }
}
