/** Both directions of the index codec: print then read, and read then print. */
module IdxRoundTrip {
  import opened Boxes
  import opened Bytes
  import opened Format
  import opened Idx
  import opened IdxBuilder
  import opened IdxLaws
  import opened Wrappers

  // ---------- Print, then read ----------

  lemma {:induction false} ImageLength(v: IndexView, kinds: seq<nat>, ps: seq<bytes>)
    requires |v.digest| == 32 && |kinds| == |ps|
    ensures |ImageOf(v, kinds, ps)| == HeaderEnd(|ps|) + |Flatten(ps)|
  {
    hide FixedHeader, Flatten;
    FlattenUniformLength(DirEntries(kinds, ps), SECTION_DIR_ENTRY_LEN);
  }

  /** Section `i` of a printed image, by its offset. */
  lemma ImageSection(v: IndexView, kinds: seq<nat>, ps: seq<bytes>, i: nat)
    requires |v.digest| == 32 && |kinds| == |ps| && i < |ps|
    ensures var b := ImageOf(v, kinds, ps);
            && HeaderEnd(|ps|) <= SectionOffset(ps, i)
            && SectionOffset(ps, i + 1) == SectionOffset(ps, i) + |ps[i]| <= |b|
            && b[SectionOffset(ps, i)..SectionOffset(ps, i + 1)] == ps[i]
            && (i + 1 == |ps| ==> SectionOffset(ps, i + 1) == |b|)
  {
    hide FixedHeader, Flatten;
    ImageLength(v, kinds, ps);
    PieceReadsBack(FixedHeader(v, |ps|) + Flatten(DirEntries(kinds, ps)), ps, i);
  }

  lemma ImageEntry(v: IndexView, kinds: seq<nat>, ps: seq<bytes>, i: nat)
    requires |v.digest| == 32 && |kinds| == |ps| && i < |ps| && kinds[i] <= U32_MAX
    requires |ImageOf(v, kinds, ps)| <= U64_MAX
    ensures HeaderEnd(i + 1) <= |ImageOf(v, kinds, ps)|
    ensures EntryAt(ImageOf(v, kinds, ps), i) == (kinds[i], SectionOffset(ps, i))
    ensures PadZero(ImageOf(v, kinds, ps), i)
  {
    hide FixedHeader, Flatten, DirEntry;
    ImageSection(v, kinds, ps, i);
    EntryReadsBack(FixedHeader(v, |ps|), DirEntries(kinds, ps), Flatten(ps), i, kinds[i], SectionOffset(ps, i));
  }

  lemma ImageFront(v: IndexView, kinds: seq<nat>, ps: seq<bytes>)
    requires |v.digest| == 32 && |kinds| == |ps| && 0 < |ps| <= MAX_SECTIONS
    ensures var b := ImageOf(v, kinds, ps);
            && |b| >= HeaderEnd(|ps|) && b[..4] == Code("HCMI") && U32At(b, 48) == |ps| && CountOk(b)
            && U32At(b, 4) == v.maxSegmentSize && U64At(b, 8) == v.sourceLen && b[16..48] == v.digest
  {
    hide FixedHeader, Flatten, Code;
    ImageLength(v, kinds, ps);
    var entries := Flatten(DirEntries(kinds, ps));
    FixedHeaderReadsBack(v, |ps|, entries + Flatten(ps));
    Assoc(FixedHeader(v, |ps|), entries, Flatten(ps));
  }

  /** Sections that may be looked up by their kind and are laid out on multiples of 8. */
  ghost predicate Printable(kinds: seq<nat>, ps: seq<bytes>) {
    && |kinds| == |ps| && 0 < |ps| <= MAX_SECTIONS
    && (forall i :: 0 <= i < |kinds| ==> kinds[i] <= U32_MAX)
    && (forall i, j :: 0 <= i < j < |kinds| ==> kinds[i] != kinds[j])
    && (forall i :: 0 <= i < |ps| ==> |Flatten(ps[..i])| % 8 == 0)
  }

  ghost predicate NoneEmpty(ps: seq<bytes>) {
    forall i :: 0 <= i < |ps| - 1 ==> |ps[i]| > 0
  }

  /** The directory of a printed image is accepted exactly when no section but the last is empty. */
  lemma ImageDirectory(v: IndexView, kinds: seq<nat>, ps: seq<bytes>)
    requires |v.digest| == 32 && Printable(kinds, ps) && |ImageOf(v, kinds, ps)| <= U64_MAX
    ensures HeaderEnd(|ps|) <= |ImageOf(v, kinds, ps)|
    ensures var b := ImageOf(v, kinds, ps);
            var d := Directory(b, |ps|);
            && (forall i :: 0 <= i < |ps| ==> d[i] == (kinds[i], SectionOffset(ps, i)))
            && (DirectoryOk(b, d) <==> NoneEmpty(ps))
  {
    hide ImageOf, Flatten, EntryAt, PadZero;
    var b := ImageOf(v, kinds, ps);
    ImageLength(v, kinds, ps);
    var d := Directory(b, |ps|);
    forall i | 0 <= i < |ps|
      ensures d[i] == (kinds[i], SectionOffset(ps, i)) && PadZero(b, i)
      ensures d[i].1 % 8 == 0 && d[i].1 <= |b|
      ensures i + 1 < |ps| ==> SectionOffset(ps, i + 1) == SectionOffset(ps, i) + |ps[i]|
    {
      ImageEntry(v, kinds, ps, i);
      ImageSection(v, kinds, ps, i);
      OffsetAligned(ps, i);
    }
    FlattenNothing();
    assert ps[..0] == [];
    if NoneEmpty(ps) {
      forall i | 0 <= i < |ps| - 1
        ensures d[i].1 < d[i + 1].1
      {
        assert |ps[i]| > 0;
      }
    }
    if DirectoryOk(b, d) {
      forall i | 0 <= i < |ps| - 1
        ensures |ps[i]| > 0
      {
        assert d[i].1 < d[i + 1].1;
      }
    }
  }

  /** The directory of a built image names the sections by these numbers, in this order. */
  lemma ImageKinds(host: Endian, v: IndexView, playlist: bytes, i: nat)
    requires |v.digest| == 32 && |Image(host, v, playlist)| <= U64_MAX && i < 7
    ensures |Image(host, v, playlist)| >= 168
    ensures U32At(Image(host, v, playlist), 56 + 16 * i) == [1, 2, 3, 4, 5, 7, 6][i]
  {
    hide ImageOf, Contents, Flatten, U32At, U64At;
    var ps := Pieces(Contents(host, v, playlist));
    ImageLength(v, Kinds(), ps);
    ImageEntry(v, Kinds(), ps, i);
  }

  lemma OffsetAligned(ps: seq<bytes>, i: nat)
    requires i <= |ps| && |Flatten(ps[..i])| % 8 == 0
    ensures SectionOffset(ps, i) % 8 == 0
  {}

  lemma ImageSections(v: IndexView, kinds: seq<nat>, ps: seq<bytes>, d: seq<(u32, u64)>, i: nat)
    requires |v.digest| == 32 && Printable(kinds, ps) && |d| == |ps| && i < |ps|
    requires forall i :: 0 <= i < |ps| ==> d[i] == (kinds[i], SectionOffset(ps, i))
    requires Framed(ImageOf(v, kinds, ps), d)
    ensures SectionAt(ImageOf(v, kinds, ps), d, i) == ps[i]
  {
    hide ImageOf, SectionOffset;
    ImageSection(v, kinds, ps, i);
  }

  lemma ContentsPrintable(host: Endian, v: IndexView, playlist: bytes)
    ensures Printable(Kinds(), Pieces(Contents(host, v, playlist)))
    ensures NoneEmpty(Pieces(Contents(host, v, playlist))) <==> |playlist| > 0
  {
    hide VideoMeta, AudioMeta, TableSection, SampleRows, SegmentRows, Flatten;
    var cs := Contents(host, v, playlist);
    forall i | 0 <= i < 7
      ensures |Flatten(Pieces(cs)[..i])| % 8 == 0
    {
      PiecesAligned(cs, i);
    }
    if |playlist| == 0 {
      assert Pieces(cs)[5] == Padded(playlist);
    }
  }

  /** What reading the printed sections gives. */
  lemma ImageReadsBack(host: Endian, v: IndexView, playlist: bytes, d: seq<(u32, u64)>)
    requires |v.digest| == 32 && Encodable(v) && |d| == 7
    requires var ps := Pieces(Contents(host, v, playlist));
             && Framed(Image(host, v, playlist), d)
             && forall i :: 0 <= i < 7 ==> d[i] == (Kinds()[i], SectionOffset(ps, i))
    ensures |Image(host, v, playlist)| >= HEADER_FIXED_LEN
    ensures ReadSections(host, Image(host, v, playlist), d) == Ok(v.(playlist := Some(Padded(playlist))))
  {
    hide VideoMeta, AudioMeta, TableSection, SampleRows, SegmentRows, Flatten, ImageOf, Code, SectionOfKind,
         SectionOffset, SectionAt, Framed, ParseVideoMeta, ParseAudioMeta, ParseSampleTable, ParseSegmentTable;
    var b, cs := Image(host, v, playlist), Contents(host, v, playlist);
    var ps := Pieces(cs);
    ContentsPrintable(host, v, playlist);
    ImageFront(v, Kinds(), ps);
    forall i | 0 <= i < 7
      ensures SectionAt(b, d, i) == ps[i]
    {
      ImageSections(v, Kinds(), ps, d, i);
    }
    SectionsInOrder(b, d);
    VideoMetaReadsBack(v.video);
    AudioMetaReadsBack(v.audio);
    TablesNeedNoPadding(host, v);
    SampleTableReadsBack(host, v.videoSamples);
    SampleTableReadsBack(host, v.audioSamples);
    SegmentTableReadsBack(host, v.segments);
    assert ps[0] == Padded(cs[0]) && ps[1] == Padded(cs[1]) && ps[2] == Padded(cs[2]) && ps[3] == Padded(cs[3]);
    assert ps[4] == Padded(cs[4]) && ps[5] == Padded(cs[5]) && ps[6] == cs[6];
  }

  /** Rows are multiples of 8 bytes, so no table section is padded. */
  lemma TablesNeedNoPadding(host: Endian, v: IndexView)
    ensures Padded(TableSection(SampleRows(host, v.videoSamples))) == TableSection(SampleRows(host, v.videoSamples))
    ensures Padded(TableSection(SampleRows(host, v.audioSamples))) == TableSection(SampleRows(host, v.audioSamples))
    ensures Padded(TableSection(SegmentRows(host, v.segments))) == TableSection(SegmentRows(host, v.segments))
  {
    TableNeedsNoPadding(SampleRows(host, v.videoSamples), 3);
    TableNeedsNoPadding(SampleRows(host, v.audioSamples), 3);
    TableNeedsNoPadding(SegmentRows(host, v.segments), 4);
  }

  lemma TableNeedsNoPadding(rows: seq<bytes>, words: nat)
    requires Uniform(rows, words * 8)
    ensures Padded(TableSection(rows)) == TableSection(rows)
  {
    hide Be32, Flatten;
    FlattenUniformLength(rows, words * 8);
    WordsOfEight(|rows|, words);
  }

  lemma WordsOfEight(n: nat, words: nat)
    ensures (8 + n * (words * 8)) % 8 == 0
  {
    assert n * (words * 8) == n * words * 8;
    EightTimes(n * words);
  }

  lemma EightTimes(n: nat)
    ensures (8 + n * 8) % 8 == 0
  {}

  /**
   Print, then read: every field comes back, and nothing but the playlist can pick up padding.
   An empty playlist is the one input whose image is refused.
   */
  lemma PrintThenParse(host: Endian, v: IndexView, playlist: bytes)
    requires |v.digest| == 32 && Encodable(v) && |Image(host, v, playlist)| <= U64_MAX
    ensures |playlist| > 0 ==> Parse(host, Image(host, v, playlist)) == Ok(v.(playlist := Some(Padded(playlist))))
    ensures |playlist| == 0 ==> Parse(host, Image(host, v, playlist)) == Err(MalformedIndexDirectory)
  {
    hide VideoMeta, AudioMeta, TableSection, SampleRows, SegmentRows, Flatten, ImageOf, Code, DirectoryOk,
         ReadSections, Contents, Pieces, Framed, CountOk, SectionOffset, EntryAt;
    var b, ps := Image(host, v, playlist), Pieces(Contents(host, v, playlist));
    ContentsPrintable(host, v, playlist);
    ImageFront(v, Kinds(), ps);
    ImageDirectory(v, Kinds(), ps);
    var d := Directory(b, 7);
    if |playlist| > 0 {
      DirectoryFrames(b, d);
      ImageReadsBack(host, v, playlist, d);
    }
  }

  /** The round trip is exact precisely for non-empty playlists whose length is a multiple of 8. */
  lemma RoundTripExact(host: Endian, v: IndexView, playlist: bytes)
    requires |v.digest| == 32 && Encodable(v) && |Image(host, v, playlist)| <= U64_MAX
    ensures Parse(host, Image(host, v, playlist)) == Ok(v.(playlist := Some(playlist)))
            <==> |playlist| > 0 && |playlist| % 8 == 0
  {
    hide Parse, Image;
    PrintThenParse(host, v, playlist);
    if |playlist| > 0 {
      assert v.(playlist := Some(Padded(playlist))).playlist == Some(Padded(playlist));
      assert v.(playlist := Some(playlist)).playlist == Some(playlist);
      assert |playlist| % 8 == 0 ==> Padded(playlist) == playlist;
    }
  }

  // ---------- Read, then print ----------

  lemma FixedHeaderWritesBack(v: IndexView, b: bytes)
    requires |b| >= HEADER_FIXED_LEN && CountOk(b) && b[..4] == Code("HCMI")
    requires v.maxSegmentSize == U32At(b, 4) && v.sourceLen == U64At(b, 8) && v.digest == b[16..48]
    ensures FixedHeader(v, U32At(b, 48)) == b[..HEADER_FIXED_LEN]
  {
    hide Be32, Be64, Code;
    WordWritesBack(b, 4);
    LongWritesBack(b, 8);
    WordWritesBack(b, 48);
    WordWritesBack(b, 52);
    assert b[..56] == b[..4] + b[4..8] + b[8..16] + b[16..48] + b[48..52] + b[52..56];
  }

  lemma EntryWritesBack(b: bytes, i: nat)
    requires HeaderEnd(i + 1) <= |b| && PadZero(b, i)
    ensures DirEntry(EntryAt(b, i).0, EntryAt(b, i).1) == b[HeaderEnd(i)..HeaderEnd(i + 1)]
  {
    hide Be32, Be64;
    var pos := HeaderEnd(i);
    WordWritesBack(b, pos);
    WordWritesBack(b, pos + 4);
    LongWritesBack(b, pos + 8);
    assert b[pos..pos + 16] == b[pos..pos + 4] + b[pos + 4..pos + 8] + b[pos + 8..pos + 16];
  }

  lemma {:induction false} EntriesTile(b: bytes, entries: seq<bytes>, i: nat)
    requires i <= |entries| && HeaderEnd(|entries|) <= |b|
    requires forall j :: 0 <= j < |entries| ==> entries[j] == b[HeaderEnd(j)..HeaderEnd(j + 1)]
    ensures Flatten(entries[..i]) == b[HEADER_FIXED_LEN..HeaderEnd(i)]
    decreases i
  {
    hide Flatten;
    if i == 0 {
      FlattenNothing();
      assert entries[..0] == [];
    } else {
      EntriesTile(b, entries, i - 1);
      FlattenPiece(entries, i - 1);
      assert b[HEADER_FIXED_LEN..HeaderEnd(i - 1)] + b[HeaderEnd(i - 1)..HeaderEnd(i)]
          == b[HEADER_FIXED_LEN..HeaderEnd(i)];
    }
  }

  /** Sections other than the last of an accepted image end where an aligned one starts. */
  lemma SectionAligned(b: bytes, d: seq<(u32, u64)>, i: nat)
    requires Framed(b, d) && i + 1 < |d| && forall k :: 0 <= k < |d| ==> d[k].1 % 8 == 0
    ensures |SectionAt(b, d, i)| % 8 == 0
  {
    assert d[i].1 % 8 == 0 && d[i + 1].1 % 8 == 0;
  }

  lemma TablesPrintBack(host: Endian, v: IndexView, video: bytes, audio: bytes, segments: bytes)
    requires ParseSampleTable(host, video) == Ok(v.videoSamples)
    requires ParseSampleTable(host, audio) == Ok(v.audioSamples)
    requires ParseSegmentTable(host, segments) == Ok(v.segments)
    ensures Padded(TableSection(SampleRows(host, v.videoSamples))) == video
    ensures Padded(TableSection(SampleRows(host, v.audioSamples))) == audio
    ensures Padded(TableSection(SegmentRows(host, v.segments))) == segments
  {
    hide TableSection, SampleRows, SegmentRows, ParseSampleTable, ParseSegmentTable;
    SampleTableWritesBack(host, video);
    SampleTableWritesBack(host, audio);
    SegmentTableWritesBack(host, segments);
    TablesNeedNoPadding(host, v);
  }

  /** The sections of an accepted image in builder order are exactly the printed sections of its view. */
  lemma SectionsPrintBack(host: Endian, b: bytes, d: seq<(u32, u64)>)
    requires |b| >= HEADER_FIXED_LEN && Framed(b, d) && BuilderOrder(d)
    requires forall k :: 0 <= k < |d| ==> d[k].1 % 8 == 0
    requires ReadSections(host, b, d).Ok?
    ensures var v := ReadSections(host, b, d).value;
            v.playlist.Some? && SectionsFrom(b, d) == Pieces(Contents(host, v, v.playlist.value))
  {
    hide VideoMeta, AudioMeta, TableSection, SampleRows, SegmentRows, SectionOfKind, SectionAt, Framed,
         ParseVideoMeta, ParseAudioMeta, ParseSampleTable, ParseSegmentTable, Padded;
    SectionsInOrder(b, d);
    var v, ss := ReadSections(host, b, d).value, SectionsFrom(b, d);
    forall i | 0 <= i < 6
      ensures |ss[i]| % 8 == 0
    {
      SectionAligned(b, d, i);
    }
    VideoMetaWritesBack(ss[0]);
    AudioMetaWritesBack(ss[1]);
    TablesPrintBack(host, v, ss[2], ss[3], ss[4]);
    AlignedNeedsNoPadding(ss[5]);
    var ps := Pieces(Contents(host, v, v.playlist.value));
    assert ps[0] == ss[0] && ps[1] == ss[1] && ps[2] == ss[2] && ps[3] == ss[3] && ps[4] == ss[4];
    assert ps[5] == ss[5] && ps[6] == ss[6];
  }

  lemma AlignedNeedsNoPadding(b: bytes)
    requires |b| % 8 == 0
    ensures Padded(b) == b
  {}

  /** The directory that is printed for the sections of an accepted image is its own. */
  lemma EntriesPrintBack(b: bytes, d: seq<(u32, u64)>)
    requires |b| >= HEADER_FIXED_LEN && CountOk(b)
    requires d == Directory(b, U32At(b, 48)) && DirectoryOk(b, d) && Framed(b, d) && BuilderOrder(d)
    ensures Flatten(DirEntries(Kinds(), SectionsFrom(b, d))) == b[HEADER_FIXED_LEN..HeaderEnd(7)]
  {
    hide DirEntry, EntryAt, PadZero, Flatten, SectionAt;
    var ps := SectionsFrom(b, d);
    var entries := DirEntries(Kinds(), ps);
    forall i | 0 <= i < 7
      ensures entries[i] == b[HeaderEnd(i)..HeaderEnd(i + 1)]
    {
      SectionsTile(b, d, i);
      assert SectionOffset(ps, i) == d[i].1;
      EntryWritesBack(b, i);
    }
    EntriesTile(b, entries, 7);
    assert entries[..7] == entries;
  }

  lemma ThreeCuts(b: bytes, i: nat, j: nat)
    requires i <= j <= |b|
    ensures b[..i] + b[i..j] + b[j..] == b
  {}

  /** An accepted image whose sections are these is the image printed with them. */
  lemma ImagePrintsBack(v: IndexView, b: bytes, d: seq<(u32, u64)>)
    requires |b| >= HEADER_FIXED_LEN && CountOk(b) && b[..4] == Code("HCMI")
    requires d == Directory(b, U32At(b, 48)) && DirectoryOk(b, d) && Framed(b, d) && BuilderOrder(d)
    requires v.maxSegmentSize == U32At(b, 4) && v.sourceLen == U64At(b, 8) && v.digest == b[16..48]
    ensures ImageOf(v, Kinds(), SectionsFrom(b, d)) == b
  {
    hide FixedHeader, DirEntries, EntryAt, PadZero, Flatten, Code, SectionAt;
    var ps := SectionsFrom(b, d);
    FixedHeaderWritesBack(v, b);
    EntriesPrintBack(b, d);
    SectionsTile(b, d, 6);
    assert ps[..7] == ps;
    assert Flatten(ps) == b[HeaderEnd(7)..];
    ThreeCuts(b, HEADER_FIXED_LEN, HeaderEnd(7));
  }

  /** Printing the view of this image, with the playlist found in it, gives the image back. */
  ghost predicate PrintsBack(host: Endian, b: bytes)
    requires Parse(host, b).Ok?
  {
    var v := Parse(host, b).value;
    |v.digest| == 32 && v.playlist.Some? && Image(host, v, v.playlist.value) == b
  }

  /**
   Validation is tight: an accepted image prints back byte for byte exactly when its sections are in
   the builder's order. Every padding byte, padding word, length and offset of it was forced.
   */
  lemma ParseThenPrint(host: Endian, b: bytes)
    requires Parse(host, b).Ok? && |b| <= U64_MAX
    ensures PrintsBack(host, b) <==> BuilderOrder(Directory(b, U32At(b, 48)))
  {
    hide ReadSections, Contents, Pieces, ImageOf, Code, EntryAt, PadZero, Framed, BuilderOrder, SectionsFrom;
    var d, v := Directory(b, U32At(b, 48)), Parse(host, b).value;
    DirectoryFrames(b, d);
    if BuilderOrder(d) {
      SectionsPrintBack(host, b, d);
      ReadFields(host, b, d);
      ImagePrintsBack(v, b, d);
    }
    if PrintsBack(host, b) {
      PrintedInOrder(host, v, v.playlist.value);
    }
  }

  lemma ReadFields(host: Endian, b: bytes, d: seq<(u32, u64)>)
    requires |b| >= HEADER_FIXED_LEN && Framed(b, d) && ReadSections(host, b, d).Ok?
    ensures var v := ReadSections(host, b, d).value;
            v.maxSegmentSize == U32At(b, 4) && v.sourceLen == U64At(b, 8) && v.digest == b[16..48] && |v.digest| == 32
  {
    hide SectionOfKind, ParseVideoMeta, ParseAudioMeta, ParseSampleTable, ParseSegmentTable;
  }

  lemma PrintedInOrder(host: Endian, v: IndexView, playlist: bytes)
    requires |v.digest| == 32 && |Image(host, v, playlist)| <= U64_MAX
    ensures var b := Image(host, v, playlist);
            |b| >= HEADER_FIXED_LEN && CountOk(b) && BuilderOrder(Directory(b, U32At(b, 48)))
  {
    hide Contents, Pieces, Flatten, ImageOf, EntryAt, Code;
    var b, ps := Image(host, v, playlist), Pieces(Contents(host, v, playlist));
    ImageFront(v, Kinds(), ps);
    forall i | 0 <= i < 7
      ensures EntryAt(b, i).0 == Kinds()[i]
    {
      ImageEntry(v, Kinds(), ps, i);
    }
  }
}
