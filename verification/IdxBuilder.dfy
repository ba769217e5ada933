/** Laying out an index image: sections with padding between them, then header and directory in place. */
module IdxBuilder {
  import opened Boxes
  import opened Bytes
  import opened Format
  import opened Idx
  import opened Wrappers

  method EncodeVideoMeta(m: VideoTrackMeta) returns (r: Result<bytes>)
    ensures r.Ok? <==> |m.sampleEntry| <= U32_MAX && |m.elst| <= U32_MAX
    ensures r.Ok? ==> r.value == VideoMeta(m)
    ensures r.Err? ==> r.error == Io
  {
    hide Be32;
    var s := Be32(m.timescale);
    s := s + m.fourcc;
    s := s + Be32(m.width);
    s := s + Be32(m.height);
    if |m.sampleEntry| > U32_MAX {
      return Err(Io);
    }
    ghost var head := s;
    s := s + Be32(|m.sampleEntry|);
    s := s + m.sampleEntry;
    if |m.elst| > U32_MAX {
      return Err(Io);
    }
    s := s + Be32(|m.elst|);
    s := s + m.elst;
    assert s == head + Blobs(m.sampleEntry, m.elst);
    return Ok(s);
  }

  method EncodeAudioMeta(m: AudioTrackMeta) returns (r: Result<bytes>)
    ensures r.Ok? <==> |m.sampleEntry| <= U32_MAX && |m.elst| <= U32_MAX
    ensures r.Ok? ==> r.value == AudioMeta(m)
    ensures r.Err? ==> r.error == Io
  {
    hide Be32;
    var s := Be32(m.timescale);
    s := s + m.fourcc;
    s := s + Be32(m.sampleRate);
    ghost var front := s;
    s := s + [m.channelCount];
    s := s + Zeros(3);
    Assoc(front, [m.channelCount], Zeros(3));
    if |m.sampleEntry| > U32_MAX {
      return Err(Io);
    }
    ghost var head := s;
    s := s + Be32(|m.sampleEntry|);
    s := s + m.sampleEntry;
    if |m.elst| > U32_MAX {
      return Err(Io);
    }
    s := s + Be32(|m.elst|);
    s := s + m.elst;
    assert s == head + Blobs(m.sampleEntry, m.elst);
    return Ok(s);
  }

  method EncodeSampleTable(host: Endian, samples: seq<SampleEntry>) returns (r: Result<bytes>)
    ensures r.Ok? <==> |samples| <= U32_MAX
    ensures r.Ok? ==> r.value == TableSection(SampleRows(host, samples))
    ensures r.Err? ==> r.error == SampleTableInconsistent
  {
    hide Be32, Ne, Flatten;
    if |samples| > U32_MAX {
      return Err(SampleTableInconsistent);
    }
    var s := Be32(|samples|) + Be32(0);
    ghost var head, rows := s, SampleRows(host, samples);
    FlattenNothing();
    for i := 0 to |samples|
      invariant s == head + Flatten(rows[..i])
    {
      ghost var before := s;
      var x := samples[i];
      s := s + Ne(host, 8, x.offset);
      s := s + Ne(host, 4, x.size);
      s := s + Ne(host, 4, x.dtsDelta);
      s := s + Ne(host, 4, Unsigned32(x.ctsOffset));
      s := s + Ne(host, 4, x.flags);
      assert s == before + rows[i];
      Assoc(head, Flatten(rows[..i]), rows[i]);
      FlattenPiece(rows, i);
    }
    assert rows[..|samples|] == rows;
    return Ok(s);
  }

  method EncodeSegmentTable(host: Endian, segments: seq<SegmentEntry>) returns (r: Result<bytes>)
    ensures r.Ok? <==> |segments| <= U32_MAX
    ensures r.Ok? ==> r.value == TableSection(SegmentRows(host, segments))
    ensures r.Err? ==> r.error == SampleTableInconsistent
  {
    hide Be32, Ne, Flatten;
    if |segments| > U32_MAX {
      return Err(SampleTableInconsistent);
    }
    var s := Be32(|segments|) + Be32(0);
    ghost var head, rows := s, SegmentRows(host, segments);
    FlattenNothing();
    for i := 0 to |segments|
      invariant s == head + Flatten(rows[..i])
    {
      ghost var before := s;
      var x := segments[i];
      s := s + Ne(host, 4, x.videoStart);
      s := s + Ne(host, 4, x.videoCount);
      s := s + Ne(host, 4, x.audioStart);
      s := s + Ne(host, 4, x.audioCount);
      s := s + Ne(host, 8, x.videoBaseDts);
      s := s + Ne(host, 8, x.audioBaseDts);
      assert s == before + rows[i];
      Assoc(head, Flatten(rows[..i]), rows[i]);
      FlattenPiece(rows, i);
    }
    assert rows[..|segments|] == rows;
    return Ok(s);
  }

  /** Append one section, and the zeros that align what follows it. */
  method AppendSection(image: bytes, content: bytes, more: bool) returns (r: bytes)
    requires |image| % 8 == 0
    ensures r == image + if more then Padded(content) else content
  {
    r := image + content;
    if more {
      var rem := |r| % 8;
      assert rem == |content| % 8;
      if rem != 0 {
        r := r + Zeros(8 - rem);
      }
      Assoc(image, content, Zeros(PadLen(|content|)));
    }
  }

  /** Append every section after a zeroed header; `offsets` is where each one starts. */
  method AppendSections(contents: seq<bytes>) returns (image: bytes, offsets: seq<nat>)
    requires |contents| > 0
    ensures image == Zeros(HeaderEnd(|contents|)) + Flatten(Pieces(contents))
    ensures |offsets| == |contents|
    ensures forall i :: 0 <= i < |contents| ==> offsets[i] == SectionOffset(Pieces(contents), i)
  {
    hide Flatten, Padded, Pieces;
    var n := |contents|;
    ghost var head, ps := Zeros(HeaderEnd(n)), Pieces(contents);
    image, offsets := Zeros(HeaderEnd(n)), [];
    FlattenNothing();
    PiecesAligned(contents, 0);
    for i := 0 to n
      invariant image == head + Flatten(ps[..i]) && |offsets| == i
      invariant forall j :: 0 <= j < i ==> offsets[j] == SectionOffset(ps, j)
    {
      PiecesAligned(contents, i);
      offsets := offsets + [|image|];
      image := AppendSection(image, contents[i], i + 1 < n);
      Assoc(head, Flatten(ps[..i]), ps[i]);
      FlattenPiece(ps, i);
    }
    assert ps[..n] == ps;
  }

  /** Every section starts on a multiple of 8. */
  lemma {:induction false} PiecesAligned(contents: seq<bytes>, i: nat)
    requires i < |contents|
    ensures |Flatten(Pieces(contents)[..i])| % 8 == 0
    decreases i
  {
    hide Flatten, Padded;
    if i == 0 {
      FlattenNothing();
      assert Pieces(contents)[..0] == [];
    } else {
      PiecesAligned(contents, i - 1);
      FlattenPiece(Pieces(contents), i - 1);
      BothMultiples(|Flatten(Pieces(contents)[..i - 1])|, |Pieces(contents)[i - 1]|);
    }
  }

  lemma BothMultiples(a: nat, b: nat)
    requires a % 8 == 0 && b % 8 == 0
    ensures (a + b) % 8 == 0
  {}

  /** Overwriting the first zeros after `done` extends `done`. */
  lemma PatchFront(done: bytes, zeros: nat, tail: bytes, x: bytes)
    requires |x| <= zeros
    ensures Patch(done + Zeros(zeros) + tail, |done|, x) == done + x + Zeros(zeros - |x|) + tail
  {
    var rest := Zeros(zeros - |x|) + tail;
    assert Zeros(zeros) == Zeros(|x|) + Zeros(zeros - |x|);
    assert done + Zeros(zeros) + tail == done + Zeros(|x|) + rest;
    PatchMiddle(done, Zeros(|x|), rest, x);
    Assoc(done + x, Zeros(zeros - |x|), tail);
  }

  /** Write `x` at the front of the zeros that are left in the header. */
  method FillHeader(image: bytes, x: bytes, ghost done: bytes, ghost zeros: nat, ghost tail: bytes, pos: nat)
    returns (r: bytes)
    requires image == done + Zeros(zeros) + tail && pos == |done| && |x| <= zeros
    ensures r == done + x + Zeros(zeros - |x|) + tail
  {
    PatchFront(done, zeros, tail, x);
    r := Patch(image, pos, x);
  }

  method WriteFixedHeader(image: bytes, v: IndexView, n: nat, ghost zeros: nat, ghost tail: bytes) returns (r: bytes)
    requires |v.digest| == 32 && zeros >= HEADER_FIXED_LEN && image == Zeros(zeros) + tail
    ensures r == FixedHeader(v, n) + Zeros(zeros - HEADER_FIXED_LEN) + tail
  {
    hide Be32, Be64, Code, Patch;
    assert image == [] + Zeros(zeros) + tail;
    ghost var a, b, c, d, e := Code("HCMI"), Be32(v.maxSegmentSize), Be64(v.sourceLen), v.digest, Be32(n);
    r := FillHeader(image, Code("HCMI"), [], zeros, tail, 0);
    assert [] + a == a;
    r := FillHeader(r, Be32(v.maxSegmentSize), a, zeros - 4, tail, 4);
    r := FillHeader(r, Be64(v.sourceLen), a + b, zeros - 8, tail, 8);
    r := FillHeader(r, v.digest, a + b + c, zeros - 16, tail, 16);
    r := FillHeader(r, Be32(n), a + b + c + d, zeros - 48, tail, 48);
    r := FillHeader(r, Be32(0), a + b + c + d + e, zeros - 52, tail, 52);
  }

  method WriteDirEntry(image: bytes, kind: nat, offset: nat, pos: nat, ghost done: bytes, ghost zeros: nat,
      ghost tail: bytes)
    returns (r: bytes)
    requires image == done + Zeros(zeros) + tail && pos == |done| && zeros >= SECTION_DIR_ENTRY_LEN
    ensures r == done + DirEntry(kind, offset) + Zeros(zeros - SECTION_DIR_ENTRY_LEN) + tail
  {
    hide Be32, Be64, Patch;
    r := FillHeader(image, Be32(kind), done, zeros, tail, pos);
    r := FillHeader(r, Be32(0), done + Be32(kind), zeros - 4, tail, pos + 4);
    r := FillHeader(r, Be64(offset), done + Be32(kind) + Be32(0), zeros - 8, tail, pos + 8);
    Assoc(done, Be32(kind), Be32(0));
    Assoc(done, Be32(kind) + Be32(0), Be64(offset));
  }

  /** Header first, then the directory entries one by one. */
  method WriteHeader(image: bytes, v: IndexView, kinds: seq<nat>, offsets: seq<nat>,
      ghost ps: seq<bytes>) returns (r: bytes)
    requires |v.digest| == 32 && |kinds| == |offsets| == |ps|
    requires image == Zeros(HeaderEnd(|kinds|)) + Flatten(ps)
    requires forall i :: 0 <= i < |ps| ==> offsets[i] == SectionOffset(ps, i)
    ensures r == ImageOf(v, kinds, ps)
  {
    hide Flatten, FixedHeader, DirEntry;
    var n := |kinds|;
    ghost var tail, fixed, entries := Flatten(ps), FixedHeader(v, n), DirEntries(kinds, ps);
    r := WriteFixedHeader(image, v, n, HeaderEnd(n), tail);
    FlattenNothing();
    assert fixed + [] == fixed;
    for i := 0 to n
      invariant r == fixed + Flatten(entries[..i]) + Zeros((n - i) * SECTION_DIR_ENTRY_LEN) + tail
      invariant |Flatten(entries[..i])| == i * SECTION_DIR_ENTRY_LEN
    {
      ghost var done := fixed + Flatten(entries[..i]);
      var pos := HEADER_FIXED_LEN + i * SECTION_DIR_ENTRY_LEN;
      r := WriteDirEntry(r, kinds[i], offsets[i], pos, done, (n - i) * SECTION_DIR_ENTRY_LEN, tail);
      Assoc(fixed, Flatten(entries[..i]), entries[i]);
      FlattenPiece(entries, i);
    }
    assert entries[..n] == entries;
    assert fixed + Flatten(entries) + Zeros(0) == fixed + Flatten(entries);
  }

  /** Everything that the format stores in 32 bits fits there. */
  predicate Encodable(v: IndexView) {
    && |v.video.sampleEntry| <= U32_MAX && |v.video.elst| <= U32_MAX
    && |v.audio.sampleEntry| <= U32_MAX && |v.audio.elst| <= U32_MAX
    && |v.videoSamples| <= U32_MAX && |v.audioSamples| <= U32_MAX && |v.segments| <= U32_MAX
  }

  method Serialise(host: Endian, v: IndexView, playlist: bytes) returns (r: Result<bytes>)
    requires |v.digest| == 32
    ensures r.Ok? <==> Encodable(v)
    ensures r.Ok? ==> r.value == Image(host, v, playlist)
  {
    hide VideoMeta, AudioMeta, TableSection, SampleRows, SegmentRows, Flatten, ImageOf;
    var a :- EncodeVideoMeta(v.video);
    var b :- EncodeAudioMeta(v.audio);
    var c :- EncodeSampleTable(host, v.videoSamples);
    var d :- EncodeSampleTable(host, v.audioSamples);
    var e :- EncodeSegmentTable(host, v.segments);
    var contents := [a, b, c, d, e, playlist, v.initBytes];
    assert contents == Contents(host, v, playlist);
    var image, offsets := AppendSections(contents);
    image := WriteHeader(image, v, Kinds(), offsets, Pieces(contents));
    return Ok(image);
  }
}
