/**
 Track and media headers as the standard lays them out, in both versions and apart from the parser, and
 what the parser reads from them.
 */
module HeaderLaws {
  import opened Boxes
  import opened BoxReader
  import opened Bytes
  import opened Sources
  import opened Wrappers
  import Moov

  /** The payload of this box lies in the file. */
  predicate PayloadLies(data: bytes, h: BoxHeader, payload: bytes) {
    h.headerSize <= h.declaredSize && h.End() <= |data| && data[h.PayloadOffset()..h.End()] == payload
  }

  lemma FetchInside(data: bytes, h: BoxHeader, payload: bytes, i: nat, n: nat)
    requires PayloadLies(data, h, payload) && i + n <= |payload|
    ensures Fetch(data, h.PayloadOffset() + i, n) == Ok(payload[i..i + n])
  {
    SubSlice(data, h.PayloadOffset(), h.End(), i, i + n);
  }

  /** A time: 32 bits in version 0, 64 bits in version 1. */
  function Time(version: byte, t: nat): (b: bytes)
    ensures |b| == if version == 0 then 4 else 8
  {
    if version == 0 then Be32(t) else Be64(t)
  }

  // ---------- mdhd ----------

  /** Section 8.4.2 of ISO/IEC 14496-12: creation and modification time, timescale, duration. */
  function MediaHeader(version: byte, flags: nat, creation: nat, modification: nat, timescale: u32, duration: nat)
    : (b: bytes)
    requires flags <= 0xFF_FFFF
    ensures |b| == if version == 0 then 20 else 32
  {
    FullHeader(version, flags) + Time(version, creation) + Time(version, modification) + Be32(timescale)
    + Time(version, duration)
  }

  lemma VersionFirst(version: byte, flags: nat, rest: bytes)
    requires flags <= 0xFF_FFFF
    ensures (FullHeader(version, flags) + rest)[0] == version
  {
    TopByte(version, flags);
    hide FullHeader;
    assert (FullHeader(version, flags) + rest)[0] == FullHeader(version, flags)[0];
  }

  lemma MediaHeaderFields(version: byte, flags: nat, creation: nat, modification: nat, timescale: u32, duration: nat,
                          rest: bytes)
    requires flags <= 0xFF_FFFF
    ensures var p := MediaHeader(version, flags, creation, modification, timescale, duration) + rest;
            var at := if version == 0 then 12 else 20;
            p[0] == version && p[at..at + 4] == Be32(timescale)
  {
    hide FullHeader, Be32, Be64;
    var t := Time(version, creation) + Time(version, modification) + Be32(timescale) + Time(version, duration);
    VersionFirst(version, flags, t + rest);
    assert MediaHeader(version, flags, creation, modification, timescale, duration) + rest
        == FullHeader(version, flags) + (t + rest);
  }

  /**
   Whatever its times, duration and what follows, a media header of version 0 or 1 reads back its timescale;
   one of another version is refused.
   */
  lemma TimescaleReadsBack(data: bytes, h: BoxHeader, version: byte, flags: nat, creation: nat, modification: nat,
                           timescale: u32, duration: nat, rest: bytes)
    requires flags <= 0xFF_FFFF
    requires PayloadLies(data, h, MediaHeader(version, flags, creation, modification, timescale, duration) + rest)
    ensures Moov.MdhdTimescale(data, h) == if version <= 1 then Ok(timescale) else Err(MalformedAtom)
  {
    hide MediaHeader, Be32, ReadBe, PayloadLies;
    var p := MediaHeader(version, flags, creation, modification, timescale, duration) + rest;
    var at := if version == 0 then 12 else 20;
    MediaHeaderFields(version, flags, creation, modification, timescale, duration, rest);
    PayloadSize(data, h, p);
    FetchInside(data, h, p, 0, 4);
    FetchInside(data, h, p, at, 4);
    assert p[at..at + 4][0..4] == p[at..at + 4];
    Be32ReadBack(timescale);
  }

  lemma PayloadSize(data: bytes, h: BoxHeader, payload: bytes)
    requires PayloadLies(data, h, payload)
    ensures h.PayloadLen() == |payload|
  {}

  /** One that ends before its timescale does is refused too. */
  lemma ShortMediaHeader(data: bytes, h: BoxHeader, payload: bytes)
    requires PayloadLies(data, h, payload)
    requires |payload| < 4 || |payload| < if payload[0] == 0 then 16 else 24
    ensures Moov.MdhdTimescale(data, h) == Err(MalformedAtom)
  {
    hide ReadBe;
    if |payload| >= 4 {
      FetchInside(data, h, payload, 0, 4);
    }
  }

  // ---------- tkhd ----------

  /** Section 8.3.2 of ISO/IEC 14496-12, up to the transformation matrix. */
  function TrackHeaderFront(version: byte, flags: nat, creation: nat, modification: nat, trackId: nat, duration: nat,
                            layer: bytes, matrix: bytes): (b: bytes)
    requires flags <= 0xFF_FFFF && |layer| == 8 && |matrix| == 36
    ensures |b| == if version == 0 then 76 else 88
  {
    FullHeader(version, flags) + Time(version, creation) + Time(version, modification) + Be32(trackId) + Be32(0)
    + Time(version, duration) + (Zeros(8) + layer + matrix)
  }

  /** And the whole of it: width and height are fixed-point 16.16 numbers. */
  function TrackHeader(version: byte, flags: nat, creation: nat, modification: nat, trackId: nat, duration: nat,
                       layer: bytes, matrix: bytes, width: u32, height: u32): (b: bytes)
    requires flags <= 0xFF_FFFF && |layer| == 8 && |matrix| == 36
    ensures |b| == if version == 0 then 84 else 96
  {
    TrackHeaderFront(version, flags, creation, modification, trackId, duration, layer, matrix)
    + Be32(width) + Be32(height)
  }

  lemma TrackHeaderFields(version: byte, flags: nat, creation: nat, modification: nat, trackId: nat, duration: nat,
                          layer: bytes, matrix: bytes, width: u32, height: u32, rest: bytes)
    requires flags <= 0xFF_FFFF && |layer| == 8 && |matrix| == 36
    ensures var p := TrackHeader(version, flags, creation, modification, trackId, duration, layer, matrix, width,
                                 height) + rest;
            var at := if version == 0 then 76 else 88;
            p[0] == version && p[at..at + 8] == Be32(width) + Be32(height)
  {
    hide FullHeader, Be32, Be64;
    var front := TrackHeaderFront(version, flags, creation, modification, trackId, duration, layer, matrix);
    var t := Time(version, creation) + Time(version, modification) + Be32(trackId) + Be32(0)
      + Time(version, duration) + (Zeros(8) + layer + matrix);
    VersionFirst(version, flags, t);
    assert front == FullHeader(version, flags) + t;
    assert front[0] == version;
  }

  /** A track header of version 0 or 1 reads back its width and height in whole pixels; another is refused. */
  lemma SizeReadsBack(data: bytes, h: BoxHeader, version: byte, flags: nat, creation: nat, modification: nat,
                      trackId: nat, duration: nat, layer: bytes, matrix: bytes, width: u32, height: u32, rest: bytes)
    requires flags <= 0xFF_FFFF && |layer| == 8 && |matrix| == 36
    requires PayloadLies(data, h, TrackHeader(version, flags, creation, modification, trackId, duration, layer, matrix,
                                              width, height) + rest)
    ensures Moov.Tkhd(data, h) == if version <= 1 then Ok(Moov.TkhdInfo(width / 0x1_0000, height / 0x1_0000))
                                  else Err(MalformedAtom)
  {
    hide TrackHeader, Be32, ReadBe, PayloadLies;
    var p := TrackHeader(version, flags, creation, modification, trackId, duration, layer, matrix, width, height)
             + rest;
    var at := if version == 0 then 76 else 88;
    TrackHeaderFields(version, flags, creation, modification, trackId, duration, layer, matrix, width, height, rest);
    PayloadSize(data, h, p);
    FetchInside(data, h, p, 0, 4);
    FetchInside(data, h, p, at, 8);
    TwoWords(width, height);
  }

  lemma ShortTrackHeader(data: bytes, h: BoxHeader, payload: bytes)
    requires PayloadLies(data, h, payload)
    requires |payload| < 4 || |payload| < if payload[0] == 0 then 84 else 96
    ensures Moov.Tkhd(data, h) == Err(MalformedAtom)
  {
    hide ReadBe;
    if |payload| >= 4 {
      FetchInside(data, h, payload, 0, 4);
    }
  }
}
