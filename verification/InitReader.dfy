/**
 A reference reader for init segments, written from ISO/IEC 14496-12 alone: it follows `moov` to the id,
 the handler and the sample entry of every track, and to the defaults of its samples.
 */
module InitReader {
  import opened Boxes
  import opened BoxReader
  import opened Bytes
  import opened FragmentReader
  import opened Wrappers

  /** Sizes are in whole pixels, the volume in parts of 256, the language as its three letters. */
  datatype InitTrack = InitTrack(
    id: nat, handler: FourCC, name: bytes, timescale: nat, language: bytes, volume: nat, width: nat, height: nat,
    sampleEntry: bytes)

  /** Of the brands the major one comes first. */
  datatype InitMovie = InitMovie(
    brands: seq<bytes>, timescale: nat, nextTrackId: nat, tracks: seq<InitTrack>, defaults: seq<TrackDefaults>)

  const TKHD_ENABLED := 0x1
  const TKHD_IN_MOVIE := 0x2
  const URL_SELF_CONTAINED := 0x1

  /** The first word of a full box is its version, with no flags set. */
  predicate Plainly(payload: bytes, version: nat) {
    |payload| >= 4 && U32At(payload, 0) == version * 0x100_0000
  }

  function HalfAt(b: bytes, pos: nat): nat
    requires pos + 2 <= |b|
  {
    ReadBe(b[pos..pos + 2])
  }

  /** These 32-bit words lie one after another from `at` on. */
  predicate WordsAt(b: bytes, at: nat, words: seq<nat>) {
    at + 4 * |words| <= |b| && forall i :: 0 <= i < |words| ==> U32At(b, at + 4 * i) == words[i]
  }

  /** The transformation that leaves the picture as it is (section 6.2.2). */
  const UNITY: seq<nat> := [0x1_0000, 0, 0, 0, 0x1_0000, 0, 0, 0, 0x4000_0000]

  /** From the rate on a movie header is played at its own speed, at full volume, untransformed. */
  predicate PlainMovie(payload: bytes, at: nat) {
    && at + 8 <= |payload| && U32At(payload, at) == 0x1_0000
    && HalfAt(payload, at + 4) == 0x100 && HalfAt(payload, at + 6) == 0
    && WordsAt(payload, at + 8, [0, 0]) && WordsAt(payload, at + 16, UNITY)
    && WordsAt(payload, at + 52, [0, 0, 0, 0, 0, 0])
  }

  /** Section 8.2.2: the timescale of the movie and the next free track id. */
  function ReadMvhd(payload: bytes): Result<(nat, nat)> {
    if |payload| == 112 && Plainly(payload, 1) && PlainMovie(payload, 32) then
      Ok((U32At(payload, 20), U32At(payload, 108)))
    else if |payload| == 100 && Plainly(payload, 0) && PlainMovie(payload, 20) then
      Ok((U32At(payload, 12), U32At(payload, 96)))
    else Err(MalformedAtom)
  }

  /** What a track header says. */
  datatype TrackHead = TrackHead(id: nat, volume: nat, width: nat, height: nat)

  /** Behind the times a track is on the lowest layer, has no alternatives, and is shown untransformed. */
  predicate PlainTrack(payload: bytes, at: nat) {
    && at + 16 <= |payload| && WordsAt(payload, at, [0, 0, 0]) && HalfAt(payload, at + 14) == 0
    && WordsAt(payload, at + 16, UNITY)
  }

  /** Section 8.3.2: an enabled track that is part of the movie. */
  function ReadTkhd(payload: bytes): Result<TrackHead> {
    if |payload| < 84 || !Has(U32At(payload, 0), TKHD_ENABLED) || !Has(U32At(payload, 0), TKHD_IN_MOVIE)
    then Err(MalformedAtom)
    else if |payload| == 96 && payload[0] == 1 && U32At(payload, 24) == 0 && PlainTrack(payload, 36) then
      Ok(TrackHead(U32At(payload, 20), HalfAt(payload, 48),
                   U32At(payload, 88) / 0x1_0000, U32At(payload, 92) / 0x1_0000))
    else if |payload| == 84 && payload[0] == 0 && U32At(payload, 16) == 0 && PlainTrack(payload, 24) then
      Ok(TrackHead(U32At(payload, 12), HalfAt(payload, 36),
                   U32At(payload, 76) / 0x1_0000, U32At(payload, 80) / 0x1_0000))
    else Err(MalformedAtom)
  }

  /** Three letters of five bits each, and a zero bit in front (section 8.4.2.3). */
  function Letters(code: nat): bytes {
    [(code / 0x400 % 0x20 + 0x60) as byte, (code / 0x20 % 0x20 + 0x60) as byte, (code % 0x20 + 0x60) as byte]
  }

  /** Section 8.4.2: timescale and language. */
  function ReadMdhd(payload: bytes): Result<(nat, bytes)> {
    if |payload| == 36 && Plainly(payload, 1) && HalfAt(payload, 34) == 0 then
      Ok((U32At(payload, 20), Letters(HalfAt(payload, 32))))
    else if |payload| == 24 && Plainly(payload, 0) && HalfAt(payload, 22) == 0 then
      Ok((U32At(payload, 12), Letters(HalfAt(payload, 20))))
    else Err(MalformedAtom)
  }

  /** Section 8.4.3: the handler, and its name, which ends with the first zero byte. */
  function ReadHdlr(payload: bytes): Result<(FourCC, bytes)> {
    if |payload| < 25 || !Plainly(payload, 0) || U32At(payload, 4) != 0 || !WordsAt(payload, 12, [0, 0, 0])
    then Err(MalformedAtom)
    else
      var name := payload[24..|payload| - 1];
      if payload[|payload| - 1] != 0 || 0 in name then Err(MalformedAtom) else Ok((payload[8..12], name))
  }

  /** Section 8.5.2: exactly one sample entry. */
  function ReadStsd(payload: bytes): Result<bytes> {
    if |payload| < 8 || !Plainly(payload, 0) || U32At(payload, 4) != 1 then Err(MalformedAtom) else Ok(payload[8..])
  }

  /** A table without rows. */
  predicate NoRows(payload: bytes) {
    |payload| == 8 && Plainly(payload, 0) && U32At(payload, 4) == 0
  }

  predicate NoSampleSizes(payload: bytes) {
    |payload| == 12 && Plainly(payload, 0) && U32At(payload, 4) == 0 && U32At(payload, 8) == 0
  }

  /** The sample entry of a table without samples. */
  function ReadStbl(data: bytes, stbl: BoxHeader): Result<bytes> {
    var children :- Scan(data, stbl.PayloadOffset(), stbl.End());
    var stsd :- Only(children, Code("stsd"));
    var stts :- Only(children, Code("stts"));
    var stsc :- Only(children, Code("stsc"));
    var stsz :- Only(children, Code("stsz"));
    var stco :- Only(children, Code("stco"));
    if NoRows(PayloadOf(data, stts)) && NoRows(PayloadOf(data, stsc)) && NoSampleSizes(PayloadOf(data, stsz))
       && NoRows(PayloadOf(data, stco))
    then ReadStsd(PayloadOf(data, stsd)) else Err(MalformedAtom)
  }

  /** Section 8.7.2: the one data reference says that the media are in the same file. */
  function ReadDinf(data: bytes, dinf: BoxHeader): Result<()> {
    var children :- Scan(data, dinf.PayloadOffset(), dinf.End());
    var dref :- Only(children, Code("dref"));
    var p := PayloadOf(data, dref);
    if |p| != 20 || !Plainly(p, 0) || U32At(p, 4) != 1 then Err(MalformedAtom)
    else if U32At(p, 8) != 12 || p[12..16] != Code("url ") || U32At(p, 16) != URL_SELF_CONTAINED
    then Err(MalformedAtom)
    else Ok(())
  }

  /** The media header that goes with a handler (sections 12.1.2 and 12.2.2). */
  function MediaHeaderOf(handler: FourCC): Result<FourCC> {
    if handler == Code("vide") then Ok(Code("vmhd"))
    else if handler == Code("soun") then Ok(Code("smhd"))
    else Err(UnsupportedTrackLayout(0, 0))
  }

  /** Pictures are copied, and sound is in the middle (sections 12.1.2 and 12.2.2). */
  predicate PlainMedia(kind: FourCC, payload: bytes) {
    if kind == Code("vmhd") then |payload| == 12 && WordsAt(payload, 0, [1, 0, 0])
    else |payload| == 8 && WordsAt(payload, 0, [0, 0])
  }

  function ReadMinf(data: bytes, minf: BoxHeader, handler: FourCC): Result<bytes> {
    var children :- Scan(data, minf.PayloadOffset(), minf.End());
    var kind :- MediaHeaderOf(handler);
    var header :- Only(children, kind);
    var dinf :- Only(children, Code("dinf"));
    var stbl :- Only(children, Code("stbl"));
    var local :- ReadDinf(data, dinf);
    if !PlainMedia(kind, PayloadOf(data, header)) then Err(MalformedAtom) else ReadStbl(data, stbl)
  }

  /** What the media box says: timescale, language, handler, its name, and the sample entry. */
  datatype Media = Media(timescale: nat, language: bytes, handler: FourCC, name: bytes, sampleEntry: bytes)

  function ReadMdia(data: bytes, mdia: BoxHeader): Result<Media> {
    var children :- Scan(data, mdia.PayloadOffset(), mdia.End());
    var mdhd :- Only(children, Code("mdhd"));
    var hdlr :- Only(children, Code("hdlr"));
    var minf :- Only(children, Code("minf"));
    var head :- ReadMdhd(PayloadOf(data, mdhd));
    var handler :- ReadHdlr(PayloadOf(data, hdlr));
    var sampleEntry :- ReadMinf(data, minf, handler.0);
    Ok(Media(head.0, head.1, handler.0, handler.1, sampleEntry))
  }

  function ReadTrak(data: bytes, trak: BoxHeader): Result<InitTrack> {
    var children :- Scan(data, trak.PayloadOffset(), trak.End());
    var tkhd :- Only(children, Code("tkhd"));
    var mdia :- Only(children, Code("mdia"));
    var t :- ReadTkhd(PayloadOf(data, tkhd));
    var m :- ReadMdia(data, mdia);
    Ok(InitTrack(t.id, m.handler, m.name, m.timescale, m.language, t.volume, t.width, t.height, m.sampleEntry))
  }

  function ReadTraks(data: bytes, traks: seq<BoxHeader>): Result<seq<InitTrack>> {
    if |traks| == 0 then Ok([])
    else
      var first :- ReadTrak(data, traks[0]);
      var rest :- ReadTraks(data, traks[1..]);
      Ok([first] + rest)
  }

  /** The whole init segment. */
  function ReadInit(init: bytes): Result<InitMovie> {
    var top :- Scan(init, 0, |init|);
    var ftyp :- Only(top, Code("ftyp"));
    var brands :- BrandsIn(PayloadOf(init, ftyp));
    var moov :- Only(top, Code("moov"));
    var children :- Scan(init, moov.PayloadOffset(), moov.End());
    var mvhd :- Only(children, Code("mvhd"));
    var movie :- ReadMvhd(PayloadOf(init, mvhd));
    var tracks :- ReadTraks(init, OfType(children, Code("trak")));
    var defaults :- ReadDefaults(init);
    Ok(InitMovie(brands, movie.0, movie.1, tracks, defaults))
  }
}
