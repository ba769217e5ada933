/**
 A reference reader for movie fragments, written from the standard alone: it follows `trex`, `tfhd`,
 `tfdt` and `trun` (sections 8.8.3, 8.8.7, 8.8.12 and 8.8.8 of ISO/IEC 14496-12) to the sample bytes.
 Fields that a `trun` leaves out take the `trex` defaults of the init segment. Whatever it does not
 interpret it refuses.
 */
module FragmentReader {
  import opened Boxes
  import opened BoxReader
  import opened Bytes
  import opened Wrappers

  datatype Sample = Sample(duration: nat, ctsOffset: int, sync: bool, data: bytes)

  datatype TrackFragment = TrackFragment(trackId: nat, baseDts: nat, samples: seq<Sample>)

  /** What a `trex` says of the samples of its track. */
  datatype TrackDefaults = TrackDefaults(trackId: nat, duration: nat, size: nat, flags: nat)

  /** One row of a `trun`, defaults filled in. */
  datatype RunRow = RunRow(duration: nat, size: nat, flags: nat, ctsOffset: int)

  const TRUN_DATA_OFFSET := 0x1
  const TRUN_FIRST_SAMPLE_FLAGS := 0x4
  const TRUN_DURATION := 0x100
  const TRUN_SIZE := 0x200
  const TRUN_FLAGS := 0x400
  const TRUN_CTS := 0x800

  const TFHD_BASE_IS_MOOF := 0x02_0000

  /** The bit of the sample flags that marks a sample as not sync (section 8.8.3.1). */
  const SAMPLE_IS_NON_SYNC := 0x1_0000

  predicate Has(flags: nat, mask: nat)
    requires mask > 0
  {
    flags / mask % 2 == 1
  }

  predicate IsSync(flags: nat) {
    !Has(flags, SAMPLE_IS_NON_SYNC)
  }

  /** What the sample flags say of other samples: 1 if this one depends on them, 2 if it does not (section 8.8.3.1). */
  function DependsOn(flags: nat): nat {
    flags / 0x100_0000 % 4
  }

  /** Bytes taken by an optional 32-bit field. */
  function Width(flags: nat, mask: nat): nat
    requires mask > 0
  {
    if Has(flags, mask) then 4 else 0
  }

  function Bit(flags: nat, mask: nat): nat
    requires mask > 0
  {
    if Has(flags, mask) then mask else 0
  }

  /** Only fields that the standard knows, and not two sources for the flags of the first sample. */
  predicate TrunFlagsKnown(flags: nat) {
    && flags == Bit(flags, TRUN_DATA_OFFSET) + Bit(flags, TRUN_FIRST_SAMPLE_FLAGS) + Bit(flags, TRUN_DURATION)
                + Bit(flags, TRUN_SIZE) + Bit(flags, TRUN_FLAGS) + Bit(flags, TRUN_CTS)
    && !(Has(flags, TRUN_FIRST_SAMPLE_FLAGS) && Has(flags, TRUN_FLAGS))
  }

  function RowWidth(flags: nat): nat {
    Width(flags, TRUN_DURATION) + Width(flags, TRUN_SIZE) + Width(flags, TRUN_FLAGS) + Width(flags, TRUN_CTS)
  }

  function ReadRow(version: nat, flags: nat, d: TrackDefaults, row: bytes): RunRow
    requires |row| == RowWidth(flags)
  {
    var sizePos := Width(flags, TRUN_DURATION);
    var flagsPos := sizePos + Width(flags, TRUN_SIZE);
    var ctsPos := flagsPos + Width(flags, TRUN_FLAGS);
    RunRow(
      if Has(flags, TRUN_DURATION) then U32At(row, 0) else d.duration,
      if Has(flags, TRUN_SIZE) then U32At(row, sizePos) else d.size,
      if Has(flags, TRUN_FLAGS) then U32At(row, flagsPos) else d.flags,
      if !Has(flags, TRUN_CTS) then 0
      else if version == 0 then U32At(row, ctsPos) else Signed32(U32At(row, ctsPos)))
  }

  function ReadRows(version: nat, flags: nat, d: TrackDefaults, rows: seq<bytes>): (r: seq<RunRow>)
    requires Uniform(rows, RowWidth(flags))
    ensures |r| == |rows|
  {
    seq(|rows|, i requires 0 <= i < |rows| => ReadRow(version, flags, d, rows[i]))
  }

  /** A first-sample-flags word overrides the flags of the first row. */
  function WithFirst(rows: seq<RunRow>, first: Option<nat>): (r: seq<RunRow>)
    ensures |r| == |rows|
  {
    if first.None? || |rows| == 0 then rows else rows[0 := rows[0].(flags := first.value)]
  }

  /** Samples lie one after another from `at`. */
  function Collect(data: bytes, rows: seq<RunRow>, at: int): (r: Result<seq<Sample>>) {
    if |rows| == 0 then Ok([])
    else if at < 0 || at + rows[0].size > |data| then Err(Io)
    else
      var rest :- Collect(data, rows[1..], at + rows[0].size);
      Ok([Sample(rows[0].duration, rows[0].ctsOffset, IsSync(rows[0].flags), data[at..at + rows[0].size])] + rest)
  }

  /** Where the rows of a `trun` start. */
  function RowsPos(flags: nat): nat {
    8 + Width(flags, TRUN_DATA_OFFSET) + Width(flags, TRUN_FIRST_SAMPLE_FLAGS)
  }

  /** A known version, known fields, a data offset, and as many rows as the header says. */
  predicate TrunReadable(version: nat, flags: nat, count: nat, length: nat) {
    && version <= 1 && TrunFlagsKnown(flags) && Has(flags, TRUN_DATA_OFFSET)
    && length == RowsPos(flags) + count * RowWidth(flags)
  }

  /** The rows of a readable `trun`, the flags of the first one included. */
  function TrunRows(d: TrackDefaults, version: nat, flags: nat, count: nat, payload: bytes): seq<RunRow>
    requires TrunReadable(version, flags, count, |payload|)
  {
    var rows := ReadRows(version, flags, d, Rows(payload[RowsPos(flags)..], RowWidth(flags), count));
    WithFirst(rows, if Has(flags, TRUN_FIRST_SAMPLE_FLAGS) then Some(U32At(payload, 12) as nat) else None)
  }

  function TrunOffset(version: nat, flags: nat, count: nat, payload: bytes): int
    requires TrunReadable(version, flags, count, |payload|)
  {
    Signed32(U32At(payload, 8))
  }

  /** The rows of a `trun`, and its data offset. */
  function ParseTrun(d: TrackDefaults, payload: bytes): Result<(seq<RunRow>, int)> {
    if |payload| < 8 then Err(MalformedAtom)
    else
      var version, flags, count := payload[0] as nat, U32At(payload, 0) % 0x100_0000, U32At(payload, 4) as nat;
      if !TrunReadable(version, flags, count, |payload|) then Err(MalformedAtom)
      else Ok((TrunRows(d, version, flags, count, payload), TrunOffset(version, flags, count, payload)))
  }

  /** A run of the fragment whose `moof` starts at `moofStart`. */
  function ReadTrun(data: bytes, moofStart: nat, d: TrackDefaults, payload: bytes): Result<seq<Sample>> {
    var run :- ParseTrun(d, payload);
    Collect(data, run.0, moofStart + run.1)
  }

  /** The track; its data offsets must count from the `moof`, and nothing else may be set. */
  function ReadTfhd(payload: bytes): Result<nat> {
    if |payload| != 8 || U32At(payload, 0) != TFHD_BASE_IS_MOOF then Err(MalformedAtom) else Ok(U32At(payload, 4))
  }

  function ReadTfdt(payload: bytes): Result<nat> {
    if |payload| == 12 && payload[0] == 1 then Ok(U64At(payload, 4))
    else if |payload| == 8 && payload[0] == 0 then Ok(U32At(payload, 4))
    else Err(MalformedAtom)
  }

  /** The samples refer to the one sample entry of their track. */
  function ReadTrex(payload: bytes): Result<TrackDefaults> {
    if |payload| != 24 || U32At(payload, 0) != 0 || U32At(payload, 8) != 1 then Err(MalformedAtom)
    else Ok(TrackDefaults(U32At(payload, 4), U32At(payload, 12), U32At(payload, 16), U32At(payload, 20)))
  }

  function OfType(hs: seq<BoxHeader>, fourcc: FourCC): seq<BoxHeader> {
    if |hs| == 0 then []
    else if hs[0].boxType == fourcc then [hs[0]] + OfType(hs[1..], fourcc)
    else OfType(hs[1..], fourcc)
  }

  /** The one box of a given type. */
  function Only(hs: seq<BoxHeader>, fourcc: FourCC): Result<BoxHeader> {
    var found := OfType(hs, fourcc);
    if |found| == 0 then Err(MissingAtom) else if |found| > 1 then Err(MalformedAtom) else Ok(found[0])
  }

  function PayloadOf(data: bytes, h: BoxHeader): bytes {
    if h.PayloadOffset() <= h.End() <= |data| then data[h.PayloadOffset()..h.End()] else []
  }

  function DefaultsFor(defaults: seq<TrackDefaults>, trackId: nat): Result<TrackDefaults> {
    if |defaults| == 0 then Err(MissingAtom)
    else if defaults[0].trackId == trackId then Ok(defaults[0])
    else DefaultsFor(defaults[1..], trackId)
  }

  function ReadTraf(data: bytes, moofStart: nat, defaults: seq<TrackDefaults>, traf: BoxHeader)
    : Result<TrackFragment>
  {
    var children :- Scan(data, traf.PayloadOffset(), traf.End());
    var tfhd :- Only(children, Code("tfhd"));
    var tfdt :- Only(children, Code("tfdt"));
    var trun :- Only(children, Code("trun"));
    var trackId :- ReadTfhd(PayloadOf(data, tfhd));
    var baseDts :- ReadTfdt(PayloadOf(data, tfdt));
    var d :- DefaultsFor(defaults, trackId);
    var samples :- ReadTrun(data, moofStart, d, PayloadOf(data, trun));
    Ok(TrackFragment(trackId, baseDts, samples))
  }

  function ReadTrafs(data: bytes, moofStart: nat, defaults: seq<TrackDefaults>, trafs: seq<BoxHeader>)
    : Result<seq<TrackFragment>>
  {
    if |trafs| == 0 then Ok([])
    else
      var first :- ReadTraf(data, moofStart, defaults, trafs[0]);
      var rest :- ReadTrafs(data, moofStart, defaults, trafs[1..]);
      Ok([first] + rest)
  }

  /** All the tracks of a media segment, read with the defaults of its init segment. */
  function ReadFragment(defaults: seq<TrackDefaults>, data: bytes): Result<seq<TrackFragment>> {
    var top :- Scan(data, 0, |data|);
    var moof :- Only(top, Code("moof"));
    var children :- Scan(data, moof.PayloadOffset(), moof.End());
    ReadTrafs(data, moof.start, defaults, OfType(children, Code("traf")))
  }

  /** The sequence number of the fragment (section 8.8.5). */
  function ReadSequence(data: bytes): Result<nat> {
    var top :- Scan(data, 0, |data|);
    var moof :- Only(top, Code("moof"));
    var children :- Scan(data, moof.PayloadOffset(), moof.End());
    var mfhd :- Only(children, Code("mfhd"));
    var p := PayloadOf(data, mfhd);
    if |p| != 8 || U32At(p, 0) != 0 then Err(MalformedAtom) else Ok(U32At(p, 4))
  }

  /** The major brand and, behind the minor version, the compatible brands (section 4.3). */
  function BrandsIn(payload: bytes): Result<seq<bytes>> {
    if |payload| < 8 || |payload| % 4 != 0 then Err(MalformedAtom)
    else Ok([payload[..4]] + Rows(payload[8..], 4, (|payload| - 8) / 4))
  }

  /** The brands of the segment (section 8.16.2). */
  function ReadBrands(data: bytes): Result<seq<bytes>> {
    var top :- Scan(data, 0, |data|);
    var styp :- Only(top, Code("styp"));
    BrandsIn(PayloadOf(data, styp))
  }

  function ReadTrexes(data: bytes, boxes: seq<BoxHeader>): Result<seq<TrackDefaults>> {
    if |boxes| == 0 then Ok([])
    else
      var first :- ReadTrex(PayloadOf(data, boxes[0]));
      var rest :- ReadTrexes(data, boxes[1..]);
      Ok([first] + rest)
  }

  /** The defaults of all the tracks of an init segment. */
  function ReadDefaults(init: bytes): Result<seq<TrackDefaults>> {
    var top :- Scan(init, 0, |init|);
    var moov :- Only(top, Code("moov"));
    var children :- Scan(init, moov.PayloadOffset(), moov.End());
    var mvex :- Only(children, Code("mvex"));
    var boxes :- Scan(init, mvex.PayloadOffset(), mvex.End());
    ReadTrexes(init, OfType(boxes, Code("trex")))
  }
}
