/** Box-header scanner over a byte range of the source. */
module BoxReader {
  import opened Boxes
  import opened Bytes
  import opened Sources
  import opened Wrappers

  /** One parsed header. The payload is `[PayloadOffset(), End())`. */
  datatype BoxHeader = BoxHeader(boxType: FourCC, start: nat, headerSize: nat, declaredSize: nat) {
    function PayloadOffset(): nat {
      start + headerSize
    }

    function End(): nat {
      start + declaredSize
    }

    function PayloadLen(): nat {
      if headerSize <= declaredSize then declaredSize - headerSize else 0
    }
  }

  // ---------- What one header says ----------

  /**
   The box at `pos` of the container that ends at `end`: 32-bit size, 64-bit size when the size field
   is 1, or up to the end of the container when it is 0 (section 4.2 of ISO/IEC 14496-12).
   */
  function HeaderAt(data: bytes, pos: nat, end: nat): (r: Result<BoxHeader>)
    requires pos < end
    ensures r.Ok? ==> && r.value.start == pos && r.value.End() <= end
                      && 8 <= r.value.headerSize <= r.value.declaredSize
                      && pos + r.value.headerSize <= |data|
  {
    var remaining := end - pos;
    if remaining < 8 then Err(MalformedAtom)
    else if !Readable(data, pos, 8) then Err(Io)
    else
      var size32 := U32At(data, pos);
      var boxType := data[pos + 4..pos + 8];
      if size32 == 1 then
        if remaining < 16 then Err(MalformedAtom)
        else if !Readable(data, pos + 8, 8) then Err(Io)
        else Checked(BoxHeader(boxType, pos, 16, U64At(data, pos + 8)), remaining)
      else if size32 == 0 then Checked(BoxHeader(boxType, pos, 8, remaining), remaining)
      else Checked(BoxHeader(boxType, pos, 8, size32), remaining)
  }

  /** A box holds its own header and fits its container. */
  function Checked(h: BoxHeader, remaining: nat): Result<BoxHeader> {
    if h.declaredSize < h.headerSize || h.declaredSize > remaining then Err(MalformedAtom) else Ok(h)
  }

  /** The first box from `pos` on that is not a vendor extension. */
  function First(data: bytes, pos: nat, end: nat): (r: Result<Option<BoxHeader>>)
    ensures r.Ok? && r.value.Some? ==>
              && pos <= r.value.value.start < r.value.value.End() <= end
              && HeaderAt(data, r.value.value.start, end) == Ok(r.value.value)
              && r.value.value.boxType != Code("uuid")
    decreases end - pos
  {
    if pos >= end then Ok(None)
    else
      var h :- HeaderAt(data, pos, end);
      if h.boxType == Code("uuid") then First(data, h.End(), end) else Ok(Some(h))
  }

  function Prepend(h: BoxHeader, r: Result<seq<BoxHeader>>): Result<seq<BoxHeader>> {
    if r.Ok? then Ok([h] + r.value) else r
  }

  /** Everything that repeated calls of the iterator yield. */
  function Scan(data: bytes, pos: nat, end: nat): (r: Result<seq<BoxHeader>>)
    decreases end - pos
  {
    var first :- First(data, pos, end);
    if first.None? then Ok([]) else Prepend(first.value, Scan(data, first.value.End(), end))
  }

  // ---------- The iterator ----------

  class BoxIter {
    const reader: Source
    const end: nat
    var cursor: nat

    constructor (reader: Source, start: nat, end: nat)
      ensures this.reader == reader && this.end == end && cursor == start
    {
      this.reader := reader;
      this.end := end;
      cursor := start;
    }

    /** Read and check the header at the cursor. */
    method ReadHeader() returns (r: Result<BoxHeader>)
      requires cursor < end
      ensures r == HeaderAt(reader.data, cursor, end)
    {
      var remaining := end - cursor;
      if remaining < 8 {
        return Err(MalformedAtom);
      }
      var head :- ReadBytes(reader, cursor, 8);
      SubSlice(reader.data, cursor, cursor + 8, 0, 4);
      SubSlice(reader.data, cursor, cursor + 8, 4, 8);
      var size32 := U32At(head, 0);
      var declaredSize: nat, headerSize := size32, 8;
      if size32 == 1 {
        if remaining < 16 {
          return Err(MalformedAtom);
        }
        var large :- ReadBytes(reader, cursor + 8, 8);
        assert large[0..8] == large;
        declaredSize, headerSize := U64At(large, 0), 16;
      } else if size32 == 0 {
        declaredSize := remaining;
      }
      if declaredSize < headerSize || declaredSize > remaining {
        return Err(MalformedAtom);
      }
      return Ok(BoxHeader(head[4..8], cursor, headerSize, declaredSize));
    }

    /** The next header; on failure the cursor stays on the header that is malformed. */
    method NextHeader() returns (r: Result<Option<BoxHeader>>)
      modifies this
      ensures r == First(reader.data, old(cursor), end)
      ensures r.Ok? && r.value.Some? ==> cursor == r.value.value.End()
      ensures r.Ok? && r.value.None? ==> old(cursor) <= cursor && end <= cursor
      ensures old(cursor) <= end ==> cursor <= end
      ensures r.Err? ==> old(cursor) <= cursor < end && HeaderAt(reader.data, cursor, end) == Err(r.error)
    {
      while true
        invariant old(cursor) <= cursor
        invariant old(cursor) <= end ==> cursor <= end
        invariant First(reader.data, cursor, end) == First(reader.data, old(cursor), end)
        decreases end - cursor
      {
        if cursor >= end {
          return Ok(None);
        }
        var read := ReadHeader();
        if read.Err? {
          return Err(read.error);
        }
        cursor := read.value.End();
        if read.value.boxType != Code("uuid") {
          return Ok(Some(read.value));
        }
      }
    }
  }

  // ---------- Tiling ----------

  /** All the boxes of a range, vendor extensions included. */
  function Tiles(data: bytes, pos: nat, end: nat): (r: Result<seq<BoxHeader>>)
    decreases end - pos
  {
    if pos >= end then Ok([])
    else
      var h :- HeaderAt(data, pos, end);
      var rest :- Tiles(data, h.End(), end);
      Ok([h] + rest)
  }

  function Visible(hs: seq<BoxHeader>): seq<BoxHeader> {
    if |hs| == 0 then []
    else if hs[0].boxType == Code("uuid") then Visible(hs[1..])
    else [hs[0]] + Visible(hs[1..])
  }

  /** The iterator yields exactly the boxes of the range that are not vendor extensions. */
  lemma {:induction false} ScanYieldsVisibleTiles(data: bytes, pos: nat, end: nat)
    ensures Scan(data, pos, end) == match Tiles(data, pos, end)
                                    case Ok(ts) => Ok(Visible(ts))
                                    case Err(e) => Err(e)
    decreases end - pos
  {
    if pos < end {
      var h := HeaderAt(data, pos, end);
      if h.Ok? {
        ScanYieldsVisibleTiles(data, h.value.End(), end);
        var rest := Tiles(data, h.value.End(), end);
        if rest.Ok? {
          assert ([h.value] + rest.value)[1..] == rest.value;
        }
      }
    }
  }

  /** Boxes that a scan walks over lie side by side and cover the range exactly. */
  lemma {:induction false} TilesCover(data: bytes, pos: nat, end: nat)
    requires pos <= end && Tiles(data, pos, end).Ok?
    ensures var ts := Tiles(data, pos, end).value;
            && (|ts| == 0 <==> pos == end)
            && (|ts| > 0 ==> ts[0].start == pos && ts[|ts| - 1].End() == end)
            && (forall i :: 0 <= i < |ts| - 1 ==> ts[i].End() == ts[i + 1].start)
            && (forall i :: 0 <= i < |ts| ==> 8 <= ts[i].headerSize <= ts[i].declaredSize)
    decreases end - pos
  {
    if pos < end {
      TilesCover(data, HeaderAt(data, pos, end).value.End(), end);
    }
  }

  // ---------- Encoded boxes ----------

  /** The headers of `boxes` written one after another from `pos`. */
  function Headers(boxes: seq<Plain>, pos: nat): (hs: seq<BoxHeader>)
    ensures |hs| == |boxes|
    ensures forall i :: 0 <= i < |hs| ==> hs[i].boxType == boxes[i].fourcc && hs[i].headerSize == 8
                                          && hs[i].declaredSize == boxes[i].Size()
  {
    if |boxes| == 0 then []
    else [BoxHeader(boxes[0].fourcc, pos, 8, boxes[0].Size())] + Headers(boxes[1..], pos + boxes[0].Size())
  }

  /** Boxes that fit their size fields. */
  predicate AllSized(boxes: seq<Plain>) {
    forall i :: 0 <= i < |boxes| ==> boxes[i].Sized()
  }

  lemma {:induction false} AllVisible(hs: seq<BoxHeader>)
    requires forall i :: 0 <= i < |hs| ==> hs[i].boxType != Code("uuid")
    ensures Visible(hs) == hs
  {
    hide Code;
    if |hs| > 0 {
      AllVisible(hs[1..]);
    }
  }

  lemma HeaderOfBox(data: bytes, pos: nat, end: nat, b: Plain)
    requires pos + b.Size() <= end && pos + b.Size() <= |data|
    requires b.Sized() && data[pos..pos + b.Size()] == b.Encode()
    ensures HeaderAt(data, pos, end) == Ok(BoxHeader(b.fourcc, pos, 8, b.Size()))
  {
    BoxFields(data, pos, b);
  }

  /** The first box of an encoding, and the rest. */
  lemma {:induction false} EncodedHead(data: bytes, pos: nat, end: nat, boxes: seq<Plain>)
    requires pos <= end <= |data| && data[pos..end] == EncodeAll(boxes) && |boxes| > 0
    ensures pos + boxes[0].Size() <= end
    ensures data[pos..pos + boxes[0].Size()] == boxes[0].Encode()
    ensures data[pos + boxes[0].Size()..end] == EncodeAll(boxes[1..])
  {
    SubSlice(data, pos, end, 0, boxes[0].Size());
    SubSlice(data, pos, end, boxes[0].Size(), end - pos);
  }

  /** `boxes` lie one after another in `[pos, end)`. */
  ghost predicate Holds(data: bytes, pos: nat, end: nat, boxes: seq<Plain>)
    decreases |boxes|
  {
    if |boxes| == 0 then pos == end
    else
      var next := pos + boxes[0].Size();
      next <= end && next <= |data| && data[pos..next] == boxes[0].Encode() && Holds(data, next, end, boxes[1..])
  }

  lemma {:induction false} EncodedHolds(data: bytes, pos: nat, end: nat, boxes: seq<Plain>)
    requires pos <= end <= |data| && data[pos..end] == EncodeAll(boxes)
    ensures Holds(data, pos, end, boxes)
    decreases |boxes|
  {
    if |boxes| > 0 {
      EncodedHead(data, pos, end, boxes);
      EncodedHolds(data, pos + boxes[0].Size(), end, boxes[1..]);
    }
  }

  lemma {:induction false} TilesOfEncoded(data: bytes, pos: nat, end: nat, boxes: seq<Plain>)
    requires Holds(data, pos, end, boxes) && AllSized(boxes)
    ensures Tiles(data, pos, end) == Ok(Headers(boxes, pos))
    decreases |boxes|
  {
    hide HeaderAt, Plain.Encode;
    if |boxes| > 0 {
      HoldsFits(data, pos + boxes[0].Size(), end, boxes[1..]);
      HeaderOfBox(data, pos, end, boxes[0]);
      TilesOfEncoded(data, pos + boxes[0].Size(), end, boxes[1..]);
    }
  }

  /** Scanning what was written returns the same boxes, in order, each at its own place, without vendor extensions. */
  lemma {:induction false} ScanOfEncoded(data: bytes, pos: nat, end: nat, boxes: seq<Plain>)
    requires Holds(data, pos, end, boxes) && AllSized(boxes)
    ensures Scan(data, pos, end) == Ok(Visible(Headers(boxes, pos)))
  {
    hide Tiles, Scan, Headers, Visible, Holds, Plain.Encode;
    TilesOfEncoded(data, pos, end, boxes);
    ScanYieldsVisibleTiles(data, pos, end);
  }

  lemma {:induction false} HoldsFits(data: bytes, pos: nat, end: nat, boxes: seq<Plain>)
    requires Holds(data, pos, end, boxes)
    ensures pos <= end
    decreases |boxes|
  {
    if |boxes| > 0 {
      HoldsFits(data, pos + boxes[0].Size(), end, boxes[1..]);
    }
  }

  /** Box `i` of the encoding lies where its header says. */
  lemma {:induction false} EncodedAt(data: bytes, pos: nat, end: nat, boxes: seq<Plain>, i: nat)
    requires Holds(data, pos, end, boxes) && i < |boxes|
    ensures var h := Headers(boxes, pos)[i];
            pos <= h.start && h.End() <= end && h.End() <= |data|
            && data[h.start..h.End()] == boxes[i].Encode()
            && data[h.PayloadOffset()..h.End()] == boxes[i].payload
    decreases |boxes|
  {
    var next := pos + boxes[0].Size();
    if i > 0 {
      EncodedAt(data, next, end, boxes[1..], i - 1);
    } else {
      HoldsFits(data, next, end, boxes[1..]);
      SubSlice(data, pos, next, 8, boxes[0].Size());
    }
  }
}
