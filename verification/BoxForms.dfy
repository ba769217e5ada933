/**
 Boxes in all three size forms (section 4.2 of ISO/IEC 14496-12), laid out apart from the scanner, and
 what the scanner makes of them.
 */
module BoxForms {
  import opened Boxes
  import opened BoxReader
  import opened Bytes
  import opened Wrappers

  /** A 32-bit size, a 64-bit size behind the type, or none: up to the end of the container. */
  datatype Form = Short | Large | ToEnd {
    function HeaderLen(): nat {
      if Large? then 16 else 8
    }

    /** The largest box that can state its size. */
    function Limit(): nat {
      match this
      case Short => U32_MAX
      case Large => U64_MAX
      case ToEnd => U64_MAX
    }
  }

  /** The header of a box of `size` bytes, header included. */
  function Head(form: Form, fourcc: FourCC, size: nat): (b: bytes)
    ensures |b| == form.HeaderLen()
  {
    match form
    case Short => Be32(size) + fourcc
    case Large => Be32(1) + fourcc + Be64(size)
    case ToEnd => Be32(0) + fourcc
  }

  datatype Formed = Formed(form: Form, fourcc: FourCC, payload: bytes) {
    function Size(): nat {
      form.HeaderLen() + |payload|
    }

    function Encode(): (b: bytes)
      ensures |b| == Size()
    {
      Head(form, fourcc, Size()) + payload
    }

    function HeaderAt(pos: nat): BoxHeader {
      BoxHeader(fourcc, pos, form.HeaderLen(), Size())
    }
  }

  // ---------- One header ----------

  /** The bytes at `h.start` are a header of this form for the box `h`, in a container that ends at `end`. */
  predicate HeadLies(data: bytes, h: BoxHeader, end: nat, form: Form) {
    && h.headerSize == form.HeaderLen() <= h.declaredSize && h.End() <= end
    && (form.ToEnd? || h.declaredSize <= form.Limit()) && (form.ToEnd? ==> h.End() == end)
    && h.PayloadOffset() <= |data|
    && data[h.start..h.PayloadOffset()] == Head(form, h.boxType, h.declaredSize)
  }

  lemma ShortFields(data: bytes, pos: nat, size: nat, fourcc: FourCC)
    requires pos + 8 <= |data| && size <= U32_MAX
    ensures data[pos..pos + 8] == Be32(size) + fourcc <==> U32At(data, pos) == size && data[pos + 4..pos + 8] == fourcc
  {
    hide Be32, ReadBe;
    var b := data[pos..pos + 8];
    SubSlice(data, pos, pos + 8, 0, 4);
    SubSlice(data, pos, pos + 8, 4, 8);
    Be32ReadBack(size);
    WordWritesBack(data, pos);
    assert (Be32(size) + fourcc)[0..4] == Be32(size) && (Be32(size) + fourcc)[4..8] == fourcc;
    assert b == b[0..4] + b[4..8];
  }

  lemma LargeFields(data: bytes, pos: nat, size: nat, fourcc: FourCC)
    requires pos + 16 <= |data| && size <= U64_MAX
    ensures data[pos..pos + 16] == Be32(1) + fourcc + Be64(size)
            <==> U32At(data, pos) == 1 && data[pos + 4..pos + 8] == fourcc && U64At(data, pos + 8) == size
  {
    hide Be32, Be64, ReadBe;
    var b, head := data[pos..pos + 16], Be32(1) + fourcc;
    SubSlice(data, pos, pos + 16, 0, 8);
    SubSlice(data, pos, pos + 16, 8, 16);
    ShortFields(data, pos, 1, fourcc);
    Be64ReadBack(size);
    LongWritesBack(data, pos + 8);
    assert (head + Be64(size))[0..8] == head && (head + Be64(size))[8..16] == Be64(size);
    assert b == b[0..8] + b[8..16];
  }

  /** A header is read exactly if it lies there in one of the three forms; the form decides what it says. */
  lemma HeaderMeaning(data: bytes, pos: nat, end: nat, h: BoxHeader)
    requires pos < end
    ensures HeaderAt(data, pos, end) == Ok(h) <==> h.start == pos && exists form :: HeadLies(data, h, end, form)
  {
    if exists form :: h.start == pos && HeadLies(data, h, end, form) {
      var form :| HeadLies(data, h, end, form);
      HeadIsRead(data, h, end, form);
    }
    if HeaderAt(data, pos, end) == Ok(h) {
      HeadWasThere(data, pos, end, h);
    }
  }

  lemma HeadIsRead(data: bytes, h: BoxHeader, end: nat, form: Form)
    requires HeadLies(data, h, end, form)
    ensures HeaderAt(data, h.start, end) == Ok(h)
  {
    hide Be32, Be64, U32At, U64At;
    match form {
      case Short => ShortFields(data, h.start, h.declaredSize, h.boxType);
      case Large => LargeFields(data, h.start, h.declaredSize, h.boxType);
      case ToEnd => ShortFields(data, h.start, 0, h.boxType);
    }
  }

  lemma HeadWasThere(data: bytes, pos: nat, end: nat, h: BoxHeader)
    requires pos < end && HeaderAt(data, pos, end) == Ok(h)
    ensures h.start == pos && exists form :: HeadLies(data, h, end, form)
  {
    hide Be32, Be64, U32At, U64At;
    var size := U32At(data, pos);
    if size == 1 {
      LargeFields(data, pos, h.declaredSize, h.boxType);
      assert HeadLies(data, h, end, Large);
    } else if size == 0 {
      ShortFields(data, pos, 0, h.boxType);
      assert HeadLies(data, h, end, ToEnd);
    } else {
      ShortFields(data, pos, h.declaredSize, h.boxType);
      assert HeadLies(data, h, end, Short);
    }
  }

  /** Reading fails, instead of refusing the box, exactly if the source ends inside a header that fits its container. */
  lemma HeaderFails(data: bytes, pos: nat, end: nat)
    requires pos < end && HeaderAt(data, pos, end).Err?
    ensures HeaderAt(data, pos, end).error == Io || HeaderAt(data, pos, end).error == MalformedAtom
    ensures HeaderAt(data, pos, end).error == Io
            <==> || (pos + 8 <= end && |data| < pos + 8)
                 || (pos + 16 <= end && pos + 8 <= |data| < pos + 16 && data[pos..pos + 4] == Be32(1))
  {
    hide Be32, ReadBe;
    if pos + 8 <= |data| {
      Be32ReadBack(1);
      WordWritesBack(data, pos);
    }
  }

  // ---------- Many boxes ----------

  function EncodeForms(boxes: seq<Formed>): bytes {
    if |boxes| == 0 then [] else boxes[0].Encode() + EncodeForms(boxes[1..])
  }

  function FormHeaders(boxes: seq<Formed>, pos: nat): (hs: seq<BoxHeader>)
    ensures |hs| == |boxes|
  {
    if |boxes| == 0 then []
    else [boxes[0].HeaderAt(pos)] + FormHeaders(boxes[1..], pos + boxes[0].Size())
  }

  /** Boxes that state sizes can state them; only the last may leave its size out. */
  predicate Mixed(boxes: seq<Formed>) {
    forall i :: 0 <= i < |boxes| ==>
                  if boxes[i].form.ToEnd? then i == |boxes| - 1 else boxes[i].Size() <= boxes[i].form.Limit()
  }

  lemma FormedHead(data: bytes, pos: nat, end: nat, b: Formed)
    requires pos + b.Size() <= end && pos + b.Size() <= |data| && data[pos..pos + b.Size()] == b.Encode()
    requires if b.form.ToEnd? then pos + b.Size() == end else b.Size() <= b.form.Limit()
    ensures HeaderAt(data, pos, end) == Ok(b.HeaderAt(pos))
    ensures data[pos + b.form.HeaderLen()..pos + b.Size()] == b.payload
  {
    hide Head, HeaderAt;
    SubSlice(data, pos, pos + b.Size(), 0, b.form.HeaderLen());
    SubSlice(data, pos, pos + b.Size(), b.form.HeaderLen(), b.Size());
    HeadIsRead(data, b.HeaderAt(pos), end, b.form);
  }

  lemma {:induction false} FormsHead(data: bytes, pos: nat, end: nat, boxes: seq<Formed>)
    requires pos <= end <= |data| && data[pos..end] == EncodeForms(boxes) && |boxes| > 0
    ensures pos + boxes[0].Size() <= end
    ensures data[pos..pos + boxes[0].Size()] == boxes[0].Encode()
    ensures data[pos + boxes[0].Size()..end] == EncodeForms(boxes[1..])
  {
    hide Formed.Encode, Formed.Size;
    SubSlice(data, pos, end, 0, boxes[0].Size());
    SubSlice(data, pos, end, boxes[0].Size(), end - pos);
  }

  lemma {:induction false} NoForms(data: bytes, pos: nat)
    ensures EncodeForms([]) == [] && FormHeaders([], pos) == [] && Tiles(data, pos, pos) == Ok([])
  {}

  lemma MixedRest(boxes: seq<Formed>)
    requires Mixed(boxes) && |boxes| > 0
    ensures Mixed(boxes[1..]) && (|boxes| > 1 ==> !boxes[0].form.ToEnd?)
    ensures !boxes[0].form.ToEnd? ==> boxes[0].Size() <= boxes[0].form.Limit()
  {
    forall i | 0 <= i < |boxes| - 1
      ensures if boxes[1..][i].form.ToEnd? then i == |boxes| - 2
              else boxes[1..][i].Size() <= boxes[1..][i].form.Limit()
    {
      assert boxes[1..][i] == boxes[i + 1];
    }
  }

  lemma {:induction false} TilesOfForms(data: bytes, pos: nat, end: nat, boxes: seq<Formed>)
    requires pos <= end <= |data| && data[pos..end] == EncodeForms(boxes) && Mixed(boxes)
    ensures Tiles(data, pos, end) == Ok(FormHeaders(boxes, pos))
    decreases |boxes|
  {
    hide HeaderAt, Formed.Encode, Mixed, EncodeForms;
    NoForms(data, pos);
    if |boxes| == 0 {
      assert boxes == [] && pos == end;
    } else {
      var next := pos + boxes[0].Size();
      FormsHead(data, pos, end, boxes);
      MixedRest(boxes);
      if |boxes| == 1 {
        assert boxes[1..] == [];
      }
      FormedHead(data, pos, end, boxes[0]);
      TilesOfForms(data, next, end, boxes[1..]);
    }
  }

  /**
   Scanning boxes that mix 32-bit and 64-bit sizes freely, the last perhaps without a size, returns them in
   order, each with its full extent, without vendor extensions.
   */
  lemma {:induction false} ScanOfForms(data: bytes, pos: nat, end: nat, boxes: seq<Formed>)
    requires pos <= end <= |data| && data[pos..end] == EncodeForms(boxes) && Mixed(boxes)
    ensures Scan(data, pos, end) == Ok(Visible(FormHeaders(boxes, pos)))
  {
    hide Tiles, Scan, FormHeaders, Visible, Mixed, EncodeForms;
    TilesOfForms(data, pos, end, boxes);
    ScanYieldsVisibleTiles(data, pos, end);
  }

  /** Behind its header lies the payload of each box. */
  lemma {:induction false} FormAt(data: bytes, pos: nat, end: nat, boxes: seq<Formed>, i: nat)
    requires pos <= end <= |data| && data[pos..end] == EncodeForms(boxes) && i < |boxes|
    ensures var h := FormHeaders(boxes, pos)[i];
            && h.boxType == boxes[i].fourcc && pos <= h.start && h.PayloadOffset() <= h.End() <= end
            && data[h.PayloadOffset()..h.End()] == boxes[i].payload
    decreases |boxes|
  {
    hide Head, EncodeForms;
    var b := boxes[0];
    FormsHead(data, pos, end, boxes);
    if i == 0 {
      SubSlice(data, pos, pos + b.Size(), b.form.HeaderLen(), b.Size());
    } else {
      FormAt(data, pos + b.Size(), end, boxes[1..], i - 1);
    }
  }
}
