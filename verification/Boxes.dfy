/** The byte form of ISO/IEC 14496-12 boxes with a 32-bit size (section 4.2). */
module Boxes {
  import opened Bytes

  type FourCC = b: bytes | |b| == 4 witness [0, 0, 0, 0]

  /** The ASCII codes of a short text. */
  function Ascii(s: string): (b: bytes)
    ensures |b| == |s|
  {
    seq(|s|, i requires 0 <= i < |s| => if s[i] < 128 as char then s[i] as int else 0)
  }

  function Code(s: string): (c: FourCC)
    requires |s| == 4
    ensures forall i :: 0 <= i < 4 && s[i] < 128 as char ==> c[i] == s[i] as int
  {
    Ascii(s)
  }

  /** Different names have different codes. */
  lemma CodesDiffer(s: string, t: string)
    requires |s| == |t| == 4 && s != t
    requires forall i :: 0 <= i < 4 ==> s[i] < 128 as char && t[i] < 128 as char
    ensures Code(s) != Code(t)
  {
    var i :| 0 <= i < 4 && s[i] != t[i];
    assert Code(s)[i] != Code(t)[i];
  }

  /** The code as a number: a quick way to tell many codes apart. */
  function Num(c: FourCC): nat {
    c[0] as nat * 0x100_0000 + c[1] as nat * 0x1_0000 + c[2] as nat * 0x100 + c[3]
  }

  /** Size of the whole box, its type, its payload. */
  function Box(fourcc: FourCC, payload: bytes): (b: bytes)
    ensures |b| == 8 + |payload|
  {
    Be32(8 + |payload|) + fourcc + payload
  }

  datatype Plain = Plain(fourcc: FourCC, payload: bytes) {
    function Size(): nat {
      8 + |payload|
    }

    function Encode(): (b: bytes)
      ensures |b| == Size()
    {
      Box(fourcc, payload)
    }

    /** Its size field can hold its size. */
    predicate Sized() {
      Size() <= U32_MAX
    }
  }

  function EncodeAll(boxes: seq<Plain>): bytes {
    if |boxes| == 0 then [] else boxes[0].Encode() + EncodeAll(boxes[1..])
  }

  /** Version and flags of a full box. */
  function FullHeader(version: byte, flags: nat): (b: bytes)
    requires flags <= 0xFF_FFFF
    ensures |b| == 4
  {
    Be32(version * 0x100_0000 + flags)
  }

  /** The version is the first byte. */
  lemma TopByte(version: byte, flags: nat)
    requires flags <= 0xFF_FFFF
    ensures FullHeader(version, flags)[0] == version
  {
    var n := version * 0x100_0000 + flags;
    var q, p := version * 0x1_0000 + flags / 0x100, version * 0x100 + flags / 0x1_0000;
    assert n / 0x100 == q && q / 0x100 == p && p / 0x100 == version;
    FirstDigit(3, n);
    FirstDigit(2, q);
    FirstDigit(1, p);
    assert Be(1, version) == [version % 0x100];
  }

  /** Dropping the last byte does not change the first. */
  lemma {:induction false} FirstDigit(w: nat, n: nat)
    requires w > 0
    ensures Be(w + 1, n)[0] == Be(w, n / 0x100)[0]
  {}

  lemma {:induction false} EncodeAllSnoc(boxes: seq<Plain>, b: Plain)
    ensures EncodeAll(boxes + [b]) == EncodeAll(boxes) + b.Encode()
  {
    EncodeAllAppend(boxes, [b]);
    assert [b][1..] == [];
    assert b.Encode() + [] == b.Encode();
  }

  lemma {:induction false} EncodeAllAppend(xs: seq<Plain>, ys: seq<Plain>)
    ensures EncodeAll(xs + ys) == EncodeAll(xs) + EncodeAll(ys)
  {
    if |xs| == 0 {
      assert xs + ys == ys;
    } else {
      EncodeAllAppend(xs[1..], ys);
      assert (xs + ys)[1..] == xs[1..] + ys;
      Assoc(xs[0].Encode(), EncodeAll(xs[1..]), EncodeAll(ys));
    }
  }

  /** The size field, the type and the payload can be read back off an encoded box. */
  lemma BoxFields(data: bytes, pos: nat, b: Plain)
    requires pos + b.Size() <= |data| && b.Sized()
    requires data[pos..pos + b.Size()] == b.Encode()
    ensures U32At(data, pos) == b.Size()
    ensures data[pos + 4..pos + 8] == b.fourcc
    ensures data[pos + 8..pos + b.Size()] == b.payload
  {
    Middle([], Be32(b.Size()), b.fourcc + b.payload);
    Middle(Be32(b.Size()), b.fourcc, b.payload);
    assert b.Encode() == [] + Be32(b.Size()) + (b.fourcc + b.payload);
    SubSlice(data, pos, pos + b.Size(), 0, 4);
    SubSlice(data, pos, pos + b.Size(), 4, 8);
    SubSlice(data, pos, pos + b.Size(), 8, b.Size());
    Be32ReadBack(b.Size());
  }

  /** Three boxes side by side. */
  lemma ThreeBoxes(a: Plain, b: Plain, c: Plain)
    ensures EncodeAll([a, b, c]) == a.Encode() + b.Encode() + c.Encode()
  {
    hide Plain.Encode, EncodeAll;
    EncodeAllSnoc([a, b], c);
    EncodeAllSnoc([a], b);
    EncodeAllSnoc([], a);
    NoBoxes();
    assert [] + a.Encode() == a.Encode();
    assert [] + [a] == [a] && [a] + [b] == [a, b] && [a, b] + [c] == [a, b, c];
  }

  lemma AppendThree(before: bytes, a: Plain, b: Plain, c: Plain)
    ensures before + a.Encode() + b.Encode() + c.Encode() == before + EncodeAll([a, b, c])
  {
    hide Plain.Encode, EncodeAll;
    ThreeBoxes(a, b, c);
    Assoc(before, a.Encode(), b.Encode());
    Assoc(before, a.Encode() + b.Encode(), c.Encode());
  }

  lemma NoBoxes()
    ensures EncodeAll([]) == []
  {}

  lemma AppendTwo(before: bytes, a: Plain, b: Plain)
    ensures before + a.Encode() + b.Encode() == before + EncodeAll([a, b])
  {
    hide Plain.Encode, EncodeAll;
    EncodeAllSnoc([], a);
    EncodeAllSnoc([a], b);
    NoBoxes();
    assert [] + [a] == [a] && [a] + [b] == [a, b];
    assert [] + a.Encode() == a.Encode();
    Assoc(before, a.Encode(), b.Encode());
  }

  lemma AppendFive(before: bytes, a: Plain, b: Plain, c: Plain, d: Plain, e: Plain)
    ensures before + a.Encode() + b.Encode() + c.Encode() + d.Encode() + e.Encode()
            == before + EncodeAll([a, b, c, d, e])
  {
    hide Plain.Encode, EncodeAll;
    AppendThree(before, a, b, c);
    AppendTwo(before + EncodeAll([a, b, c]), d, e);
    assert [a, b, c, d, e] == [a, b, c] + [d, e];
    EncodeAllAppend([a, b, c], [d, e]);
    Assoc(before, EncodeAll([a, b, c]), EncodeAll([d, e]));
  }

  lemma AppendFour(before: bytes, a: Plain, b: Plain, c: Plain, d: Plain)
    ensures before + a.Encode() + b.Encode() + c.Encode() + d.Encode() == before + EncodeAll([a, b, c, d])
  {
    hide Plain.Encode, EncodeAll;
    AppendThree(before, a, b, c);
    assert [a, b, c, d] == [a, b, c] + [d];
    EncodeAllSnoc([a, b, c], d);
    Assoc(before, EncodeAll([a, b, c]), d.Encode());
  }
}
