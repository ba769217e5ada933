/**
 The two `Write + Seek` targets the writers run against: a growing buffer with a cursor, and a
 sink that only counts. `Sink` is the closed choice between them.
 */
module Sinks {
  import opened Bytes
  import opened Wrappers

  /** Writing `b` at `pos`: bytes there are replaced, a gap is filled with zeros, the end may grow. */
  function Overwrite(buf: bytes, pos: nat, b: bytes): (r: bytes)
    ensures |r| == if pos + |b| > |buf| then pos + |b| else |buf|
  {
    (if pos <= |buf| then buf[..pos] else buf + Zeros(pos - |buf|)) + b
    + (if pos + |b| <= |buf| then buf[pos + |b|..] else [])
  }

  lemma OverwriteInside(buf: bytes, pos: nat, b: bytes)
    requires pos + |b| <= |buf|
    ensures Overwrite(buf, pos, b) == Patch(buf, pos, b)
  {}

  class MemCursor {
    var buf: bytes
    var pos: nat

    constructor ()
      ensures buf == [] && pos == 0
    {
      buf, pos := [], 0;
    }

    method Write(b: bytes) returns (r: Result<()>)
      modifies this
      ensures r.Ok? <==> old(pos) + |b| <= U64_MAX
      ensures r.Ok? ==> buf == Overwrite(old(buf), old(pos), b) && pos == old(pos) + |b|
      ensures r.Err? ==> unchanged(this) && r.error == Io
    {
      if pos + |b| > U64_MAX {
        return Err(Io);
      }
      buf := Overwrite(buf, pos, b);
      pos := pos + |b|;
      return Ok(());
    }

    method Seek(to: nat)
      modifies this
      ensures pos == to && buf == old(buf)
    {
      pos := to;
    }
  }

  datatype SeekFrom = Start(p: u64) | End(d: i64) | Current(d: i64)

  /** Moving a position fails exactly if the result leaves 64 bits. */
  function OffsetFrom(base: u64, delta: i64): (r: Result<u64>)
    ensures r.Ok? <==> 0 <= base as int + delta as int <= U64_MAX
    ensures r.Ok? ==> r.value - base == delta
    ensures r.Err? ==> r.error == Io
  {
    if delta >= 0 then if delta > U64_MAX - base then Err(Io) else Ok(base + delta)
    else
      var back: u64 := -(delta as int);
      if back > base then Err(Io) else Ok(base - back)
  }

  /** Tracks the cursor and the high-water mark; `image` is what a real buffer would hold. */
  class CountingSink {
    var pos: u64
    var len: u64
    ghost var image: bytes

    ghost predicate Valid()
      reads this
    {
      len == |image|
    }

    constructor ()
      ensures Valid() && image == [] && pos == 0
    {
      pos, len, image := 0, 0, [];
    }

    method Write(b: bytes) returns (r: Result<()>)
      requires Valid()
      modifies this
      ensures Valid()
      ensures r.Ok? <==> old(pos) + |b| <= U64_MAX
      ensures r.Ok? ==> image == Overwrite(old(image), old(pos), b) && pos == old(pos) + |b|
      ensures r.Err? ==> unchanged(this) && r.error == Io
    {
      if pos + |b| > U64_MAX {
        return Err(Io);
      }
      image := Overwrite(image, pos, b);
      pos := pos + |b|;
      if pos > len {
        len := pos;
      }
      return Ok(());
    }

    /** Where a seek goes, counted without bounds. */
    ghost function Target(from: SeekFrom): int
      reads this
    {
      match from
      case Start(p) => p
      case End(d) => len as int + d as int
      case Current(d) => pos as int + d as int
    }

    method Seek(from: SeekFrom) returns (r: Result<u64>)
      requires Valid()
      modifies this
      ensures Valid() && image == old(image)
      ensures r.Ok? <==> 0 <= old(Target(from)) <= U64_MAX
      ensures r.Ok? ==> pos == r.value == old(Target(from))
      ensures r.Err? ==> pos == old(pos) && r.error == Io
    {
      var to: u64;
      match from {
        case Start(p) => to := p;
        case End(d) => to :- OffsetFrom(len, d);
        case Current(d) => to :- OffsetFrom(pos, d);
      }
      pos := to;
      return Ok(pos);
    }
  }

  datatype Sink = Memory(mem: MemCursor) | Counting(count: CountingSink) {

    function Obj(): object {
      match this
      case Memory(m) => m
      case Counting(c) => c
    }

    ghost predicate Valid()
      reads Obj()
    {
      Counting? ==> count.Valid()
    }

    /** The bytes written so far, whether or not they are kept. */
    ghost function Image(): bytes
      reads Obj()
    {
      match this
      case Memory(m) => m.buf
      case Counting(c) => c.image
    }

    function Position(): nat
      reads Obj()
    {
      match this
      case Memory(m) => m.pos
      case Counting(c) => c.pos
    }

    /** Valid, with the cursor at the end, where writers leave it between boxes. */
    ghost predicate AtEnd()
      reads Obj()
    {
      Valid() && Position() == |Image()|
    }

    /** Append at the end. Within 64 bits this cannot fail. */
    method Write(b: bytes)
      requires AtEnd() && |Image()| + |b| <= U64_MAX
      modifies Obj()
      ensures AtEnd() && Image() == old(Image()) + b
    {
      match this {
        case Memory(m) => var r := m.Write(b);
        case Counting(c) => var r := c.Write(b);
      }
      assert Image() == old(Image()) + b;
    }

    /** Append to the part `p` that follows `base`. */
    method Put(b: bytes, ghost base: bytes, ghost p: bytes)
      requires AtEnd() && Image() == base + p && |Image()| + |b| <= U64_MAX
      modifies Obj()
      ensures AtEnd() && Image() == base + (p + b)
    {
      Assoc(base, p, b);
      Write(b);
    }

    /** The same, naming the longer part. */
    method Append(b: bytes, ghost base: bytes, ghost p: bytes) returns (ghost q: bytes)
      requires AtEnd() && Image() == base + p && |Image()| + |b| <= U64_MAX
      modifies Obj()
      ensures q == p + b && AtEnd() && Image() == base + q
    {
      Put(b, base, p);
      q := p + b;
    }

    /** Go back to `to`, overwrite, and return to where the cursor was. */
    method PatchAt(to: nat, b: bytes)
      requires AtEnd() && to + |b| <= |Image()| <= U64_MAX
      modifies Obj()
      ensures AtEnd() && Image() == Patch(old(Image()), to, b)
    {
      var end := Position();
      OverwriteInside(Image(), to, b);
      match this {
        case Memory(m) =>
          m.Seek(to);
          var r := m.Write(b);
          m.Seek(end);
        case Counting(c) =>
          var back := c.Seek(Start(to));
          var r := c.Write(b);
          var forth := c.Seek(Start(end));
      }
    }
  }
}
