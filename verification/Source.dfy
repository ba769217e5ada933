/** Random-access reads over the source file, and the loop that completes short reads. */
module Sources {
  import opened Bytes
  import opened Wrappers

  /** Half-open range `[offset, offset + len)` of the source. */
  datatype ByteRange = ByteRange(offset: nat, len: nat)

  /** `len` bytes can be read at `offset`; an empty read always succeeds. */
  predicate Readable(data: bytes, offset: nat, len: nat) {
    len == 0 || offset + len <= |data|
  }

  function Slice(data: bytes, offset: nat, len: nat): (s: bytes)
    requires Readable(data, offset, len)
    ensures |s| == len
  {
    if len == 0 then [] else data[offset..offset + len]
  }

  /** This range can be read. */
  predicate InFile(data: bytes, r: ByteRange) {
    Readable(data, r.offset, r.len)
  }

  function Blob(data: bytes, r: ByteRange): bytes
    requires InFile(data, r)
  {
    Slice(data, r.offset, r.len)
  }

  /** What reading `len` bytes at `offset` gives. */
  function Fetch(data: bytes, offset: nat, len: nat): Result<bytes> {
    if Readable(data, offset, len) then Ok(Slice(data, offset, len)) else Err(Io)
  }

  const ISIZE_MAX := 0x7FFF_FFFF_FFFF_FFFF

  /** What a reader can hold. Both readers are byte slices, which have at most 2^63 - 1 bytes. */
  type Contents = b: bytes | |b| <= ISIZE_MAX witness []

  class Source {
    const data: Contents

    constructor (data: Contents)
      ensures this.data == data
    {
      this.data := data;
    }

    /**
     Copy some bytes from `offset` into `buf[at..at + len]`. A read inside the source may be short
     by any amount, but it is empty only when nothing was asked for or the source has ended.
     */
    method ReadAt(offset: nat, buf: array<byte>, at: nat, len: nat) returns (n: nat)
      requires at + len <= buf.Length
      modifies buf
      ensures n <= len
      ensures n == 0 <==> len == 0 || offset >= |data|
      ensures n > 0 ==> offset + n <= |data| && buf[at..at + n] == data[offset..offset + n]
      ensures buf[..at] == old(buf[..at])
    {
      if len == 0 || offset >= |data| {
        return 0;
      }
      var most := if len <= |data| - offset then len else |data| - offset;
      n :| 1 <= n <= most;
      forall i | 0 <= i < n {
        buf[at + i] := data[offset + i];
      }
    }
  }

  /** Fill `buf` from `offset`, whatever the sizes of the single reads. */
  method ReadExact(src: Source, offset: nat, buf: array<byte>) returns (r: Result<()>)
    modifies buf
    ensures r.Ok? <==> Readable(src.data, offset, buf.Length)
    ensures r.Ok? ==> buf[..] == Slice(src.data, offset, buf.Length)
    ensures r.Err? ==> r.error == Io
  {
    var filled := 0;
    while filled < buf.Length
      invariant filled <= buf.Length
      invariant filled > 0 ==> offset + filled <= |src.data| && buf[..filled] == src.data[offset..offset + filled]
    {
      var n := src.ReadAt(offset + filled, buf, filled, buf.Length - filled);
      if n == 0 {
        return Err(Io);
      }
      assert buf[..filled + n] == buf[..filled] + buf[filled..filled + n];
      assert filled > 0 ==> src.data[offset..offset + filled] + src.data[offset + filled..offset + filled + n]
                            == src.data[offset..offset + filled + n];
      filled := filled + n;
    }
    assert buf[..] == buf[..filled];
    return Ok(());
  }

  /** A fresh copy of `len` bytes at `offset`. */
  method ReadBytes(src: Source, offset: nat, len: nat) returns (r: Result<bytes>)
    ensures r.Ok? <==> Readable(src.data, offset, len)
    ensures r.Ok? ==> r.value == Slice(src.data, offset, len)
    ensures r == Fetch(src.data, offset, len)
  {
    var buf := new byte[len];
    var done :- ReadExact(src, offset, buf);
    return Ok(buf[..]);
  }
}
