/** Bytes, fixed-width integers, and the sequence facts every codec here rests on. */
module Bytes {

  const U8_MAX := 0xFF
  const U32_MAX := 0xFFFF_FFFF
  const U64_MAX := 0xFFFF_FFFF_FFFF_FFFF
  const I32_MAX := 0x7FFF_FFFF

  type byte = x: int | 0 <= x <= U8_MAX
  type u32 = x: int | 0 <= x <= U32_MAX
  type u64 = x: int | 0 <= x <= U64_MAX
  type i32 = x: int | -0x8000_0000 <= x <= I32_MAX
  type i64 = x: int | -0x8000_0000_0000_0000 <= x <= 0x7FFF_FFFF_FFFF_FFFF
  type bytes = seq<byte>

  /** 256^w. */
  function Pow256(w: nat): (p: nat)
    ensures p > 0
  {
    if w == 0 then 1 else Pow256(w - 1) * 0x100
  }

  lemma Pow256Values()
    ensures Pow256(2) == 0x1_0000
    ensures Pow256(4) == U32_MAX + 1
    ensures Pow256(8) == U64_MAX + 1
  {
    assert Pow256(4) == Pow256(2) * 0x1_0000;
    assert Pow256(6) == Pow256(4) * 0x1_0000;
    assert Pow256(8) == Pow256(6) * 0x1_0000;
  }

  /** The low `w` bytes of `n`, most significant first. */
  function Be(w: nat, n: nat): (b: bytes)
    ensures |b| == w
    decreases w, n
  {
    if w == 0 then [] else Be(w - 1, n / 0x100) + [n % 0x100]
  }

  /** The number whose big-endian digits are `b`. */
  function ReadBe(b: bytes): (n: nat)
    ensures n < Pow256(|b|)
  {
    if |b| == 0 then 0 else ReadBe(b[..|b| - 1]) * 0x100 + b[|b| - 1]
  }

  lemma {:induction false} BeReadBack(w: nat, n: nat)
    requires n < Pow256(w)
    ensures ReadBe(Be(w, n)) == n
    decreases w
  {
    if w > 0 {
      BeReadBack(w - 1, n / 0x100);
      assert Be(w, n)[..w - 1] == Be(w - 1, n / 0x100);
    }
  }

  lemma LastDigit(q: nat, r: byte)
    ensures (q * 0x100 + r) / 0x100 == q && (q * 0x100 + r) % 0x100 == r
  {}

  lemma {:induction false} ReadBeWriteBack(b: bytes)
    ensures Be(|b|, ReadBe(b)) == b
  {
    if |b| > 0 {
      var front, last := b[..|b| - 1], b[|b| - 1];
      ReadBeWriteBack(front);
      LastDigit(ReadBe(front), last);
      assert b == front + [last];
    }
  }

  function Be32(n: nat): (b: bytes)
    ensures |b| == 4
  {
    Be(4, n)
  }

  function Be64(n: nat): (b: bytes)
    ensures |b| == 8
  {
    Be(8, n)
  }

  lemma Be32ReadBack(n: nat)
    requires n <= U32_MAX
    ensures ReadBe(Be32(n)) == n
  {
    Pow256Values();
    BeReadBack(4, n);
  }

  lemma Be64ReadBack(n: nat)
    requires n <= U64_MAX
    ensures ReadBe(Be64(n)) == n
  {
    Pow256Values();
    BeReadBack(8, n);
  }

  /** The 32-bit big-endian word at `pos`. */
  function U32At(b: bytes, pos: nat): (n: u32)
    requires pos + 4 <= |b|
  {
    Pow256Values();
    ReadBe(b[pos..pos + 4])
  }

  function U64At(b: bytes, pos: nat): (n: u64)
    requires pos + 8 <= |b|
  {
    Pow256Values();
    ReadBe(b[pos..pos + 8])
  }

  lemma WordWritesBack(b: bytes, pos: nat)
    requires pos + 4 <= |b|
    ensures Be32(U32At(b, pos)) == b[pos..pos + 4]
  {
    ReadBeWriteBack(b[pos..pos + 4]);
  }

  lemma LongWritesBack(b: bytes, pos: nat)
    requires pos + 8 <= |b|
    ensures Be64(U64At(b, pos)) == b[pos..pos + 8]
  {
    ReadBeWriteBack(b[pos..pos + 8]);
  }

  lemma TwoWords(a: nat, b: nat)
    requires a <= U32_MAX && b <= U32_MAX
    ensures U32At(Be32(a) + Be32(b), 0) == a && U32At(Be32(a) + Be32(b), 4) == b
  {
    hide Be32, ReadBe;
    assert (Be32(a) + Be32(b))[0..4] == Be32(a) && (Be32(a) + Be32(b))[4..8] == Be32(b);
    Be32ReadBack(a);
    Be32ReadBack(b);
  }

  /** Two's complement of a 32-bit signed value, and back. */
  function Unsigned32(x: i32): u32 {
    if x < 0 then x + U32_MAX + 1 else x
  }

  function Signed32(x: u32): i32 {
    if x > I32_MAX then x - U32_MAX - 1 else x
  }

  /** `b` with the bytes from `pos` on replaced by `patch`. */
  function Patch(b: bytes, pos: nat, patch: bytes): (r: bytes)
    requires pos + |patch| <= |b|
    ensures |r| == |b|
  {
    b[..pos] + patch + b[pos + |patch|..]
  }

  lemma PatchMiddle(a: bytes, was: bytes, b: bytes, patch: bytes)
    requires |was| == |patch|
    ensures Patch(a + was + b, |a|, patch) == a + patch + b
  {
    assert (a + was + b)[..|a|] == a;
    assert (a + was + b)[|a| + |patch|..] == b;
  }

  lemma Assoc(a: bytes, b: bytes, c: bytes)
    ensures a + b + c == a + (b + c)
  {}

  /** The middle of a concatenation. */
  lemma Middle(a: bytes, b: bytes, c: bytes)
    ensures (a + b + c)[|a|..|a| + |b|] == b
    ensures (a + b + c)[..|a|] == a
    ensures (a + b + c)[|a| + |b|..] == c
  {}

  /** A slice of a slice. */
  lemma SubSlice(b: bytes, lo: nat, hi: nat, i: nat, j: nat)
    requires lo <= hi <= |b| && i <= j <= hi - lo
    ensures b[lo..hi][i..j] == b[lo + i..lo + j]
  {
    forall k | 0 <= k < j - i
      ensures b[lo..hi][i..j][k] == b[lo + i..lo + j][k]
    {
      assert b[lo..hi][i + k] == b[lo + i + k];
    }
  }

  function Zeros(n: nat): (z: bytes)
    ensures |z| == n
    ensures forall i :: 0 <= i < n ==> z[i] == 0
  {
    seq(n, _ => 0)
  }

  /** Concatenation of all the pieces, in order. */
  function Flatten(xs: seq<bytes>): bytes {
    if |xs| == 0 then [] else xs[0] + Flatten(xs[1..])
  }

  lemma FlattenNothing()
    ensures Flatten([]) == []
  {}

  lemma {:induction false} FlattenAppend(xs: seq<bytes>, ys: seq<bytes>)
    ensures Flatten(xs + ys) == Flatten(xs) + Flatten(ys)
  {
    if |xs| == 0 {
      assert xs + ys == ys;
    } else {
      FlattenAppend(xs[1..], ys);
      assert (xs + ys)[1..] == xs[1..] + ys;
      Assoc(xs[0], Flatten(xs[1..]), Flatten(ys));
    }
  }

  lemma {:induction false} FlattenSnoc(xs: seq<bytes>, x: bytes)
    ensures Flatten(xs + [x]) == Flatten(xs) + x
  {
    FlattenAppend(xs, [x]);
    assert [x][1..] == [];
    assert x + [] == x;
  }

  /** Piece `i` of a concatenation sits right after the pieces before it. */
  lemma {:induction false} FlattenPiece(xs: seq<bytes>, i: nat)
    requires i < |xs|
    ensures |Flatten(xs[..i])| + |xs[i]| <= |Flatten(xs)|
    ensures Flatten(xs)[|Flatten(xs[..i])|..|Flatten(xs[..i])| + |xs[i]|] == xs[i]
    ensures Flatten(xs[..i + 1]) == Flatten(xs[..i]) + xs[i]
    ensures Flatten(xs) == Flatten(xs[..i]) + xs[i] + Flatten(xs[i + 1..])
  {
    assert xs[..i + 1] == xs[..i] + [xs[i]];
    assert xs == xs[..i + 1] + xs[i + 1..];
    FlattenSnoc(xs[..i], xs[i]);
    FlattenAppend(xs[..i + 1], xs[i + 1..]);
    Middle(Flatten(xs[..i]), xs[i], Flatten(xs[i + 1..]));
  }

  ghost predicate Uniform(xs: seq<bytes>, w: nat) {
    forall i :: 0 <= i < |xs| ==> |xs[i]| == w
  }

  lemma {:induction false} FlattenUniformLength(xs: seq<bytes>, w: nat)
    requires Uniform(xs, w)
    ensures |Flatten(xs)| == |xs| * w
  {
    if |xs| > 0 {
      FlattenUniformLength(xs[1..], w);
      assert |xs| * w == w + (|xs| - 1) * w;
    }
  }

  /** Row `i` of a table of `w`-byte rows. */
  lemma {:induction false} FlattenUniform(xs: seq<bytes>, w: nat, i: nat)
    requires Uniform(xs, w) && i < |xs|
    ensures |Flatten(xs)| == |xs| * w && i * w + w <= |xs| * w
    ensures Flatten(xs)[i * w..i * w + w] == xs[i]
  {
    FlattenUniformLength(xs, w);
    FlattenUniformLength(xs[..i], w);
    FlattenPiece(xs, i);
  }

  /** `n` rows of `w` bytes each, cut from `b`. */
  function Rows(b: bytes, w: nat, n: nat): (rows: seq<bytes>)
    requires |b| == n * w
    ensures |rows| == n && Uniform(rows, w)
    decreases n
  {
    if n == 0 then []
    else
      assert n * w == w + (n - 1) * w;
      [b[..w]] + Rows(b[w..], w, n - 1)
  }

  lemma {:induction false} RowsFlatten(b: bytes, w: nat, n: nat)
    requires |b| == n * w
    ensures Flatten(Rows(b, w, n)) == b
    decreases n
  {
    if n > 0 {
      assert n * w == w + (n - 1) * w;
      RowsFlatten(b[w..], w, n - 1);
      assert Rows(b, w, n)[1..] == Rows(b[w..], w, n - 1);
    }
  }

  lemma {:induction false} FlattenRows(xs: seq<bytes>, w: nat)
    requires Uniform(xs, w)
    ensures |Flatten(xs)| == |xs| * w
    ensures Rows(Flatten(xs), w, |xs|) == xs
  {
    FlattenUniformLength(xs, w);
    if |xs| > 0 {
      FlattenRows(xs[1..], w);
      assert Flatten(xs)[..w] == xs[0];
      assert Flatten(xs)[w..] == Flatten(xs[1..]);
    }
  }

  /** Byte order of the machine that wrote the row tables. */
  datatype Endian = Big | Little

  function Reverse(b: bytes): (r: bytes)
    ensures |r| == |b|
    ensures forall i :: 0 <= i < |b| ==> r[i] == b[|b| - 1 - i]
  {
    if |b| == 0 then [] else Reverse(b[1..]) + [b[0]]
  }

  function Ne(host: Endian, w: nat, n: nat): (b: bytes)
    ensures |b| == w
  {
    if host.Big? then Be(w, n) else Reverse(Be(w, n))
  }

  function ReadNe(host: Endian, b: bytes): (n: nat)
    ensures n < Pow256(|b|)
  {
    if host.Big? then ReadBe(b) else ReadBe(Reverse(b))
  }

  lemma {:induction false} NeReadBack(host: Endian, w: nat, n: nat)
    requires n < Pow256(w)
    ensures ReadNe(host, Ne(host, w, n)) == n
  {
    BeReadBack(w, n);
    assert Reverse(Reverse(Be(w, n))) == Be(w, n);
  }

  lemma ReadNeWriteBack(host: Endian, b: bytes)
    ensures Ne(host, |b|, ReadNe(host, b)) == b
  {
    ReadBeWriteBack(if host.Big? then b else Reverse(b));
    assert Reverse(Reverse(b)) == b;
  }
}
