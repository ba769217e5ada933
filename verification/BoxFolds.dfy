/** Visiting the boxes of a container one by one, as the parsers of the container boxes do. */
module BoxFolds {
  import opened Boxes
  import opened BoxReader
  import opened Bytes
  import opened Wrappers

  /** Visit every box of `[pos, end)` in order; the first failure, of the scan or of a visit, ends it. */
  function Fold<S>(data: bytes, pos: nat, end: nat, s: S, visit: (BoxHeader, S) -> Result<S>): Result<S>
    decreases end - pos, 0
  {
    match First(data, pos, end)
    case Err(e) => Err(e)
    case Ok(None) => Ok(s)
    case Ok(Some(h)) => Continue(data, h.End(), end, visit(h, s), visit)
  }

  /** Go on with the next box unless a visit failed. */
  function Continue<S>(data: bytes, pos: nat, end: nat, visited: Result<S>, visit: (BoxHeader,
      S) -> Result<S>): Result<S>
    decreases end - pos, 1
  {
    if visited.Err? then visited else Fold(data, pos, end, visited.value, visit)
  }

  /** The same over headers that are already known. */
  function FoldOver<S>(hs: seq<BoxHeader>, visited: Result<S>, visit: (BoxHeader, S) -> Result<S>): Result<S> {
    if |hs| == 0 || visited.Err? then visited else FoldOver(hs[1..], visit(hs[0], visited.value), visit)
  }

  /** A visible box of a container that ends at `end`. */
  predicate IsHeader(data: bytes, h: BoxHeader, end: nat) {
    h.start < end && HeaderAt(data, h.start, end) == Ok(h) && h.boxType != Code("uuid")
  }

  lemma {:induction false} FoldStep<S>(data: bytes, h: BoxHeader, end: nat, s: S, visit: (BoxHeader, S) -> Result<S>)
    requires IsHeader(data, h, end)
    ensures Fold(data, h.start, end, s, visit) == Continue(data, h.End(), end, visit(h, s), visit)
  {}

  lemma {:induction false} FoldEnd<S>(data: bytes, end: nat, s: S, visit: (BoxHeader, S) -> Result<S>)
    ensures Fold(data, end, end, s, visit) == Ok(s)
  {}

  /** Where the whole container scans, visiting during the scan and after it are the same. */
  lemma {:induction false} FoldIsScanned<S>(data: bytes, pos: nat, end: nat, s: S, visit: (BoxHeader, S) -> Result<S>)
    requires Scan(data, pos, end).Ok?
    ensures Fold(data, pos, end, s, visit) == FoldOver(Scan(data, pos, end).value, Ok(s), visit)
    decreases end - pos
  {
    var first := First(data, pos, end).value;
    if first.Some? {
      var rest := Scan(data, first.value.End(), end);
      assert Scan(data, pos, end).value == [first.value] + rest.value;
      assert ([first.value] + rest.value)[1..] == rest.value;
      var next := visit(first.value, s);
      if next.Ok? {
        FoldIsScanned(data, first.value.End(), end, next.value, visit);
      }
    }
  }

  /** Visiting the whole container means that it scans. */
  lemma {:induction false} FoldScans<S>(data: bytes, pos: nat, end: nat, s: S, visit: (BoxHeader, S) -> Result<S>)
    requires Fold(data, pos, end, s, visit).Ok?
    ensures Scan(data, pos, end).Ok?
    decreases end - pos
  {
    var first := First(data, pos, end).value;
    if first.Some? {
      FoldScans(data, first.value.End(), end, visit(first.value, s).value, visit);
    }
  }

  /** A visited container is one that scans, and whose scanned boxes can be visited one by one. */
  lemma {:induction false} FoldMeans<S>(data: bytes, pos: nat, end: nat, s: S, visit: (BoxHeader, S) -> Result<S>)
    ensures Fold(data, pos, end, s, visit).Ok?
            <==> Scan(data, pos, end).Ok? && FoldOver(Scan(data, pos, end).value, Ok(s), visit).Ok?
    ensures Fold(data, pos, end, s, visit).Ok? ==>
              Fold(data, pos, end, s, visit) == FoldOver(Scan(data, pos, end).value, Ok(s), visit)
  {
    hide Fold, Scan, FoldOver;
    if Fold(data, pos, end, s, visit).Ok? {
      FoldScans(data, pos, end, s, visit);
    }
    if Scan(data, pos, end).Ok? {
      FoldIsScanned(data, pos, end, s, visit);
    }
  }

  /** The last box is visited last. */
  lemma {:induction false} FoldOverSnoc<S>(hs: seq<BoxHeader>, r: Result<S>, visit: (BoxHeader, S) -> Result<S>)
    requires |hs| > 0
    ensures var front := FoldOver(hs[..|hs| - 1], r, visit);
            FoldOver(hs, r, visit) == if front.Err? then front else visit(hs[|hs| - 1], front.value)
    decreases |hs|
  {
    if |hs| == 1 {
      assert hs[1..] == [] && hs[..0] == [];
    } else if r.Ok? {
      assert hs[1..][..|hs| - 2] == hs[..|hs| - 1][1..];
      FoldOverSnoc(hs[1..], visit(hs[0], r.value), visit);
    }
  }

  /** What every visit keeps holds at the end. */
  lemma {:induction false} FoldKeeps<S(!new)>(data: bytes, pos: nat, end: nat, s: S,
                                              visit: (BoxHeader, S) -> Result<S>, inv: S -> bool)
    requires inv(s)
    requires forall h: BoxHeader, t: S :: inv(t) && IsHeader(data, h, end) && visit(h, t).Ok? ==> inv(visit(h, t).value)
    ensures Fold(data, pos, end, s, visit).Ok? ==> inv(Fold(data, pos, end, s, visit).value)
    decreases end - pos
  {
    var first := First(data, pos, end);
    if first.Ok? && first.value.Some? {
      var h := first.value.value;
      assert IsHeader(data, h, end);
      var next := visit(h, s);
      if next.Ok? {
        FoldKeeps(data, h.End(), end, next.value, visit, inv);
      }
    }
  }

  // ---------- The same bytes in another place ----------

  /** `n` bytes at `p` here are those at `q` there. */
  predicate SameBytes(here: bytes, p: nat, there: bytes, q: nat, n: nat) {
    p + n <= |here| && q + n <= |there| && here[p..p + n] == there[q..q + n]
  }

  function Moved(h: BoxHeader, start: nat): BoxHeader {
    h.(start := start)
  }

  lemma SamePart(here: bytes, p: nat, there: bytes, q: nat, n: nat, i: nat, m: nat)
    requires SameBytes(here, p, there, q, n) && i + m <= n
    ensures SameBytes(here, p + i, there, q + i, m)
  {
    SubSlice(here, p, p + n, i, i + m);
    SubSlice(there, q, q + n, i, i + m);
  }

  /** A header says the same wherever its container lies. */
  lemma HeaderMoves(here: bytes, p: nat, there: bytes, q: nat, n: nat)
    requires SameBytes(here, p, there, q, n) && n > 0
    ensures HeaderAt(there, q, q + n)
            == match HeaderAt(here, p, p + n)
               case Ok(h) => Ok(Moved(h, q))
               case Err(e) => Err(e)
  {
    hide ReadBe;
    if n >= 8 {
      SamePart(here, p, there, q, n, 0, 4);
      SamePart(here, p, there, q, n, 4, 4);
      if n >= 16 {
        SamePart(here, p, there, q, n, 8, 8);
      }
    }
  }

  /** A box that states its own size may move to any container with room for it. */
  lemma SizedHeaderMoves(here: bytes, h: BoxHeader, end: nat, there: bytes, q: nat, end': nat)
    requires IsHeader(here, h, end) && SameBytes(here, h.start, there, q, h.declaredSize)
    requires U32At(here, h.start) != 0 && q + h.declaredSize <= end'
    ensures IsHeader(there, Moved(h, q), end')
  {
    hide ReadBe, Code;
    SamePart(here, h.start, there, q, h.declaredSize, 0, 4);
    SamePart(here, h.start, there, q, h.declaredSize, 4, 4);
    if h.headerSize == 16 {
      SamePart(here, h.start, there, q, h.declaredSize, 8, 8);
    }
  }

  lemma {:induction false} FirstMoves(here: bytes, p: nat, there: bytes, q: nat, n: nat)
    requires SameBytes(here, p, there, q, n)
    ensures First(there, q, q + n)
            == match First(here, p, p + n)
               case Ok(Some(h)) => Ok(Some(Moved(h, q + (h.start - p))))
               case Ok(None) => Ok(None)
               case Err(e) => Err(e)
    decreases n
  {
    hide HeaderAt, Code, SameBytes;
    if n > 0 {
      HeaderMoves(here, p, there, q, n);
      var h := HeaderAt(here, p, p + n);
      if h.Ok? && h.value.boxType == Code("uuid") {
        var size := h.value.declaredSize;
        SamePart(here, p, there, q, n, size, n - size);
        FirstMoves(here, p + size, there, q + size, n - size);
      }
    }
  }
}
