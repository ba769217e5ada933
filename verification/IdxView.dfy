/** Opening an index image: every check before any field is handed out. */
module IdxView {
  import opened Boxes
  import opened Bytes
  import opened Format
  import opened Idx
  import opened Wrappers

  /** Fill the fixed-size directory; fails on a nonzero padding word. */
  method ReadDirectory(b: bytes, n: nat, directory: array<(u32, u64)>) returns (ok: bool)
    requires n <= directory.Length && HeaderEnd(n) <= |b|
    modifies directory
    ensures ok <==> forall i :: 0 <= i < n ==> PadZero(b, i)
    ensures ok ==> directory[..n] == Directory(b, n)
  {
    for i := 0 to n
      invariant forall j :: 0 <= j < i ==> PadZero(b, j) && directory[j] == EntryAt(b, j)
    {
      var pos := HEADER_FIXED_LEN + i * SECTION_DIR_ENTRY_LEN;
      var kind := U32At(b, pos);
      if U32At(b, pos + 4) != 0 {
        assert !PadZero(b, i);
        return false;
      }
      directory[i] := (kind, U64At(b, pos + 8));
    }
    return true;
  }

  method CheckOffsets(b: bytes, d: seq<(u32, u64)>) returns (ok: bool)
    requires 0 < |d| && HeaderEnd(|d|) <= |b|
    ensures ok <==> && d[0].1 == HeaderEnd(|d|) && (forall i :: 0 <= i < |d| - 1 ==> d[i].1 < d[i + 1].1)
                    && d[|d| - 1].1 <= |b| && (forall i :: 0 <= i < |d| ==> d[i].1 % 8 == 0)
  {
    if d[0].1 != HeaderEnd(|d|) {
      return false;
    }
    for i := 0 to |d| - 1
      invariant forall j :: 0 <= j < i ==> d[j].1 < d[j + 1].1
    {
      if d[i + 1].1 <= d[i].1 {
        return false;
      }
    }
    if d[|d| - 1].1 > |b| {
      return false;
    }
    for i := 0 to |d|
      invariant forall j :: 0 <= j < i ==> d[j].1 % 8 == 0
    {
      if d[i].1 % 8 != 0 {
        return false;
      }
    }
    return true;
  }

  method CheckKinds(d: seq<(u32, u64)>) returns (ok: bool)
    ensures ok <==> forall i, j :: 0 <= i < j < |d| ==> d[i].0 != d[j].0
  {
    for i := 0 to |d|
      invariant forall a, c :: 0 <= a < i && a < c < |d| ==> d[a].0 != d[c].0
    {
      for j := i + 1 to |d|
        invariant forall c :: i < c < j ==> d[i].0 != d[c].0
      {
        if d[i].0 == d[j].0 {
          return false;
        }
      }
    }
    return true;
  }

  /** Read the directory into a fixed-size buffer and check it. */
  method ReadCheckedDirectory(b: bytes, n: nat) returns (r: Result<seq<(u32, u64)>>)
    requires 0 < n <= MAX_SECTIONS && HeaderEnd(n) <= |b|
    ensures r == if DirectoryOk(b, Directory(b, n)) then Ok(Directory(b, n)) else Err(MalformedIndexDirectory)
  {
    hide EntryAt, PadZero;
    var slots := new (u32, u64)[MAX_SECTIONS](_ => (0, 0));
    var padsOk := ReadDirectory(b, n, slots);
    if !padsOk {
      return Err(MalformedIndexDirectory);
    }
    var directory := slots[..n];
    var offsetsOk := CheckOffsets(b, directory);
    if !offsetsOk {
      return Err(MalformedIndexDirectory);
    }
    var kindsOk := CheckKinds(directory);
    if !kindsOk {
      return Err(MalformedIndexDirectory);
    }
    return Ok(directory);
  }

  /** Open any bytes: the result, and the kind of every failure, are those of `Parse`. */
  method Open(host: Endian, b: bytes) returns (r: Result<IndexView>)
    ensures r == Parse(host, b)
  {
    hide ReadSections, Code, ReadBe, DirectoryOk, Directory, Framed;
    if |b| < HEADER_FIXED_LEN {
      return Err(MalformedIndexDirectory);
    }
    if b[..4] != Code("HCMI") {
      return Err(IndexMagicMismatch);
    }
    var sectionCount: nat, reserved := U32At(b, 48), U32At(b, 52);
    if reserved != 0 || sectionCount > MAX_SECTIONS || sectionCount == 0 {
      return Err(MalformedIndexDirectory);
    }
    if |b| < HeaderEnd(sectionCount) {
      return Err(MalformedIndexDirectory);
    }
    var directory :- ReadCheckedDirectory(b, sectionCount);
    DirectoryFrames(b, directory);
    return ReadSections(host, b, directory);
  }
}
