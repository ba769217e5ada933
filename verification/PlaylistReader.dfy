/**
 A reader of media playlists, written from RFC 8216 alone, and what it finds in the stored text. It refuses
 tags it does not know, and every address without a duration.
 */
module PlaylistReader {
  import opened Boxes
  import opened Bytes
  import opened Format
  import opened Playlist
  import opened SegmentNames
  import opened Wrappers

  const COLON: byte := 58
  const COMMA: byte := 44
  const QUOTE: byte := 34

  /** The duration of a segment as it is written, and where the segment is. */
  datatype Entry = Entry(duration: bytes, uri: bytes)

  datatype MediaPlaylist = MediaPlaylist(
    version: Option<nat>, independent: bool, target: Option<nat>, kind: Option<bytes>, init: Option<bytes>,
    entries: seq<Entry>, pending: Option<bytes>, ended: bool)

  const NOTHING_READ := MediaPlaylist(None, false, None, None, None, [], None, false)

  // ---------- Lines ----------

  /** The first place of a byte, or the end. */
  function Find(line: bytes, b: byte): (i: nat)
    ensures i <= |line| && (i < |line| ==> line[i] == b) && forall j :: 0 <= j < i ==> line[j] != b
  {
    if |line| == 0 || line[0] == b then 0 else 1 + Find(line[1..], b)
  }

  /** A tag is a name, and a value behind a colon (section 4.1). */
  function TagName(line: bytes): bytes {
    line[..Find(line, COLON)]
  }

  function TagValue(line: bytes): bytes {
    var i := Find(line, COLON);
    if i < |line| then line[i + 1..] else []
  }

  function Number(s: bytes): Result<nat> {
    if |s| > 0 && AllDigits(s) then Ok(Value(s)) else Err(Io)
  }

  /** The quoted string of the one attribute (section 4.2). */
  function Attribute(value: bytes, name: bytes): Result<bytes> {
    var rest := StripPrefix(value, name + [61, QUOTE]);
    if rest.None? || Find(rest.value, QUOTE) + 1 != |rest.value| then Err(Io)
    else Ok(rest.value[..|rest.value| - 1])
  }

  /** One line (section 4.3): tags come once, every address needs a duration before it, nothing follows the end. */
  function ReadLine(p: MediaPlaylist, line: bytes): Result<MediaPlaylist> {
    if |line| == 0 then Ok(p)
    else if p.ended then Err(Io)
    else if line[0] != HASH then
      if p.pending.None? then Err(Io)
      else Ok(p.(entries := p.entries + [Entry(p.pending.value, line)], pending := None))
    else ReadTag(p, TagName(line), TagValue(line))
  }

  function ReadTag(p: MediaPlaylist, name: bytes, value: bytes): Result<MediaPlaylist> {
    if name == Ascii("#EXTINF") then
      if p.pending.Some? then Err(Io) else Ok(p.(pending := Some(value[..Find(value, COMMA)])))
    else if name == Ascii("#EXT-X-VERSION") then
      if p.version.Some? then Err(Io)
      else
        var n :- Number(value);
        Ok(p.(version := Some(n)))
    else if name == Ascii("#EXT-X-TARGETDURATION") then
      if p.target.Some? then Err(Io)
      else
        var n :- Number(value);
        Ok(p.(target := Some(n)))
    else if name == Ascii("#EXT-X-PLAYLIST-TYPE") then
      if p.kind.Some? then Err(Io) else Ok(p.(kind := Some(value)))
    else if name == Ascii("#EXT-X-INDEPENDENT-SEGMENTS") then Ok(p.(independent := true))
    else if name == Ascii("#EXT-X-MAP") then
      if p.init.Some? || |p.entries| > 0 then Err(Io)
      else
        var uri :- Attribute(value, Ascii("URI"));
        Ok(p.(init := Some(uri)))
    else if name == Ascii("#EXT-X-ENDLIST") then
      if p.pending.Some? then Err(Io) else Ok(p.(ended := true))
    else Err(Io)
  }

  function ReadLines(p: MediaPlaylist, lines: seq<bytes>): Result<MediaPlaylist>
    decreases |lines|
  {
    if |lines| == 0 then Ok(p)
    else
      var q :- ReadLine(p, lines[0]);
      ReadLines(q, lines[1..])
  }

  /** The first line says what the text is (section 4.3.1.1). */
  function ReadPlaylist(text: bytes): Result<MediaPlaylist> {
    var lines := LinesOf(text);
    if |lines| == 0 || lines[0] != Ascii("#EXTM3U") then Err(Io) else ReadLines(NOTHING_READ, lines[1..])
  }

  // ---------- Reading what was written ----------

  lemma {:induction false} ReadAppend(p: MediaPlaylist, xs: seq<bytes>, ys: seq<bytes>)
    ensures ReadLines(p, xs + ys) == match ReadLines(p, xs) case Ok(q) => ReadLines(q, ys) case Err(e) => Err(e)
    decreases |xs|
  {
    hide ReadLine;
    if |xs| == 0 {
      assert xs + ys == ys;
    } else {
      assert (xs + ys)[1..] == xs[1..] + ys;
      var q := ReadLine(p, xs[0]);
      if q.Ok? {
        ReadAppend(q.value, xs[1..], ys);
      }
    }
  }

  lemma {:induction false} ReadOne(p: MediaPlaylist, line: bytes)
    ensures ReadLines(p, [line]) == ReadLine(p, line)
  {
    hide ReadLine;
    assert [line][1..] == [];
  }

  lemma {:induction false} ReadTwo(p: MediaPlaylist, a: bytes, b: bytes)
    requires ReadLine(p, a).Ok?
    ensures ReadLines(p, [a, b]) == ReadLine(ReadLine(p, a).value, b)
  {
    hide ReadLine;
    ReadOne(ReadLine(p, a).value, b);
    assert [a, b][1..] == [b];
  }

  lemma {:induction false} FindAfter(a: bytes, b: byte, rest: bytes)
    requires b !in a
    ensures Find(a + [b] + rest, b) == |a|
  {
    var line := a + [b] + rest;
    assert line[|a|] == b;
    forall j | 0 <= j < |a|
      ensures line[j] != b
    {
      assert line[j] == a[j];
    }
  }

  lemma {:induction false} FindNowhere(line: bytes, b: byte)
    requires b !in line
    ensures Find(line, b) == |line|
  {}

  /** A name without a colon, and its value. */
  lemma TagParts(name: bytes, value: bytes)
    requires COLON !in name
    ensures TagName(name + [COLON] + value) == name && TagValue(name + [COLON] + value) == value
  {
    FindAfter(name, COLON, value);
  }

  lemma BareTag(name: bytes)
    requires COLON !in name
    ensures TagName(name) == name && TagValue(name) == []
  {
    FindNowhere(name, COLON);
  }

  lemma AsciiTag(name: string, value: string)
    ensures Ascii(name + ":" + value) == Ascii(name) + [COLON] + Ascii(value)
  {}

  lemma NoColon(name: string)
    requires forall i :: 0 <= i < |name| ==> name[i] < 128 as char && name[i] != ':'
    ensures COLON !in Ascii(name)
  {}

  /** Texts that can stand in front of the comma. */
  ghost predicate NoCommas(text: DurationText) {
    forall ticks: nat, timescale: nat :: COMMA !in text(ticks, timescale)
  }

  /** The state behind the header lines. */
  function HeaderRead(target: nat): MediaPlaylist {
    MediaPlaylist(Some(7), true, Some(target), Some(Ascii("VOD")), Some(Ascii("init.mp4")), [], None, false)
  }

  lemma LongTag(p: MediaPlaylist, name: string, value: bytes, line: bytes)
    requires |name| > 0 && name[0] == '#' && !p.ended && line == Ascii(name) + [COLON] + value
    requires forall i :: 0 <= i < |name| ==> name[i] < 128 as char && name[i] != ':'
    ensures ReadLine(p, line) == ReadTag(p, Ascii(name), value)
  {
    hide ReadTag, Find;
    NoColon(name);
    TagParts(Ascii(name), value);
    assert line[0] == Ascii(name)[0] == HASH;
  }

  lemma ShortTag(p: MediaPlaylist, name: string)
    requires |name| > 0 && name[0] == '#' && !p.ended
    requires forall i :: 0 <= i < |name| ==> name[i] < 128 as char && name[i] != ':'
    ensures ReadLine(p, Ascii(name)) == ReadTag(p, Ascii(name), [])
  {
    hide ReadTag, Find;
    NoColon(name);
    BareTag(Ascii(name));
    assert Ascii(name)[0] == HASH;
  }

  lemma VersionLine(p: MediaPlaylist)
    requires !p.ended && p.version.None?
    ensures ReadLine(p, Ascii("#EXT-X-VERSION:7")) == Ok(p.(version := Some(7)))
  {
    hide ReadLine;
    assert "#EXT-X-VERSION:7" == "#EXT-X-VERSION" + ":" + "7";
    AsciiTag("#EXT-X-VERSION", "7");
    LongTag(p, "#EXT-X-VERSION", Ascii("7"), Ascii("#EXT-X-VERSION:7"));
    assert Ascii("7") == [55] == Digits(7);
    ValueOfDigits(7);
  }

  lemma IndependentLine(p: MediaPlaylist)
    requires !p.ended
    ensures ReadLine(p, Ascii("#EXT-X-INDEPENDENT-SEGMENTS")) == Ok(p.(independent := true))
  {
    hide ReadLine;
    ShortTag(p, "#EXT-X-INDEPENDENT-SEGMENTS");
  }

  lemma {:induction false} TargetLine(p: MediaPlaylist, target: nat)
    requires !p.ended && p.target.None?
    ensures ReadLine(p, Ascii("#EXT-X-TARGETDURATION:") + Digits(target)) == Ok(p.(target := Some(target)))
  {
    hide ReadLine, Value, Digits;
    assert "#EXT-X-TARGETDURATION:" == "#EXT-X-TARGETDURATION" + ":" + "";
    AsciiTag("#EXT-X-TARGETDURATION", "");
    assert Ascii("#EXT-X-TARGETDURATION:") == Ascii("#EXT-X-TARGETDURATION") + [COLON];
    LongTag(p, "#EXT-X-TARGETDURATION", Digits(target), Ascii("#EXT-X-TARGETDURATION:") + Digits(target));
    ValueOfDigits(target);
  }

  lemma KindLine(p: MediaPlaylist)
    requires !p.ended && p.kind.None?
    ensures ReadLine(p, Ascii("#EXT-X-PLAYLIST-TYPE:VOD")) == Ok(p.(kind := Some(Ascii("VOD"))))
  {
    hide ReadLine;
    assert "#EXT-X-PLAYLIST-TYPE:VOD" == "#EXT-X-PLAYLIST-TYPE" + ":" + "VOD";
    AsciiTag("#EXT-X-PLAYLIST-TYPE", "VOD");
    LongTag(p, "#EXT-X-PLAYLIST-TYPE", Ascii("VOD"), Ascii("#EXT-X-PLAYLIST-TYPE:VOD"));
  }

  /** `URI="..."` around a text without quotes. */
  lemma QuotedUri(uri: bytes, value: bytes)
    requires QUOTE !in uri && value == Ascii("URI") + [61, QUOTE] + uri + [QUOTE]
    ensures Attribute(value, Ascii("URI")) == Ok(uri)
  {
    hide Find;
    var name := Ascii("URI") + [61, QUOTE];
    assert value[|name|..] == uri + [QUOTE] == uri + [QUOTE] + [];
    FindAfter(uri, QUOTE, []);
  }

  lemma MapValue()
    ensures Attribute(Ascii("URI=\"init.mp4\""), Ascii("URI")) == Ok(Ascii("init.mp4"))
  {
    hide Attribute;
    assert Ascii("URI=\"init.mp4\"") == Ascii("URI") + [61, QUOTE] + Ascii("init.mp4") + [QUOTE];
    QuotedUri(Ascii("init.mp4"), Ascii("URI=\"init.mp4\""));
  }

  lemma MapText()
    ensures Ascii("#EXT-X-MAP:URI=\"init.mp4\"") == Ascii("#EXT-X-MAP") + [COLON] + Ascii("URI=\"init.mp4\"")
  {
    assert "#EXT-X-MAP:URI=\"init.mp4\"" == "#EXT-X-MAP" + ":" + "URI=\"init.mp4\"";
    AsciiTag("#EXT-X-MAP", "URI=\"init.mp4\"");
  }

  lemma MapLine(p: MediaPlaylist)
    requires !p.ended && p.init.None? && |p.entries| == 0
    ensures ReadLine(p, Ascii("#EXT-X-MAP:URI=\"init.mp4\"")) == Ok(p.(init := Some(Ascii("init.mp4"))))
  {
    hide ReadLine, Attribute;
    MapText();
    MapValue();
    LongTag(p, "#EXT-X-MAP", Ascii("URI=\"init.mp4\""), Ascii("#EXT-X-MAP:URI=\"init.mp4\""));
  }

  lemma EndLine(p: MediaPlaylist)
    requires !p.ended && p.pending.None?
    ensures ReadLine(p, Ascii("#EXT-X-ENDLIST")) == Ok(p.(ended := true))
  {
    hide ReadLine;
    ShortTag(p, "#EXT-X-ENDLIST");
    assert Ascii("#EXT-X-ENDLIST")[7] != Ascii("#EXT-X-VERSION")[7];
  }

  lemma HeaderReadsBack(target: nat)
    ensures ReadLines(NOTHING_READ, HeaderLines(target)[1..]) == Ok(HeaderRead(target))
    ensures HeaderLines(target)[0] == Ascii("#EXTM3U")
  {
    hide ReadLine, Digits;
    var lines := HeaderLines(target);
    var p1 := NOTHING_READ.(version := Some(7));
    var p2 := p1.(independent := true);
    var p3 := p2.(target := Some(target));
    var p4 := p3.(kind := Some(Ascii("VOD")));
    VersionLine(NOTHING_READ);
    IndependentLine(p1);
    TargetLine(p2, target);
    KindLine(p3);
    MapLine(p4);
    ReadOne(p4, lines[5]);
    assert lines[5..] == [lines[5]];
    ReadNext(p3, lines, 4);
    ReadNext(p2, lines, 3);
    ReadNext(p1, lines, 2);
    ReadNext(NOTHING_READ, lines, 1);
  }

  lemma {:induction false} ReadNext(p: MediaPlaylist, lines: seq<bytes>, i: nat)
    requires i < |lines| && ReadLine(p, lines[i]).Ok?
    ensures ReadLines(p, lines[i..]) == ReadLines(ReadLine(p, lines[i]).value, lines[i + 1..])
  {
    hide ReadLine;
    assert lines[i..][0] == lines[i] && lines[i..][1..] == lines[i + 1..];
  }

  /** What should be listed: the text for every segment's ticks, and its name. */
  function Listed(ts: seq<nat>, timescale: nat, text: DurationText, n: nat): (es: seq<Entry>)
    requires n <= |ts|
    ensures |es| == n
    ensures forall k :: 0 <= k < n ==> es[k] == Entry(text(ts[k], timescale), SegmentName(k))
  {
    seq(n, k requires 0 <= k < n => Entry(text(ts[k], timescale), SegmentName(k)))
  }

  lemma DurationLineReads(p: MediaPlaylist, ticks: nat, timescale: nat, text: DurationText)
    requires NoCommas(text) && !p.ended && p.pending.None?
    ensures ReadLine(p, DurationLine(ticks, timescale, text)) == Ok(p.(pending := Some(text(ticks, timescale))))
  {
    hide ReadLine, Find;
    var line, t := DurationLine(ticks, timescale, text), text(ticks, timescale);
    assert "#EXTINF:" == "#EXTINF" + ":" + "";
    AsciiTag("#EXTINF", "");
    assert Ascii("#EXTINF:") == Ascii("#EXTINF") + [COLON] && Ascii(",") == [COMMA];
    assert line == Ascii("#EXTINF") + [COLON] + (t + [COMMA]);
    LongTag(p, "#EXTINF", t + [COMMA], line);
    assert t + [COMMA] == t + [COMMA] + [];
    FindAfter(t, COMMA, []);
  }

  lemma NameLineReads(p: MediaPlaylist, k: nat)
    requires !p.ended && p.pending.Some?
    ensures ReadLine(p, SegmentName(k))
            == Ok(p.(entries := p.entries + [Entry(p.pending.value, SegmentName(k))], pending := None))
  {
    hide ReadTag;
    NameIsUri(k);
  }

  lemma {:induction false} EntriesRead(p: MediaPlaylist, ts: seq<nat>, timescale: nat, text: DurationText, n: nat)
    requires NoCommas(text) && !p.ended && p.pending.None? && p.entries == [] && n <= |ts|
    ensures ReadLines(p, EntryLines(ts, timescale, text, n)) == Ok(p.(entries := Listed(ts, timescale, text, n)))
    decreases n
  {
    hide ReadLine, SegmentName, DurationLine, NoCommas;
    if n == 0 {
      assert Listed(ts, timescale, text, 0) == [] && p.(entries := []) == p;
    } else {
      EntriesRead(p, ts, timescale, text, n - 1);
      var q := p.(entries := Listed(ts, timescale, text, n - 1));
      var line, name := DurationLine(ts[n - 1], timescale, text), SegmentName(n - 1);
      ReadAppend(p, EntryLines(ts, timescale, text, n - 1), [line, name]);
      DurationLineReads(q, ts[n - 1], timescale, text);
      var pending := q.(pending := Some(text(ts[n - 1], timescale)));
      NameLineReads(pending, n - 1);
      ReadTwo(q, line, name);
      assert Listed(ts, timescale, text, n)
          == Listed(ts, timescale, text, n - 1) + [Entry(text(ts[n - 1], timescale), name)];
    }
  }

  lemma {:induction false} BlankRead(p: MediaPlaylist, lines: seq<bytes>)
    requires forall i :: 0 <= i < |lines| ==> lines[i] == []
    ensures ReadLines(p, lines) == Ok(p)
  {
    if |lines| > 0 {
      BlankRead(p, lines[1..]);
    }
  }

  /** What a reader should find in the playlist of this index. */
  function Announced(view: IndexView, text: DurationText): MediaPlaylist
    requires Listable(view)
  {
    var ts, timescale: nat := AllTicks(view.segments, view.videoSamples), view.video.timescale;
    HeaderRead(TargetDuration(ts, timescale)).(entries := Listed(ts, timescale, text, |ts|), ended := true)
  }

  /**
   A reader of the stored text finds one address for the init segment, the target duration, and for every
   segment in order its name right behind the text for its own ticks.
   */
  lemma ReaderGetsPlaylist(view: IndexView, text: DurationText)
    requires Listable(view) && NoLineBreaks(text) && NoCommas(text)
    ensures ReadPlaylist(Unlines(RenderedLines(view, text))) == Ok(Announced(view, text))
  {
    hide HeaderLines, EntryLines, Unlines, LinesOf, HasVideo, SegmentTicks, ReadLines, ReadLine, NoLineBreaks, NoCommas;
    ReaderFindsSegments(view, text);
    var ts, timescale: nat := AllTicks(view.segments, view.videoSamples), view.video.timescale;
    var target := TargetDuration(ts, timescale);
    var head, entries, end := HeaderLines(target), EntryLines(ts, timescale, text, |ts|), [Ascii("#EXT-X-ENDLIST")];
    var blank := BlankLines(|Unlines(PlaylistLines(ts, timescale, text))|);
    var lines := RenderedLines(view, text);
    assert lines[0] == head[0];
    assert lines[1..] == head[1..] + entries + end + blank;
    HeaderReadsBack(target);
    var p := HeaderRead(target);
    var q := p.(entries := Listed(ts, timescale, text, |ts|));
    EntriesRead(p, ts, timescale, text, |ts|);
    EndLine(q);
    ReadOne(q, end[0]);
    BlankRead(q.(ended := true), blank);
    ReadAppend(NOTHING_READ, head[1..], entries);
    ReadAppend(NOTHING_READ, head[1..] + entries, end);
    ReadAppend(NOTHING_READ, head[1..] + entries + end, blank);
  }
}
