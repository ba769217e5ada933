/** A reader of the init segment finds the sample defaults that its media segments rely on. */
module InitDefaults {
  import opened Boxes
  import opened BoxReader
  import opened Bytes
  import opened Format
  import opened FragmentReader
  import opened InitRoundTrip
  import opened MuxDemux
  import opened Segment
  import opened Wrappers
  import Init

  lemma TrexReadsBack(trackId: u32, flags: u32)
    ensures ReadTrex(Init.Trex(trackId, flags).payload) == Ok(TrackDefaults(trackId, 0, 0, flags))
  {
    hide Be32, ReadBe;
    var p := Init.Trex(trackId, flags).payload;
    assert p[0..4] == Be32(0) && p[4..8] == Be32(trackId) && p[8..12] == Be32(1) && p[12..16] == Be32(0);
    Be32ReadBack(1);
    assert p[16..20] == Be32(0) && p[20..24] == Be32(flags);
    Be32ReadBack(0);
    Be32ReadBack(trackId);
    Be32ReadBack(flags);
  }

  /** The children of a box, as the scanner sees them. */
  lemma {:induction false} ScanInside(out: bytes, end: nat, h: BoxHeader, b: Plain, boxes: seq<Plain>)
    requires BoxAt(out, end, h, b) && b.payload == EncodeAll(boxes) && AllSized(boxes)
    requires forall i :: 0 <= i < |boxes| ==> boxes[i].fourcc != Code("uuid")
    ensures var hs := Headers(boxes, h.PayloadOffset());
            && Scan(out, h.PayloadOffset(), h.End()) == Ok(hs)
            && forall i :: 0 <= i < |boxes| ==> BoxAt(out, h.End(), hs[i], boxes[i])
  {
    hide Code, EncodeAll, Scan, PayloadOf, Headers;
    PayloadSlice(out, h);
    ScanBoxes(out, h.PayloadOffset(), h.End(), boxes);
  }

  lemma DefaultsCodes()
    ensures Code("trex") != Code("uuid") && Code("mvhd") != Code("mvex") && Code("trak") != Code("mvex")
    ensures Code("ftyp") != Code("moov")
  {
    hide Code;
    assert Num(Code("trex")) == 0x7472_6578 && Num(Code("uuid")) == 0x7575_6964;
    assert Num(Code("mvhd")) == 0x6D76_6864 && Num(Code("mvex")) == 0x6D76_6578;
    assert Num(Code("trak")) == 0x7472_616B && Num(Code("ftyp")) == 0x6674_7970;
    assert Num(Code("moov")) == 0x6D6F_6F76;
  }

  lemma MoovBoxesSized(v: VideoTrackMeta, a: AudioTrackMeta)
    requires Init.Moov(v, a).Sized()
    ensures AllSized(Init.InitBoxes(v, a)) && AllSized(Init.MoovBoxes(v, a))
  {
    hide Init.Trak, Init.Moov, Init.Mvex;
    Init.MoovSize(v, a);
  }

  lemma MoovKinds(v: VideoTrackMeta, a: AudioTrackMeta)
    ensures var bs := Init.MoovBoxes(v, a);
            bs[0].fourcc == Code("mvhd") && bs[1].fourcc == bs[2].fourcc == Code("trak") && bs[3].fourcc == Code("mvex")
    ensures Init.MoovBoxes(v, a)[3].payload == EncodeAll(Init.MvexBoxes())
    ensures var bs := Init.InitBoxes(v, a); bs[0].fourcc == Code("ftyp") && bs[1].fourcc == Code("moov")
    ensures Init.InitBoxes(v, a)[1] == Init.Moov(v, a) && Init.Moov(v, a).payload == EncodeAll(Init.MoovBoxes(v, a))
  {
    hide Code, EncodeAll;
  }

  /** No vendor extensions, and no other box of the type of box `i`. */
  predicate Alone(boxes: seq<Plain>, i: nat)
    requires i < |boxes|
  {
    && (forall j :: 0 <= j < |boxes| ==> boxes[j].fourcc != Code("uuid"))
    && (forall j :: 0 <= j < |boxes| && j != i ==> boxes[j].fourcc != boxes[i].fourcc)
  }

  /** A child whose type no other child has is the one found under its type. */
  lemma OnlyInside(out: bytes, end: nat, h: BoxHeader, b: Plain, boxes: seq<Plain>, i: nat) returns (child: BoxHeader)
    requires BoxAt(out, end, h, b) && b.payload == EncodeAll(boxes) && AllSized(boxes) && i < |boxes|
    requires Alone(boxes, i)
    ensures var hs := Scan(out, h.PayloadOffset(), h.End()); hs.Ok? && Only(hs.value, boxes[i].fourcc) == Ok(child)
    ensures BoxAt(out, h.End(), child, boxes[i])
  {
    hide Code, EncodeAll, Scan, Only, PayloadOf, BoxAt;
    ScanInside(out, end, h, b, boxes);
    var hs := Headers(boxes, h.PayloadOffset());
    OnlyAt(hs, i);
    child := hs[i];
  }

  lemma MoovFound(out: bytes, v: VideoTrackMeta, a: AudioTrackMeta) returns (moov: BoxHeader)
    requires out == Init.InitSegment(v, a) && Init.Moov(v, a).Sized()
    ensures Scan(out, 0, |out|).Ok? && Only(Scan(out, 0, |out|).value, Code("moov")) == Ok(moov)
    ensures BoxAt(out, |out|, moov, Init.Moov(v, a))
  {
    hide Code, EncodeAll, Scan, Only, PayloadOf, BoxAt, Init.MoovBoxes, Init.Moov, Init.Ftyp, AllSized;
    TopCodes();
    DefaultsCodes();
    MoovBoxesSized(v, a);
    MoovKinds(v, a);
    assert out[0..|out|] == out;
    ScanBoxes(out, 0, |out|, Init.InitBoxes(v, a));
    var hs := Headers(Init.InitBoxes(v, a), 0);
    OnlyAt(hs, 1);
    moov := hs[1];
  }

  lemma MvexKinds(v: VideoTrackMeta, a: AudioTrackMeta)
    ensures var boxes := Init.MoovBoxes(v, a);
            && boxes[0].fourcc != Code("uuid") && boxes[1].fourcc != Code("uuid")
            && boxes[2].fourcc != Code("uuid") && boxes[3].fourcc != Code("uuid")
            && boxes[0].fourcc != boxes[3].fourcc && boxes[1].fourcc != boxes[3].fourcc
            && boxes[2].fourcc != boxes[3].fourcc
  {
    hide Code, EncodeAll, Init.MoovBoxes, Init.InitBoxes, Init.Moov;
    TopCodes();
    DefaultsCodes();
    MoovKinds(v, a);
  }

  lemma MvexAlone(v: VideoTrackMeta, a: AudioTrackMeta)
    ensures Alone(Init.MoovBoxes(v, a), 3)
  {
    hide Code, Init.MoovBoxes;
    MvexKinds(v, a);
    var boxes := Init.MoovBoxes(v, a);
    forall j | 0 <= j < |boxes|
      ensures boxes[j].fourcc != Code("uuid") && (j != 3 ==> boxes[j].fourcc != boxes[3].fourcc)
    {
      if j == 0 {
      } else if j == 1 {
      } else if j == 2 {
      } else {
        assert j == 3;
      }
    }
  }

  /** The `mvex` of the init segment. */
  lemma MvexFound(out: bytes, v: VideoTrackMeta, a: AudioTrackMeta) returns (moov: BoxHeader, mvex: BoxHeader)
    requires out == Init.InitSegment(v, a) && Init.Moov(v, a).Sized()
    ensures Scan(out, 0, |out|).Ok? && Only(Scan(out, 0, |out|).value, Code("moov")) == Ok(moov)
    ensures var children := Scan(out, moov.PayloadOffset(), moov.End());
            children.Ok? && Only(children.value, Code("mvex")) == Ok(mvex)
    ensures BoxAt(out, moov.End(), mvex, Init.MoovBoxes(v, a)[3])
  {
    hide Code, EncodeAll, Scan, Only, PayloadOf, BoxAt, Init.MoovBoxes, Init.InitSegment, Init.Moov, Init.InitBoxes,
         AllSized, Alone;
    MoovBoxesSized(v, a);
    MoovKinds(v, a);
    MvexAlone(v, a);
    moov := MoovFound(out, v, a);
    mvex := OnlyInside(out, |out|, moov, Init.Moov(v, a), Init.MoovBoxes(v, a), 3);
  }

  lemma {:induction false} ReadTwoTrexes(out: bytes, a: BoxHeader, b: BoxHeader)
    requires ReadTrex(PayloadOf(out, a)).Ok? && ReadTrex(PayloadOf(out, b)).Ok?
    ensures ReadTrexes(out, [a, b]) == Ok([ReadTrex(PayloadOf(out, a)).value, ReadTrex(PayloadOf(out, b)).value])
  {
    hide ReadTrex, PayloadOf;
    var x, y := ReadTrex(PayloadOf(out, a)).value, ReadTrex(PayloadOf(out, b)).value;
    assert [a, b][1..] == [b] && [b][1..] == [];
    assert ReadTrexes(out, []) == Ok([]);
    assert [y] + [] == [y] && [x] + [y] == [x, y];
    assert ReadTrexes(out, [b]) == Ok([y]);
  }

  lemma {:induction false} BothOfType(hs: seq<BoxHeader>, fourcc: FourCC)
    requires |hs| == 2 && hs[0].boxType == hs[1].boxType == fourcc
    ensures OfType(hs, fourcc) == [hs[0], hs[1]]
  {
    assert OfType(hs[1..][1..], fourcc) == [];
  }

  /**
   A written init segment tells a reader: video samples are not sync and depend on others unless a run says
   otherwise, as it does of its first sample; audio samples are sync and depend on none.
   */
  lemma DefaultsReadBack(v: VideoTrackMeta, a: AudioTrackMeta)
    requires Init.Moov(v, a).Sized()
    ensures ReadDefaults(Init.InitSegment(v, a)) == Ok([VIDEO_DEFAULTS, AUDIO_DEFAULTS])
    ensures !IsSync(VIDEO_DEFAULTS.flags) && IsSync(AUDIO_DEFAULTS.flags)
    ensures DependsOn(VIDEO_DEFAULTS.flags) == 1
    ensures DependsOn(AUDIO_DEFAULTS.flags) == DependsOn(FIRST_SAMPLE_FLAGS_SYNC) == 2
  {
    hide Code, EncodeAll, Scan, Only, OfType, PayloadOf, Headers, ReadTrex, ReadTrexes, Init.MoovBoxes,
         Init.InitSegment, Init.Moov, Init.Trex;
    var out := Init.InitSegment(v, a);
    var moov, mvex := MvexFound(out, v, a);
    DefaultsCodes();
    MoovKinds(v, a);
    var boxes := Init.MvexBoxes();
    TrexKinds();
    ScanInside(out, moov.End(), mvex, Init.MoovBoxes(v, a)[3], boxes);
    var hs := Headers(boxes, mvex.PayloadOffset());
    assert BoxAt(out, mvex.End(), hs[0], boxes[0]) && BoxAt(out, mvex.End(), hs[1], boxes[1]);
    BothOfType(hs, Code("trex"));
    TrexReadsBack(Init.VIDEO_TRACK_ID, Init.VIDEO_DEFAULT_SAMPLE_FLAGS);
    TrexReadsBack(Init.AUDIO_TRACK_ID, Init.AUDIO_DEFAULT_SAMPLE_FLAGS);
    ReadTwoTrexes(out, hs[0], hs[1]);
  }

  lemma TrexKinds()
    ensures forall i :: 0 <= i < 2 ==> Init.MvexBoxes()[i].fourcc == Code("trex") && Init.MvexBoxes()[i].Sized()
  {
    hide Code;
  }
}
