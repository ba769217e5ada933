/** How long a media segment is, and so which segments are too long to be served. */
module SegmentSizes {
  import opened Boxes
  import opened Bytes
  import opened Format
  import opened Segment
  import Init

  /** Fixed parts of `moof`, and one row for each sample. */
  function MoofLength(videoCount: nat, audioCount: nat, hasCtts: bool): nat {
    156 + videoCount * (if hasCtts then 12 else 8) + audioCount * 8
  }

  lemma VideoTrunLength(samples: seq<SampleEntry>, hasCtts: bool, offset: nat)
    ensures VideoTrun(samples, hasCtts, offset).Size() == 24 + |samples| * (if hasCtts then 12 else 8)
  {
    FlattenUniformLength(VideoRows(samples, hasCtts), if hasCtts then 12 else 8);
  }

  lemma AudioTrunLength(samples: seq<SampleEntry>, offset: nat)
    ensures AudioTrun(samples, offset).Size() == 20 + |samples| * 8
  {
    FlattenUniformLength(AudioRows(samples), 8);
  }

  lemma ThreeLengths(a: Plain, b: Plain, c: Plain)
    ensures |EncodeAll([a, b, c])| == a.Size() + b.Size() + c.Size()
  {
    hide EncodeAll;
    Init.EncodeAllSize([a, b, c]);
    Init.ThreeSizes([a, b, c]);
  }

  lemma TrafLength(trackId: nat, baseDts: u64, trun: Plain)
    ensures Traf(trackId, baseDts, trun).Size() == 44 + trun.Size()
  {
    hide EncodeAll, Tfhd, Tfdt;
    ThreeLengths(Tfhd(trackId), Tfdt(baseDts), trun);
  }

  /** Its offsets do not change the length of a `moof`. */
  lemma MoofIsLong(p: Parts, videoOffset: nat, audioOffset: nat)
    ensures Moof(p, videoOffset, audioOffset).Size() == MoofLength(|p.video|, |p.audio|, p.hasCtts)
  {
    hide EncodeAll, Traf, VideoTrun, AudioTrun, Mfhd;
    VideoTrunLength(p.video, p.hasCtts, videoOffset);
    AudioTrunLength(p.audio, audioOffset);
    TrafLength(VIDEO_TRACK_ID, p.videoBaseDts, VideoTrun(p.video, p.hasCtts, videoOffset));
    TrafLength(AUDIO_TRACK_ID, p.audioBaseDts, AudioTrun(p.audio, audioOffset));
    ThreeLengths(Mfhd(p.k), VideoTraf(p, videoOffset), AudioTraf(p, audioOffset));
  }

  /** The length of a segment. */
  lemma SegmentIsLong(p: Parts, data: bytes)
    requires AllReadable(data, p.video) && AllReadable(data, p.audio)
    ensures |MediaSegment(p, data)|
            == 32 + MoofLength(|p.video|, |p.audio|, p.hasCtts) + SumSizes(p.video) + SumSizes(p.audio)
  {
    hide EncodeAll, Moof, Mdat, Styp, VideoDataOffset, AudioDataOffset, MoofLength, SumSizes;
    MoofIsLong(p, VideoDataOffset(p), AudioDataOffset(p));
    ThreeLengths(Styp(), Moof(p, VideoDataOffset(p), AudioDataOffset(p)), Mdat(p, data));
  }

  /**
   What makes parts too long is the distance from the `moof` to the audio, which must fit 31 bits, and the
   sample data, which must fit 32 bits with its header.
   */
  lemma FitsMeaning(p: Parts)
    ensures Fits(p)
            <==> && MoofLength(|p.video|, |p.audio|, p.hasCtts) + 8 + SumSizes(p.video) <= 0x7FFF_FFFF
                 && 8 + SumSizes(p.video) + SumSizes(p.audio) <= 0xFFFF_FFFF
  {
    hide Moof, MoofLength, SumSizes;
    MoofIsLong(p, 0, 0);
  }
}
