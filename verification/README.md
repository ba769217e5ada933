# cmafly packager: a Dafny model

cmafly turns an MP4 file into an index (`.idx`) and assembles CMAF media segments from the pair
`(.idx, .mp4)` on demand. Its central claim is that a served segment is a pure, lossless function of
index, file and segment number. This project models the code that carries the claim and proves it.

## What is modelled

- **Reading the file.** `Sources` models `ReadAt` with short reads of any size. `BoxReader` is the box
  scanner with its three size forms and `uuid` skipping, `BoxFolds` visits the boxes of a container,
  `Moov` is the parse from the top level down to one video and one audio track, `MoovLaws` says what
  it accepts in terms of the boxes a scan finds, and `SampleTable` expands the six compact tables into
  one row per sample.
- **What the bytes mean.** `BoxForms`, `HeaderLaws`, `EntryLaws` and `TableLaws` lay boxes out as the
  standard does, apart from the parsers and for all field values, and say what the parsers make of them;
  `TrackLayout` describes chunks of samples and the tables that encode them, and shows that the walker
  finds the samples of exactly such files.
- **Cutting it.** `Splitter` is the one-pass greedy cutter with its two cursors in different
  timescales; `SplitLaws` says what its result means in terms of the samples, and `SplitMeaning`
  describes segment tables without an algorithm and shows that the splitter finds just these.
- **Writing boxes.** `Sinks` has the two `Write + Seek` targets, a growing buffer and the sink that
  only counts. `BoxWriters` is the nested writer whose sizes are patched when a box is closed.
  `Segment` and `SegmentWriter` are the media segment and its assembly with late `data_offset`
  patches, and `SegmentSizes` its length; `Init` and `InitWriter` are the init segment.
  `FragmentReader` and `InitReader` are not part of cmafly: they are readers written from
  ISO/IEC 14496-12 alone, which refuse whatever they do not interpret, and against which media and init
  segments are proved.
- **The index.** `Idx` is the format and the meaning of an image, `IdxBuilder` the printer, `IdxView`
  the validating parser.
- **The playlist.** `Playlist` writes the text; `PlaylistReader`, not part of cmafly, reads such texts
  by RFC 8216 alone; `SegmentNames` is the naming of segments on both sides of the server.
- **The build.** `Builder` puts the pieces together, dry run included, and says exactly when a build
  succeeds.
- **The player.** `Player`, not part of cmafly either, follows a playlist and picks the fragments of a
  track by the id that the init segment gives it; `EndToEnd` says what it gets.
- **The registry.** `Registry` is the cache of opened archives, and all interleavings of its lookup,
  load and insert steps.

Everything the code changes step by step is a method with loops or a class with fields; each is proved
against a function or predicate of its inputs, and the laws are lemmas about those. Failure is part of
every contract: a method says exactly when it returns `Ok`. Where only one kind of error is possible, or
where the kinds are the point (`Open`, `ParseTopLevel`), the contract fixes the kind too.

Automatic induction is switched off for every lemma for which Dafny would try it: the hypothesis it assumes
is not confined to well-typed sequences and can contradict itself where fields of several datatypes are
involved. Inductions are written out.

## Main results

1. `EndToEnd.PlayerGetsSource`: a player that opens a built image, looks up the id of a track in the
   init segment, asks for each name of the playlist and demuxes the answers, which are assembled from
   image and file, gets exactly the samples of that track of the file, in order, with its sample entry.
   `EndToEnd.PlayerKeepsTime` adds that every sample decodes at its own time,
   `EndToEnd.PlaylistTellsTimes` that the playlist says how long each segment lasts, and
   `EndToEnd.PlayerGetsSyncs` exactly when the sync flags are those of the file.
2. `Builder.Build`: a build succeeds exactly when the file demuxes, splits, and every segment can be
   served within 32 bits; its result is certified, with a size bound that is attained.
   `MoovLaws.ParsedMeaning` says which files parse, in terms of the boxes that a scan finds, and
   `TrackLayout.FileMeaning` which samples they have, from the bytes of the tables on.
3. `MuxDemux.SegmentReadsBack`: a reader written from ISO/IEC 14496-12 alone (sections 8.8.3, 8.8.7,
   8.8.8 and 8.8.12) gets both tracks of any written segment back, given the defaults that
   `InitDefaults.DefaultsReadBack` finds in the init segment.
4. `IdxRoundTrip.PrintThenParse`, `RoundTripExact` and `ParseThenPrint`: both directions of the index
   codec, each with the exact condition under which it is the identity.
5. `InitRoundTrip.InitReadsBack`: parsing a file, writing its init segment and parsing that gives the
   same metadata, exactly when both edit lists state their own size. `InitReading.InitReads` is the same
   for a reader that looks at every field of the standard.
6. `Splitter.Split` with `SplitMeaning.SplitMeaning`: the splitter succeeds exactly when a greedy
   segmentation exists, and returns it, although its cursors only move forward.
   `SplitLaws.AudioCutExact`: its audio cuts are minimal and free of drift.
7. `BoxWriters.Replay` with `BoxLaws.FinishedRunReadsBack`: any well-nested use of the box writer
   that succeeds writes a tree in which every size field, at every depth, is the extent of its box,
   and the scanner reads the tree back. No size is assumed to fit; that it does is part of the result.
8. `Registry.SameEntryWithin` and `CachedWhile`: over all runs of racing gets, two gets of an id return
   the same entry if gets of fewer than `capacity` different other ids complete in between, and exactly
   how long an id stays cached.

## Where the code differs from its comments

The model follows the code.

- Audio composition offsets are stored in the index but never written to a segment
  (`crates/packager/src/fmp4/media.rs:334-337`); `Playback.AudioOffsetsAreDropped` says exactly when
  that loses something, and `Witnesses.SmallSegmentLoses` is a segment that does.
- Sync flags are stored in the index but not written either: a segment marks its first video sample
  and no other, and all its audio. `SyncLaws.SegmentSyncsSurvive` says exactly when the flags of a
  segment survive, and `SyncLaws.FileSyncsSurvive` when those of a whole file do: when no two sync
  samples are closer than the nominal segment duration.
- `dts_delta` is the time to the next sample, although the comment on it in
  `crates/packager/src/index/format.rs:48` suggests otherwise.
- The first section offset must equal the end of the header, not merely lie behind it.
- An `edts` box whose size field is zero is copied as it is; in the init segment it then swallows the
  media that follows. `InitRoundTrip.InitReadsBack` gives the exact condition, and
  `EditListWitness.UnreadableInit` such a file.
- The comment on segment names says that one resource has one name; names with extra leading zeros
  are accepted too. `SegmentNames.AcceptedNames` gives the exact condition, `SecondName` an example.
- A playlist of length zero would make the serialised index unreadable
  (`IdxRoundTrip.PrintThenParse`); the builder never produces one (`Playlist.RenderedAligned`).

## Model

| member | source | states |
|---|---|---|
| `Sources.Source.ReadAt` | crates/packager/src/read_at.rs:10-22 | A read inside the source may be short by any amount; it is empty only when nothing was asked for or the source has ended; bytes before the target position stay as they were |
| `Sources.ReadExact` | crates/packager/src/demux/reader.rs:124-141 | Succeeds exactly when the range lies inside the source, with exactly its bytes, however the reads are split |
| `BoxReader.HeaderAt` | crates/packager/src/demux/reader.rs:61-108 | The header at a position, or why there is none; an accepted one starts there, holds its own header and ends inside its container (`BoxForms.HeaderMeaning` says which bytes it is) |
| `BoxReader.BoxIter.ReadHeader` | crates/packager/src/demux/reader.rs:61-108 | Returns what `HeaderAt` says about the bytes at the cursor, for value and error, and reads nothing else |
| `BoxReader.BoxIter.NextHeader` | crates/packager/src/demux/reader.rs:56-119 | Yields the first box that is not `uuid`; moves the cursor to its end; never past the container; stays on a malformed header |
| `BoxReader.ScanYieldsVisibleTiles` | crates/packager/src/demux/reader.rs:56-119 | On arbitrary bytes, repeated calls yield exactly the non-`uuid` boxes of the tiling of the range, or fail exactly when the tiling does |
| `BoxReader.TilesCover` | crates/packager/src/demux/reader.rs:96-119 | The yielded and skipped boxes lie side by side and cover the range exactly |
| `BoxReader.ScanOfEncoded` | crates/packager/src/demux/reader.rs:56-119 | Scanning boxes that were written one after another returns those that are not `uuid`, in order, at their places |
| `BoxFolds.FoldIsScanned` | crates/packager/src/demux/moov.rs:86-114 | Visiting boxes while scanning gives what scanning first and visiting afterwards gives |
| `BoxFolds.FoldMeans` | crates/packager/src/demux/moov.rs:86-114 | A container is visited to the end exactly when it scans and all its scanned boxes can be visited one after another |
| `BoxFolds.FirstMoves` | crates/packager/src/demux/reader.rs:56-119 | A scan depends only on the bytes of its container: the same bytes at another place yield the same boxes, shifted |
| `BoxForms.HeaderMeaning` | crates/packager/src/demux/reader.rs:61-108 | A header is read exactly when its bytes are there in one of three forms: 32-bit size, size 1 and a 64-bit size behind the type, or size 0 for a box up to the end of its container; the form decides header length and extent |
| `BoxForms.HeaderFails` | crates/packager/src/demux/reader.rs:61-108 | A header that is not read is malformed, except that reading fails exactly when the source ends inside a header that fits its container |
| `BoxForms.ScanOfForms` | crates/packager/src/demux/reader.rs:56-119 | Scanning boxes that mix 32-bit and 64-bit sizes freely, the last perhaps of size 0, returns all but the `uuid` ones in order, with their full extents |
| `Sinks.CountingSink.Write` | crates/packager/src/index/builder.rs:430-439 | Moves the cursor and raises the length to the high-water mark, exactly as a growing buffer would |
| `Sinks.CountingSink.Seek` | crates/packager/src/index/builder.rs:447-466 | From the start, the end or the cursor: fails exactly when the target leaves 64 bits, and then moves nothing; otherwise moves the cursor there and nothing else |
| `Sinks.Sink.PatchAt` | crates/packager/src/fmp4/media.rs:149-154 | Overwrites only the given bytes and puts the cursor back at the end, on both kinds of sink |
| `BoxWriters.BoxWriter.Open` | crates/packager/src/fmp4/boxes.rs:64-73 | Appends a zero size and the type, and remembers where |
| `BoxWriters.BoxWriter.Child` | crates/packager/src/fmp4/boxes.rs:81-83 | A child starts where its parent stands |
| `BoxWriters.BoxWriter.Finish` | crates/packager/src/fmp4/boxes.rs:99-145 | Turns the open box into the finished one by changing its four size bytes; fails exactly above 32 bits |
| `BoxWriters.Replay` | crates/packager/src/fmp4/boxes.rs:64-145 | Any well-nested sequence of open, write and finish calls leaves the encoding of the box tree it describes; it fails exactly when some box outgrows 32 bits |
| `BoxLaws.FinishedRunReadsBack` | crates/packager/src/fmp4/boxes.rs:64-145 | After any well-nested calls that succeed and close every box, every size field at every depth is the extent of its box, and the boxes inside each are scanned back in order; that all sizes fit 32 bits is concluded, not assumed |
| `BoxLaws.ReplayFramed` | crates/packager/src/demux/reader.rs:56-119 | The same of the sink itself: what the calls wrote behind the old contents is read back by the scanner, box in box |
| `SampleTable.ReadTable` | crates/packager/src/demux/sample_table.rs:216-239 | Succeeds exactly when version, count and length agree and every row parses, and returns the rows |
| `SampleTable.ReadStsz` | crates/packager/src/demux/sample_table.rs:183-214 | One common size or one size per sample, and nothing else |
| `SampleTable.ExpandRuns` | crates/packager/src/demux/sample_table.rs:107-133 | Succeeds exactly when the counts sum to the number of samples; position `i` gets the value of its run |
| `SampleTable.RunValueMeaning` | crates/packager/src/demux/sample_table.rs:107-133 | The value at a position is that of the run whose count range holds the position |
| `SampleTable.ExpandStsc` | crates/packager/src/demux/sample_table.rs:135-181 | Succeeds exactly when both tables are empty or the entries start at chunk 1, ascend and stay within the chunks; fills every slot |
| `SampleTable.ChunkSamplesMeaning` | crates/packager/src/demux/sample_table.rs:135-181 | In an accepted table every chunk gets its samples from the last entry that starts at or before it |
| `SampleTable.MarkSync` | crates/packager/src/demux/sample_table.rs:55-65 | Sample `i` is sync exactly when `i + 1` is listed or the table is absent; fails exactly on a number out of range |
| `SampleTable.PlaceChunk` | crates/packager/src/demux/sample_table.rs:71-94 | Each sample of a chunk follows the samples before it in that chunk |
| `SampleTable.LayOut` | crates/packager/src/demux/sample_table.rs:69-99 | Succeeds exactly when the chunks hold as many samples as there are sizes and nothing ends beyond 64 bits |
| `SampleTable.ChunkOfUnique` | crates/packager/src/demux/sample_table.rs:71-94 | The chunk that a sample is placed in is the one whose sample range holds it |
| `SampleTable.Assemble` | crates/packager/src/demux/sample_table.rs:49-104 | Succeeds exactly when all tables agree; every row has the per-sample meaning of the tables |
| `SampleTable.Walk` | crates/packager/src/demux/sample_table.rs:35-105 | Succeeds exactly when the tables decode, agree and overflow nothing, and returns the samples they mean; `TrackLayout.FileMeaning` says what they mean from the bytes on |
| `TableLaws.SttsMeaning` | crates/packager/src/demux/sample_table.rs:241-248 | A time-to-sample table decodes to these runs exactly when version 0 and rows of count and delta, in this order, lie there |
| `TableLaws.CttsMeaning` | crates/packager/src/demux/sample_table.rs:250-267 | A composition table decodes to these runs exactly when rows of count and offset lie there, in version 1 in two's complement, in version 0 below 2^31 |
| `TableLaws.StscMeaning` | crates/packager/src/demux/sample_table.rs:275-293 | A sample-to-chunk table decodes to these entries exactly when rows of first chunk, samples per chunk and description 1 lie there |
| `TableLaws.StssMeaning` | crates/packager/src/demux/sample_table.rs:269-273 | A sync table decodes to these numbers exactly when they lie there as 32-bit words |
| `TableLaws.ChunksMeaning` | crates/packager/src/demux/sample_table.rs:295-307 | Chunk offsets decode to these numbers exactly when they lie there, as 32-bit words in `stco` and as 64-bit words in `co64` |
| `TableLaws.SizesMeaning` | crates/packager/src/demux/sample_table.rs:183-214 | Sizes decode to these numbers exactly when a nonzero common size and its count lie there alone, or size 0, the count and one word each |
| `TableLaws.DecodedMeaning` | crates/packager/src/demux/sample_table.rs:35-47 | All tables of a track decode to these values exactly when the bytes in their places are the layouts of the values |
| `TrackLayout.WalkMeaning` | crates/packager/src/demux/sample_table.rs:49-181 | Decoded tables are accepted with these samples exactly when they encode them: runs of durations and offsets, numbers of sync samples, and runs of chunks in each of which samples lie side by side from its offset on |
| `TrackLayout.FileMeaning` | crates/packager/src/demux/sample_table.rs:35-181 | From bytes to samples: the walk finds these samples exactly when tables that encode them lie in the places the track names |
| `Splitter.CeilCompare` | crates/packager/src/segment/splitter.rs:168-178 | Comparing with the rounded-up projection is the same as comparing the two times as exact rationals |
| `Splitter.AudioFromCursor` | crates/packager/src/segment/splitter.rs:184-199 | A cursor that only moves forward finds the same audio sample as a search from the start |
| `Splitter.AdvanceAudioTo` | crates/packager/src/segment/splitter.rs:184-199 | Stops at the first sample from the cursor whose start is not before the target, with its start time; never overflows |
| `Splitter.PushSegment` | crates/packager/src/segment/splitter.rs:147-158 | Refuses exactly a segment that is empty in either track |
| `Splitter.Split` | crates/packager/src/segment/splitter.rs:34-145 | Succeeds exactly when the inputs are accepted, every rescaled boundary fits 64 bits and every greedy segment gets audio; then the table is the greedy one |
| `Format.DtsFits` | crates/packager/src/segment/splitter.rs:126-128 | With at most 2^32 - 1 samples a cumulative time never leaves 64 bits, so that branch is unreachable |
| `SplitLaws.Greedy` | crates/packager/src/segment/splitter.rs:92-142 | Segments start on sync samples; each next one at the first sample that could close the last; only the tail runs on because there is none |
| `SplitLaws.AudioCutExact` | crates/packager/src/segment/splitter.rs:160-199 | Audio of every segment starts at the first sample not before the video boundary, and is late by less than the audio sample before it, at every boundary |
| `SplitLaws.FirstAtOrAfter` | crates/packager/src/segment/splitter.rs:160-199 | The least audio index at or after a video time, as exact rationals, and its bound on the skew |
| `SplitLaws.Partition` | crates/packager/src/segment/splitter.rs:79-144 | Segments tile both sample tables in order, and none is empty in either track |
| `SplitLaws.Gapless` | crates/packager/src/segment/splitter.rs:108-124 | Base time plus the durations of a segment is the base time of the next one, on both tracks |
| `SplitLaws.Unique` | crates/packager/src/segment/splitter.rs:34-145 | The inputs determine the segment table |
| `SplitMeaning.SplitMeaning` | crates/packager/src/segment/splitter.rs:34-145 | A table is the result of the splitter exactly when it is the greedy segmentation, stated without an algorithm: both tracks tiled, each segment closed at the first sample that can close it, its audio from the first sample not before its video, all boundaries within 64 bits |
| `SplitMeaning.BoundariesAdvance` | crates/packager/src/segment/splitter.rs:76-124 | However small the nominal duration, zero included, video base times grow from segment to segment by at least that and at least one tick |
| `SegmentWriter.SliceSegmentSamples` | crates/packager/src/fmp4/media.rs:159-182 | Succeeds exactly when the range lies in the table |
| `SegmentWriter.ComputeSize` | crates/packager/src/fmp4/media.rs:184-195 | Sums the sizes; the sum of at most 2^32 - 1 of them cannot overflow |
| `SegmentWriter.WriteStyp` | crates/packager/src/fmp4/media.rs:220-229 | Appends the encoded `styp` |
| `SegmentWriter.WriteMfhd` | crates/packager/src/fmp4/media.rs:231-239 | Appends `mfhd` with a saturating sequence number |
| `SegmentWriter.WriteTraf` | crates/packager/src/fmp4/media.rs:244-256 | Appends the encoded `traf` and returns where its data offset lies |
| `SegmentWriter.WriteTfhd` | crates/packager/src/fmp4/media.rs:258-265 | Appends the encoded `tfhd` |
| `SegmentWriter.WriteTfdt` | crates/packager/src/fmp4/media.rs:267-277 | Appends the encoded `tfdt` |
| `SegmentWriter.WriteVideoTrun` | crates/packager/src/fmp4/media.rs:282-316 | Appends the run with a zero data offset and returns where to patch it |
| `SegmentWriter.WriteAudioTrun` | crates/packager/src/fmp4/media.rs:318-340 | The same for audio, without composition offsets |
| `SegmentWriter.StreamSample` | crates/packager/src/fmp4/media.rs:342-367 | Appends exactly the bytes of the sample, however short the reads; fails exactly when they are not all in the source |
| `SegmentWriter.PatchMoof` | crates/packager/src/fmp4/media.rs:142-154 | Patching both placeholders gives the `moof` with both offsets, of the same size |
| `SegmentWriter.PatchDataOffsets` | crates/packager/src/fmp4/media.rs:142-154 | Both late patches change only their own bytes and leave the cursor at the end; fails exactly when an offset leaves 31 bits |
| `SegmentWriter.AssembleSegment` | crates/packager/src/fmp4/media.rs:97-157 | Succeeds exactly when sizes and offsets fit and every sample can be read; appends the segment |
| `SegmentWriter.WriteMediaSegment` | crates/packager/src/fmp4/media.rs:66-157 | Succeeds exactly when the segment is servable, on either kind of sink; what it appends depends only on index, segment number and source |
| `SegmentSizes.SegmentIsLong` | crates/packager/src/fmp4/media.rs:97-157 | The exact length of a segment: fixed parts, 8 or 12 bytes for each row, and the sample data |
| `SegmentSizes.FitsMeaning` | crates/packager/src/fmp4/media.rs:118-150 | Which segments are too long to be served, in closed form: the distance from `moof` to the audio data must fit 31 bits, the sample data with their header 32 bits |
| `MuxDemux.RunReadsBack` | crates/packager/src/fmp4/media.rs:282-340 | Following a data offset and the sizes of a run finds source bytes, duration, composition offset and sync flag of every sample |
| `MuxDemux.SegmentReadsBack` | crates/packager/src/fmp4/media.rs:66-157 | A reader written from the standard, given the defaults of the init segment, gets both tracks of any written segment back: base times, every sample, and only the first video sample as sync |
| `MuxDemux.SequenceReadsBack` | crates/packager/src/fmp4/media.rs:231-239 | A reader finds sequence numbers that count from 1 and stay at the largest 32-bit number |
| `MuxDemux.BrandsReadBack` | crates/packager/src/fmp4/media.rs:220-229 | A reader finds the brands of a CMAF media segment, `msdh` first |
| `InitDefaults.DefaultsReadBack` | crates/packager/src/fmp4/init.rs:349-372 | A reader of the written init segment finds the defaults of both tracks: video samples are not sync and depend on others unless a run says otherwise, audio samples are sync and depend on none |
| `Playback.ServedSegment` | crates/packager/src/fmp4/media.rs:66-157 | Every served segment, read with the init segment that is served with it, gives its slices of both tracks, with the true video composition offsets and with sync flags |
| `Playback.AudioOffsetsAreDropped` | crates/packager/src/fmp4/media.rs:334-337 | An audio composition offset survives exactly when it is zero |
| `Playback.PlaysEverything` | crates/packager/src/fmp4/media.rs:66-157 | All segments in order replay both sample tables once; the video samples where a segment starts are sync, and all audio |
| `Playback.TimelineIsSource` | crates/packager/src/fmp4/media.rs:267-277 | Every sample of a served segment decodes at its time in the file, and where a segment ends the next begins |
| `SyncLaws.ServedSyncs` | crates/packager/src/fmp4/media.rs:282-340 | Video sample `j` of a served segment reads as sync exactly when `j` is 0, and every audio sample does |
| `SyncLaws.SegmentSyncsSurvive` | crates/packager/src/fmp4/media.rs:282-340 | The stored sync flags of a segment survive on video exactly when its first sample is sync and no other is, on audio exactly when all are |
| `SyncLaws.SplitSyncsSurvive` | crates/packager/src/segment/splitter.rs:92-142 | Segments of a split start on a sync sample, so their video flags survive exactly when no later sample is sync |
| `SyncLaws.FileSyncsSurvive` | crates/packager/src/segment/splitter.rs:92-142 | Over the whole file the samples where segments start are the sync samples exactly when no two sync samples are closer than the nominal duration |
| `Witnesses.SmallSegmentLoses` | crates/packager/src/fmp4/media.rs:282-340 | A servable segment whose audio offset 5 is served as 0 and whose second sync sample is served as not sync |
| `IdxBuilder.EncodeVideoMeta` | crates/packager/src/index/builder.rs:284-299 | Fails exactly when a blob outgrows 32 bits; otherwise the meta section |
| `IdxBuilder.EncodeAudioMeta` | crates/packager/src/index/builder.rs:301-317 | The same for audio, with three zero bytes after the channel count |
| `IdxBuilder.EncodeSampleTable` | crates/packager/src/index/builder.rs:319-341 | Fails exactly above 2^32 - 1 rows; otherwise count, zero word and the rows in host byte order |
| `IdxBuilder.EncodeSegmentTable` | crates/packager/src/index/builder.rs:343-359 | The same for segments |
| `IdxBuilder.AppendSections` | crates/packager/src/index/builder.rs:242-259 | Every section after a zeroed header, padded so that each starts on a multiple of 8, with the offset of each |
| `IdxBuilder.PiecesAligned` | crates/packager/src/index/builder.rs:247-259 | Every section starts on a multiple of 8 |
| `IdxBuilder.WriteHeader` | crates/packager/src/index/builder.rs:261-281 | Fills header and directory in place without touching the sections |
| `IdxBuilder.Serialise` | crates/packager/src/index/builder.rs:195-282 | Succeeds exactly when everything stored in 32 bits fits; returns the image |
| `IdxView.ReadDirectory` | crates/packager/src/index/view.rs:127-140 | Fills the fixed directory buffer; fails exactly on a nonzero padding word |
| `IdxView.Open` | crates/packager/src/index/view.rs:83-226 | Total on arbitrary bytes: value and kind of every error are those of the specification |
| `IdxLaws.SectionsCover` | crates/packager/src/index/view.rs:142-186 | In every accepted image the sections are aligned, in order, without gap or overlap, and are everything after the header |
| `IdxLaws.SampleRowReadsBack` | crates/packager/src/index/format.rs:38-55 | A sample row written in either byte order reads back, with every field in its place: offset, size, duration, composition offset, flags |
| `IdxLaws.SegmentRowReadsBack` | crates/packager/src/index/format.rs:77-89 | The same for segment rows |
| `IdxRoundTrip.ImageKinds` | crates/packager/src/index/format.rs:28-34 | The directory of every built image names the seven sections by their numbers, in this order |
| `IdxLaws.TableWritesBack` | crates/packager/src/index/view.rs:428-457 | An accepted table section is exactly what printing its rows gives |
| `IdxLaws.BlobsWriteBack` | crates/packager/src/index/view.rs:412-426 | Accepted blobs are followed by nothing but the padding that aligns the section |
| `IdxRoundTrip.ImageDirectory` | crates/packager/src/index/view.rs:127-176 | The directory of a printed image is accepted exactly when no section but the last is empty |
| `IdxRoundTrip.PrintThenParse` | crates/packager/src/index/builder.rs:195-359 | Opening a serialised index returns every field; only an unaligned playlist picks up padding, and an empty one makes the image unreadable |
| `IdxRoundTrip.RoundTripExact` | crates/packager/src/index/builder.rs:172-193 | The round trip is exact precisely for non-empty playlists whose length is a multiple of 8 |
| `IdxRoundTrip.ParseThenPrint` | crates/packager/src/index/view.rs:83-226 | An accepted image prints back byte for byte exactly when its sections are in the builder's order |
| `Playlist.SegmentVideoTicks` | crates/packager/src/playlist/m3u8.rs:73-97 | Sum of the durations of the segment; fails exactly when the range leaves the table, never by overflow |
| `Playlist.TargetIsLeast` | crates/packager/src/playlist/m3u8.rs:47-53 | The target duration is the least whole number of seconds that no segment exceeds |
| `Playlist.TicksAddUp` | crates/packager/src/playlist/m3u8.rs:41-45 | Over a split the durations of the segments add up to the track, and each prefix to the next base time |
| `Playlist.WriteMediaPlaylist` | crates/packager/src/playlist/m3u8.rs:28-71 | Succeeds exactly when the timescale is nonzero and every segment lies in the table; writes the lines of the playlist, which `PlaylistReader.ReaderGetsPlaylist` reads back |
| `Playlist.RenderPlaylist` | crates/packager/src/index/builder.rs:183-193 | The text followed by blank lines up to a multiple of 8 |
| `Playlist.RenderedAligned` | crates/packager/src/index/builder.rs:183-193 | The stored text is never empty, its length is a multiple of 8, and only newlines were added |
| `Playlist.ReaderFindsSegments` | crates/packager/src/playlist/m3u8.rs:55-69 | A reader of the stored text finds exactly the names of all segments, in order |
| `Playlist.ReaderFindsTarget` | crates/packager/src/playlist/m3u8.rs:52-58 | A reader of the stored text finds the target duration |
| `PlaylistReader.ReaderGetsPlaylist` | crates/packager/src/playlist/m3u8.rs:28-71 | A reader written from RFC 8216 finds version 7, the target duration, one init segment at `init.mp4`, for every segment in order the text for its own ticks over the timescale right before its name, and the end |
| `Playlist.PlaylistNamesSegments` | crates/server/src/handlers.rs:201-213 | The name at place `k` is taken for segment `k` |
| `SegmentNames.NameReadsBack` | crates/server/src/handlers.rs:201-213 | Every name that can be emitted asks for the segment it was emitted for; past 32 bits, for none |
| `SegmentNames.AcceptedNames` | crates/server/src/handlers.rs:193-213 | An accepted name is the emitted one exactly when it has four digits or no leading zero |
| `SegmentNames.EmittedNames` | crates/packager/src/playlist/m3u8.rs:61-66 | Names count from 1 in at least four decimal digits: `seg_0001.m4s`, `seg_5679.m4s`, `seg_10000.m4s` |
| `SegmentNames.SecondName` | crates/server/src/handlers.rs:193-213 | `seg_00001.m4s` is accepted for the first segment and is not its name |
| `Moov.CheckFtyp` | crates/packager/src/demux/moov.rs:127-159 | Accepts exactly an allowed major brand, or a whole list of compatible brands with an allowed one |
| `EntryLaws.BrandsMeaning` | crates/packager/src/demux/moov.rs:127-159 | A file type laid out as major brand, minor version and compatible brands is taken for its major brand, or for a compatible one if no broken brand follows; both refusals are told apart |
| `Moov.ParseTkhd` | crates/packager/src/demux/moov.rs:228-266 | Reads what the specification of the box reads, with the same errors; `HeaderLaws.SizeReadsBack` says what that is |
| `HeaderLaws.SizeReadsBack` | crates/packager/src/demux/moov.rs:228-266 | Whatever its other fields, a track header of version 0 or 1 reads back the whole pixels of width and height; one of another version is refused |
| `Moov.ParseMdhdTimescale` | crates/packager/src/demux/moov.rs:310-345 | Reads what the specification of the box reads, with the same errors; `HeaderLaws.TimescaleReadsBack` says what that is |
| `HeaderLaws.TimescaleReadsBack` | crates/packager/src/demux/moov.rs:310-345 | Whatever its times, duration and what follows, a media header of version 0 (32-bit times) or 1 (64-bit times) reads back its timescale; one of another version is refused |
| `HeaderLaws.ShortMediaHeader` | crates/packager/src/demux/moov.rs:310-345 | A media header that ends before its timescale does is refused |
| `Moov.ParseHdlrType` | crates/packager/src/demux/moov.rs:347-361 | The handler type; the same errors |
| `EntryLaws.HandlerReadsBack` | crates/packager/src/demux/moov.rs:347-361 | A handler box of any version reads back its handler |
| `Moov.VerifyNoEncryption` | crates/packager/src/demux/moov.rs:579-600 | Fails exactly when the scan of the child boxes fails or meets an encryption marker first |
| `Moov.AudioEntryReadsBack` | crates/packager/src/demux/moov.rs:539-573 | Whatever surrounds its fields, an audio sample entry reads back its channel count and the whole part of its rate; layouts past version 1 and counts past one byte are refused |
| `Moov.ParseStsdEntry` | crates/packager/src/demux/moov.rs:463-534 | Exactly one sample entry that fills the rest of the box, with the fields its handler gives it |
| `EntryLaws.EncryptionMeaning` | crates/packager/src/demux/moov.rs:579-600 | Behind the 78 or 28 fixed bytes of a video or audio sample entry, boxes in any size forms have the file refused as encrypted exactly when one of them is `sinf`, `tenc`, `senc`, `sbgp` or `sgpd` |
| `EntryLaws.VideoEntryMeaning` | crates/packager/src/demux/moov.rs:502-522 | A video sample entry is refused first of all for encryption, then for a codec other than `avc1`, `hvc1` and `hev1` |
| `EntryLaws.AudioEntryMeaning` | crates/packager/src/demux/moov.rs:502-522 | An audio sample entry is refused first of all for encryption, then for a codec other than `mp4a`, then for its fields |
| `EntryLaws.DescriptionsMeaning` | crates/packager/src/demux/moov.rs:463-534 | A description table must say that it has one entry and have one, in any size form; that entry is reported as the whole of its box, or refused for what is in it |
| `EntryLaws.GroupingMeaning` | crates/packager/src/demux/moov.rs:612-629 | A sample group is refused as encrypted exactly when its grouping type is `seig` |
| `EntryLaws.RangeIsPayload` | crates/packager/src/demux/moov.rs:602-610 | What is remembered of a table box is where its payload lies |
| `Moov.ParseStbl` | crates/packager/src/demux/moov.rs:385-453 | What visiting the boxes of the table one by one amounts to; the same errors in the same order |
| `Moov.LocateStbl` | crates/packager/src/demux/moov.rs:363-374 | The first sample table; nothing after it is looked at |
| `EntryLaws.FirstTable` | crates/packager/src/demux/moov.rs:363-374 | Of the boxes that a scan finds the first `stbl` is located; without one it is missing |
| `Moov.ParseMdia` | crates/packager/src/demux/moov.rs:278-308 | Timescale, handler and sample table of the media |
| `Moov.ParseTrak` | crates/packager/src/demux/moov.rs:175-220 | One track; only video has a size; the edit list is the whole `edts` box |
| `Moov.ClassifyTracks` | crates/packager/src/demux/moov.rs:631-662 | Succeeds exactly on one video track, one audio track and no other; otherwise reports both counts |
| `EntryLaws.LayoutRefused` | crates/packager/src/demux/moov.rs:631-662 | Refused tracks are reported by their true numbers of video and audio tracks |
| `EntryLaws.FirstObjection` | crates/packager/src/demux/moov.rs:86-114 | The first top-level box that there is an objection to decides the error: a bad `ftyp`, a second `moov`, a fragment, or an encryption marker |
| `Moov.ParseTopLevel` | crates/packager/src/demux/moov.rs:79-125 | Value and kind of error of the whole parse, on arbitrary bytes |
| `MoovLaws.StblMeaning` | crates/packager/src/demux/moov.rs:385-453 | A sample table is accepted exactly when its boxes scan, none of them means encryption, and the last `stsd`, `stts`, `stsc`, `stsz` and one kind of chunk offsets are there; the last box of each type is the one that counts |
| `MoovLaws.MdiaMeaning` | crates/packager/src/demux/moov.rs:278-308 | Media are accepted exactly when every `mdhd` and `hdlr` can be read and the last of each, the last `minf` and its first sample table are acceptable |
| `MoovLaws.TrakMeaning` | crates/packager/src/demux/moov.rs:175-220 | A track is accepted exactly when every `tkhd` can be read and the last `mdia` is acceptable; its edit list is the last `edts`, whole |
| `MoovLaws.ParsedMeaning` | crates/packager/src/demux/moov.rs:79-125 | A file parses exactly when its top-level boxes are acceptable, there are an acceptable `ftyp` and one `moov`, and the `trak` boxes in that are one video and one audio track |
| `MoovLaws.BlobsFit` | crates/packager/src/demux/moov.rs:175-220 | Sample entries and edit lists of both tracks are separate parts of the file: together they are no longer than it |
| `InitLaws.ParsedFacts` | crates/packager/src/demux/moov.rs:79-534 | Whatever file is accepted, both reported sample entries and edit lists are boxes that fill their ranges, with the reported fields |
| `InitLaws.EntryFieldsMove` | crates/packager/src/demux/moov.rs:463-600 | What is read from a sample entry, encryption check included, depends only on its bytes and not on its place |
| `Init.Fixed1616` | crates/packager/src/fmp4/init.rs:381-388 | Up to 65535 pixels come back from the fixed-point form; larger numbers saturate |
| `InitWriter.WriteTkhd` | crates/packager/src/fmp4/init.rs:152-179 | Appends the encoded `tkhd` |
| `InitWriter.WriteMvhd` | crates/packager/src/fmp4/init.rs:88-108 | Appends the encoded `mvhd` |
| `InitWriter.WriteStbl` | crates/packager/src/fmp4/init.rs:302-311 | Appends the sample entry and empty tables; fails exactly above 32 bits |
| `InitWriter.WriteTrak` | crates/packager/src/fmp4/init.rs:110-150 | Appends the encoding of this track, its edit list byte for byte; fails exactly above 32 bits; `InitReading.InitReads` reads id, handler and sample entry back |
| `InitWriter.WriteMoov` | crates/packager/src/fmp4/init.rs:78-86 | Appends both tracks and their defaults; fails exactly above 32 bits |
| `InitWriter.WriteInitSegment` | crates/packager/src/fmp4/init.rs:58-65 | Succeeds exactly when `moov` fits 32 bits; appends the init segment |
| `InitRoundTrip.StsdReadsBack` | crates/packager/src/fmp4/init.rs:313-324 | A sample entry that was accepted before is accepted with the same fields and bytes |
| `InitRoundTrip.TrakReadsBack` | crates/packager/src/fmp4/init.rs:110-150 | A written track reads back, or lacks its media exactly when its edit list does not state its size |
| `InitRoundTrip.InitReadsBack` | crates/packager/src/fmp4/init.rs:58-372 | Parse any file, write its init segment, parse that: all metadata and both blobs are the same exactly when both edit lists state their size |
| `InitReading.InitReads` | crates/packager/src/fmp4/init.rs:58-372 | A reader written from ISO/IEC 14496-12 that looks at every field finds one track for each kind, under its own id, with its handler, timescale, language, volume, size and sample entry; the ids differ and are those of the defaults. It fails exactly when an edit list does not state its size |
| `EditListWitness.TailFileParses` | crates/packager/src/demux/moov.rs:175-220 | Files whose video track ends with an edit list of size field 0 exist for all acceptable metadata, and parse to them |
| `EditListWitness.UnreadableInit` | crates/packager/src/fmp4/init.rs:110-150 | One such file: the demuxer takes it, and the init segment written for it lacks the media of its video track |
| `Builder.DigestOfSource` | crates/packager/src/index/builder.rs:395-414 | The digest of exactly the first `len` bytes, however short the reads; fails exactly when the source is shorter |
| `Builder.Draft` | crates/packager/src/index/builder.rs:64-137 | Succeeds exactly when the file demuxes, is as long as stated and has a split |
| `Builder.SegmentSize` | crates/packager/src/index/builder.rs:146-155 | The size of the segment that would be served, from a sink that keeps no bytes |
| `Builder.DryRun` | crates/packager/src/index/builder.rs:144-159 | Succeeds exactly when every segment can be served within 32 bits; the result bounds all of them and is the size of one |
| `Builder.Publish` | crates/packager/src/index/builder.rs:139-178 | Succeeds exactly when the init segment fits and the dry run does |
| `Builder.BuildableBySplit` | crates/packager/src/index/builder.rs:59-178 | Whether a build succeeds can be read off the one split of the file |
| `Builder.Build` | crates/packager/src/index/builder.rs:59-178 | Succeeds exactly on buildable files, and returns the image of an index that is certified for the file |
| `EndToEnd.BuiltImageOpens` | crates/packager/src/index/builder.rs:59-178 | Opening a built image gives the certified index back |
| `EndToEnd.IndexIdentifies` | crates/packager/src/index/builder.rs:64-137 | A certified index carries the length of its file and the digest of exactly that many bytes of it |
| `EndToEnd.PlaylistLeadsToSegments` | crates/server/src/handlers.rs:143-213 | Each name of the playlist asks for its segment, which can be served and keeps to the recorded size bound |
| `EndToEnd.PlayerGetsSource` | crates/packager/src/index/builder.rs:59-178 | From a built image and its file, a player that looks up the id of the `vide` or `soun` track in the init segment and follows the playlist gets, of the fragments with that id, exactly the samples the walk found in that track of the file, in order, and the sample entry, timescale and size of that track; it gets no track exactly when an edit list does not state its size |
| `EndToEnd.PlayerGetsSyncs` | crates/packager/src/fmp4/media.rs:282-340 | A player sees the sync samples of the video exactly when no two of them are closer than the nominal duration, and those of the audio exactly when all of it is sync |
| `EndToEnd.PlaylistTellsTimes` | crates/packager/src/playlist/m3u8.rs:28-71 | A reader of the stored playlist finds, for every segment in order, a name that the server takes for it and the text for how long its video lasts by the times of the file, and where the init segment is |
| `EndToEnd.PlayerKeepsTime` | crates/packager/src/fmp4/media.rs:267-277 | In a certified index every served sample decodes at its time in the file |
| `EndToEnd.InitDescribesFile` | crates/packager/src/index/builder.rs:139-140 | The stored init segment parses to the metadata of the index exactly when both edit lists state their size |
| `Registry.IndexRegistry.constructor` | crates/server/src/registry.rs:67-79 | Starts empty; a capacity of zero is rounded up |
| `Registry.IndexRegistry.Lookup` | crates/server/src/registry.rs:99-102 | Returns the cached entry and moves it to the front |
| `Registry.IndexRegistry.Insert` | crates/server/src/registry.rs:104-119 | An entry that is there already wins; otherwise the new one goes first and the least recently used one may go |
| `Registry.IndexRegistry.Get` | crates/server/src/registry.rs:88-97 | A bad id is refused; a hit returns the cached entry; what is returned is cached; a failed load changes nothing |
| `Registry.AlwaysBounded` | crates/server/src/registry.rs:88-119 | In every state that gets running side by side can reach, no id is cached twice and the capacity is kept |
| `Registry.CompletedIsCached` | crates/server/src/registry.rs:99-119 | A get that completes returns what is cached for its id at that step |
| `Registry.SameEntry` | crates/server/src/registry.rs:81-119 | Two gets of an id return the same entry unless the id is dropped in between, even when both load |
| `Registry.CachedAreMostRecent` | crates/server/src/registry.rs:88-119 | The cached ids are always the most recently completed ones, in that order |
| `Registry.CachedWhile` | crates/server/src/registry.rs:99-119 | An id that was completed and not again since is cached exactly as long as gets of fewer than `capacity` different other ids have completed |
| `Registry.SameEntryWithin` | crates/server/src/registry.rs:81-119 | Two gets of an id return the same entry if gets of fewer than `capacity` different other ids complete in between, in every interleaving |

## Left out

- Floating point: the nominal duration is an integer number of ticks, and the six-decimal `EXTINF` text
  is a parameter that maps ticks and timescale to bytes. The check that the duration is positive and
  finite goes with it.
- BLAKE3: the digest is any function from bytes to 32 bytes. That it is applied to the whole source is
  proved.
- Memory-mapped files, opening, atomic rename and fsync. A source is a byte sequence that does not
  change; read errors other than the end of the source do not occur.
- Reinterpreting mapped memory as rows: table rows are decoded from fixed-width bytes in the byte order
  of the host, which is a parameter. The check that the mapped memory is aligned to 8 bytes is taken to
  pass.
- Running out of memory, and positions beyond 64 bits.
- Sources longer than 2^63 - 1 bytes: both readers of the repository are byte slices
  (`crates/packager/src/read_at.rs:14-40`), which cannot be longer.
- SegmentWriter.WriteMediaSegment: requires 2^40 bytes between the sink's end and 2^64, the room that
  any segment can take.
- BoxWriters.BoxWriter.Finish: requires that an expected size is the written one; the code panics
  otherwise.
- Seeking by -2^63: an unoptimised build panics on the negation in
  `crates/packager/src/index/builder.rs:463`; the model takes the offset for what it is.
- The texts inside error values, and the atom names in them.
- Builder.Draft: does not fix which error wins when a file is bad in several ways; nor do the other
  contracts that only say when a result is `Ok`.
- HTTP routing, headers, status codes, configuration, the admission semaphore and chunked bodies.
- The inside of the `lru` crate: the cache is a sequence in order of recency.
- Loading an archive: what it yields is a parameter of `Registry`, as is the file system below it.
