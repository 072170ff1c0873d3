# OpenJOC verification

A Dafny model of the parts of OpenJOC whose correctness rests on arithmetic, bookkeeping and cross-references, with
proofs about every input, run or reachable state. `dafny verify dfyconfig.toml` checks the whole project.

## What is modelled

**ADM BWF export and validation** (`crates/openjoc-adm`). The same source file holds the printer and the parser of a
binary container, and the model keeps them apart until they meet:

- `AdmPlan` is the export plan: construction, binding of dynamic object metadata (`AdmDynamics`) for admitted scenes
  (`AdmAdmission`), and its undo.
- `AdmContainer` plans sizes and gives the bytes of a file; `AdmWriter` is the streaming writer over them;
  `AdmStreaming` shows that any split of a programme gives the bytes of the one-shot writer, refused chunks and
  retries included.
- `AdmPcm` quantizes and interleaves samples, `HeadroomCensus` keeps the statistics in front of the quantizer.
- `Chna`, `Dbmd`, `AdmTimes` and `AdmIds` are the small formats: identifier table, checksummed metadata, printed
  times, identifiers.
- `AdmDocument` builds the ADM element tree of a plan. `AdmDocumentCheck` states what the validator demands of a tree,
  `AdmXmlValidator` is the code that decides it. `AdmConformance` describes the same documents by their elements alone;
  `AdmSearches`, `AdmConformanceRules` and `AdmConformanceTheorem` prove the description and the checks equivalent.
  `AdmDocumentTheorem` (with `AdmDocumentSections`, `AdmDocumentIds`, `AdmDocumentAccepted`, `AdmDocumentFormats`)
  shows that every plan's tree meets the demands.
  `AdmDocumentReadBack` recovers the object graph and the blocks from the tree.
- `ChnaLanguage` and `AdmDirectory` give the identifier table and the size directory as the bytes of a writer.
- `AdmFile` describes legal files by their chunk spans; `AdmWalk` and `AdmValidator` are the validator's loops, proved
  to accept exactly those files; `AdmRoundTrip` and `AdmEndToEnd` bring printer and parser together.

**GStreamer output** (`crates/gst-plugin-openjoc`). `GstOutput` is the element's accounting of renderer frames against
access units, `GstTime` the timestamp conversions, `GstChannels` the channel permutation.

**Scripts.** `PeClosure`, `PeAudit` and `PeAgreement` are the Windows dependency worklist and its auditor,
`StreamCompare` the chunked comparator, `HrtfLayout` the two-pass offset layout and `HrtfReader` a reader of its files.

Loops and objects of the source are methods and classes here, each proved against a specification that does not follow
its steps; the rules for one document element (`ProgrammeOk` to `UidOk`), which the passes over a document call, are
each proved equivalent to a description in `AdmConformance`. Samples, positions and times are reals. Five results
differ from what one would first expect:

- `chunk_total_size` adds without a check, so in builds without overflow checks a plan near 2^64 bytes can announce a
  file 2^64 bytes too short. `AdmContainer.LayoutExactness` gives the exact condition, `AdmPlan.OversizedPlanIsBuilt` a
  plan.
- A plan's document is accepted if and only if no track has 2^32 or more blocks (`DocumentAcceptance`), and its file if
  and only if its document chunk is also at most 64 MiB (`ContainerRoundTrip`); the exporter checks neither.
- `format_time` saturates a 64-bit product, so above 18446746 Hz some block times no longer tell their sample counts
  (`AdmTimes.RoundTripLimit`); the rates of a plan are far below.
- The census also keeps the samples of a chunk that the writer then refuses, so after a corrected retry it describes
  what was offered, not what was written (`StreamingAdmWriter.WritePcm`).
- A PCM frame with more channel labels than channels does not fail cleanly in `pcm_buffer`: every such nonempty frame
  indexes past its samples, and one with fewer labels drops channels (`GstChannels.PcmBuffer`). The element builds an
  output format from the first frame of a batch beforehand, so only a later frame of the batch can get there.

## Model

| member | source | states |
|---|---|---|
| `Dbmd.ValidateDbmd` | crates/openjoc-adm/src/lib.rs:2132-2176 | accepts exactly the payloads that parse as a nonzero version, checksummed segments and an end marker with at most one trailing byte, and returns the segment identifiers of every such parse |
| `Dbmd.Unambiguous` | crates/openjoc-adm/src/lib.rs:2136-2176 | a `dbmd` payload has at most one parse |
| `Dbmd.LegalMeans` | crates/openjoc-adm/src/lib.rs:2146-2172 | a segment is legal exactly when its body is as long as its two size bytes say, least significant first and zero for 65535, and sizes, body and checksum add up to a multiple of 256 |
| `Dbmd.CorruptionDetected` | crates/openjoc-adm/src/lib.rs:2163-2172 | changing any one payload or checksum byte of an accepted segment makes the whole chunk rejected |
| `Dbmd.RenamingUndetected` | crates/openjoc-adm/src/lib.rs:2142-2172 | identifiers are outside the checksum: renaming a segment to any nonzero identifier is accepted and moves nothing else |
| `Dbmd.WrittenPayloadIsEmptyMetadata` | crates/openjoc-adm/src/lib.rs:1649-1655 | the six bytes the exporter writes are a legal `dbmd` payload without segments |
| `Chna.ChnaPayload` | crates/openjoc-adm/src/lib.rs:1776-1798 | writes the record table, failing exactly when the count or an identifier does not fit its field |
| `Chna.ParseChna` | crates/openjoc-adm/src/lib.rs:2185-2240 | accepts exactly the payloads with agreeing counts, legal records, distinct UIDs, every PCM track referenced and a zero-filled remainder, and returns their records |
| `Chna.FieldRoundTrip` | crates/openjoc-adm/src/lib.rs:2242-2258 | a zero-padded ASCII field reads back as the identifier written into it |
| `Chna.ChnaRoundTrip` | crates/openjoc-adm/src/lib.rs:1776-1789 | the `chna` chunk of every plan parses back to exactly the plan's identifiers in track order |
| `AdmValidator.ChnaUnique` | crates/openjoc-adm/src/lib.rs:2185-2240 | a `chna` payload has at most one reading |
| `ChnaLanguage.RowMeans` | crates/openjoc-adm/src/lib.rs:2197-2223 | forty bytes read as a record for a PCM track exactly when they are that record's bytes and the record is legal |
| `ChnaLanguage.PayloadLanguage` | crates/openjoc-adm/src/lib.rs:2185-2240 | the legal payloads are exactly both counts, the rows of a legal table (distinct UIDs, every PCM track bound) and any number of empty rows |
| `AdmIds.KindsAreDisjoint` | crates/openjoc-adm/src/lib.rs:2273-2304 | no string is a well-formed identifier of two kinds |
| `AdmIds.IdShapes` | crates/openjoc-adm/src/lib.rs:2273-2304 | a well-formed identifier is one that matches the pattern of its kind character by character |
| `AdmIds.FormatIdFacts` | crates/openjoc-adm/src/lib.rs:758-802 | generated channel, stream and pack identifiers are well formed, carry their type half and their counter |
| `AdmIds.BlockIdSyntax` | crates/openjoc-adm/src/lib.rs:2285-2302 | a generated block identifier is well formed exactly while its number fits eight hexadecimal digits |
| `AdmTracks.TrackIds` | crates/openjoc-adm/src/lib.rs:758-802 | every identifier of a planned track is well formed, and channel, stream and track format share their counter |
| `AdmTimes.TimeRoundTrip` | crates/openjoc-adm/src/lib.rs:3146-3156 | at every rate up to 18446746 Hz the sample count is recovered from the printed time, so printing is injective |
| `AdmTimes.RoundTripLimit` | crates/openjoc-adm/src/lib.rs:3146-3156 | every sample count is recovered if and only if the rate is at most 18446746 Hz; above, the saturating product loses the last sample of the first second |
| `AdmTimes.ParseOfFormatTime` | crates/openjoc-adm/src/lib.rs:3146-3156 | the printed time parses to whole seconds plus the truncated twelve-digit fraction and is a legal ADM time |
| `AdmTimes.ParseOfFormatAdmTime` | crates/openjoc-adm/src/lib.rs:3158-3170 | the clock form parses back to the time rounded to 1e-5 s and is a legal ADM time |
| `AdmTimes.Recombine` | crates/openjoc-adm/src/lib.rs:3158-3170 | minutes and seconds are below sixty and recombine with hours and fraction to the rounded time |
| `AdmTimes.PrintedTimeIsClose` | crates/openjoc-adm/src/lib.rs:3008-3030 | the printed programme time is within half a unit of the exact time and always inside the validator's duration tolerance |
| `AdmTimes.UnitsAreNearest` | crates/openjoc-adm/src/lib.rs:3158-3161 | the printed programme time is the nearest unit to the exact time, the later one when two are as near |
| `AdmTimes.SecondsMean` | crates/openjoc-adm/src/lib.rs:3008-3026 | a time reads exactly when it is a nonnegative number in the ISO form or three fields with hours below 2^64 and minutes and seconds below sixty, and it then is their sum |
| `AdmTimes.BlockTimesMean` | crates/openjoc-adm/src/lib.rs:3060-3085 | a block time is legal exactly in the ISO form or with at least two digits of hours, two characters of minutes and seconds below sixty |
| `AdmTimes.FloatMeans` | crates/openjoc-adm/src/lib.rs:3013-3017 | a number reads exactly when it is digits with at most one point, perhaps behind a sign, and has the value of its digits |
| `AdmDocumentSections.MembersAreSections` | crates/openjoc-adm/src/lib.rs:2306-2329 | the validator's search for one kind of element in a generated document finds exactly the section generated for it |
| `AdmDocumentIds.NumberedIsContiguous` | crates/openjoc-adm/src/lib.rs:2835-2865 | a section whose counters run from the profile's first value without gap passes the contiguity check |
| `AdmDocumentIds.ObjectRangeIsTheCap` | crates/openjoc-adm/src/lib.rs:2565-2572 | object numbers stay in 0x100B..=0x1080 if and only if there are at most 118 signals |
| `AdmDocumentIds.OverlongTrackIsIllegal` | crates/openjoc-adm/src/lib.rs:1500-1545 | a track with 2^32 blocks or more makes the document's block identifiers illegal |
| `AdmDocumentAccepted.ProgrammeAccepted` | crates/openjoc-adm/src/lib.rs:2485-2509 | the generated programme element passes the reference and duration checks |
| `AdmDocumentAccepted.ContentAccepted` | crates/openjoc-adm/src/lib.rs:2510-2527 | the generated content element passes the reference and dialogue checks |
| `AdmDocumentAccepted.ObjectAccepted` | crates/openjoc-adm/src/lib.rs:2528-2590 | every generated object, bed or signal, passes the reference, time and range checks |
| `AdmDocumentFormats.PackAccepted` | crates/openjoc-adm/src/lib.rs:2591-2609 | every generated pack passes the type, reference and bed-order checks |
| `AdmDocumentFormats.BedConfiguration` | crates/openjoc-adm/src/lib.rs:2881-2932 | the generated bed is the profile's 5.1 configuration in the required channel order |
| `AdmDocumentFormats.ChannelAccepted` | crates/openjoc-adm/src/lib.rs:2610-2681 | every generated channel, neutral or dynamic, passes the block, speaker, timing, position and jump checks |
| `AdmDocumentFormats.StreamAccepted` | crates/openjoc-adm/src/lib.rs:2682-2727 | every generated stream names one channel, pack and track format with matching counters and name |
| `AdmDocumentFormats.TrackFormatAccepted` | crates/openjoc-adm/src/lib.rs:2728-2756 | every generated track format names its stream and carries its name |
| `AdmDocumentFormats.UidAccepted` | crates/openjoc-adm/src/lib.rs:2758-2810 | every generated UID element carries the PCM attributes and its two references |
| `AdmDocumentFormats.RecordAccepted` | crates/openjoc-adm/src/lib.rs:2815-2826 | every `chna` record of the plan is linked to the UID element that names the same references |
| `AdmDocumentTheorem.DocumentAcceptance` | crates/openjoc-adm/src/lib.rs:2351-2826 | a plan's document in any binding state passes every check of the validator against the plan's own `chna` records if and only if every track's blocks can be numbered in eight hexadecimal digits |
| `AdmDocumentReadBack.SixDecimalsRead` | crates/openjoc-adm/src/lib.rs:1533-1540 | a coordinate printed with six decimals, negative or not, parses back to within half a millionth of itself |
| `AdmDocumentReadBack.TiesGoToEven` | crates/openjoc-adm/src/lib.rs:1533-1540 | a coordinate halfway between two millionths prints as the even one |
| `AdmDocumentReadBack.DynamicBlocksReadBack` | crates/openjoc-adm/src/lib.rs:1523-1548 | the blocks of a bound track appear one element each in order; each reads back to the exact start and duration in samples and to its position within half a millionth, and jumps at once when it is the first and over 250 samples otherwise |
| `AdmDocumentReadBack.NeutralBlockReadsBack` | crates/openjoc-adm/src/lib.rs:1516-1521 | a signal without dynamic metadata has one block, which reads back as the middle of the room from the first sample for the whole printed duration |
| `AdmDocumentReadBack.BedBlockReadsBack` | crates/openjoc-adm/src/lib.rs:1505-1513 | a bed channel has one block, which reads back as its loudspeaker exactly in its place and at all times |
| `AdmDocumentReadBack.SignalNamesTheNumber` | crates/openjoc-adm/src/lib.rs:529-539 | the channel name of a signal says whether it is bound and ends in its number counted from one |
| `AdmDocumentReadBack.SignalGraphCloses` | crates/openjoc-adm/src/lib.rs:1470-1586 | from the object of any signal the references lead through its own UID, track format and pack to its own channel and that channel's blocks, never to another signal's |
| `AdmSearches.FoundMeans` | crates/openjoc-adm/src/lib.rs:2312-2316 | a search at any depth yields the elements with the tag among all elements in document order |
| `AdmSearches.RefMeans` | crates/openjoc-adm/src/lib.rs:2331-2337 | the reference values of an element are exactly the nonempty trimmed texts of its children with the tag |
| `AdmSearches.OnlyRefMeans` | crates/openjoc-adm/src/lib.rs:2331-2337 | there is a single reference value exactly when one child with a text refers to it and no other child refers to anything |
| `AdmSearches.FindMeans` | crates/openjoc-adm/src/lib.rs:2867-2879 | an identifier finds exactly the child that carries it when the children of its kind have distinct ones |
| `AdmConformance.ScopeMeans` | crates/openjoc-adm/src/lib.rs:2360-2391 | the format element is found exactly when root and namespace are supported and the document's only `audioFormatExtended` lies in a `format` in a `coreMetadata` |
| `AdmConformanceRules.IdentifiersMean` | crates/openjoc-adm/src/lib.rs:2392-2481 | the identifier checks hold exactly of documents with well-formed distinct identifiers, the required counts and gap-free counters, told through the elements |
| `AdmConformanceRules.ProgrammeMeans` | crates/openjoc-adm/src/lib.rs:2485-2509 | a programme passes exactly when it refers to contents, all present, and starts and ends at times that differ by the PCM length to one sample and ten microseconds |
| `AdmConformanceRules.ContentMeans` | crates/openjoc-adm/src/lib.rs:2510-2527 | a content passes exactly when it refers to objects, all present, and has one dialogue child of kind 0 and text 2 |
| `AdmConformanceRules.ObjectMeans` | crates/openjoc-adm/src/lib.rs:2528-2590 | an object passes exactly when it refers to one present pack and to present UIDs, starts at zero, lasts as long as the PCM and has a number and track count that suit its pack |
| `AdmConformanceRules.PackMeans` | crates/openjoc-adm/src/lib.rs:2591-2609 | a pack passes exactly when label, definition and identifier agree and it refers to one present channel or, as a bed, to channels whose speakers form a bed |
| `AdmConformanceRules.BedsAre` | crates/openjoc-adm/src/lib.rs:2900-2925 | the listed speaker configurations are exactly stereo and three in front, alone or with one of three sets of surrounds and perhaps an LFE |
| `AdmConformanceRules.TableFollowsNames` | crates/openjoc-adm/src/lib.rs:2939-2953 | the loudspeaker table gives every label the name and place its letters spell out, and knows no other label |
| `AdmConformanceRules.ChannelMeans` | crates/openjoc-adm/src/lib.rs:2610-2681 | a channel passes exactly when its type agrees, it has blocks, and every block shares its number, has legal times and coordinates and either stands at its speaker or jumps at once or over 250 samples |
| `AdmConformanceRules.StreamMeans` | crates/openjoc-adm/src/lib.rs:2682-2727 | a stream passes exactly when it is PCM and refers once to a present channel, pack and track format with its number and is named after the channel |
| `AdmConformanceRules.TrackFormatMeans` | crates/openjoc-adm/src/lib.rs:2728-2756 | a track format passes exactly when it is PCM and refers once to a present stream of its name |
| `AdmConformanceRules.UidMeans` | crates/openjoc-adm/src/lib.rs:2758-2810 | a UID passes exactly when it carries the file's rate and 24 bits, no relation attribute, and refers once to a present pack and once to a present track format or channel |
| `AdmConformanceRules.LinksMean` | crates/openjoc-adm/src/lib.rs:2815-2828 | the links hold exactly when there are as many UID elements as records and each record's UID element refers to the record's signal and pack |
| `AdmConformanceTheorem.AcceptanceIsConformance` | crates/openjoc-adm/src/lib.rs:2351-2833 | a document is accepted if and only if it conforms: placement, identifiers, counters, references that resolve, times, types, blocks, formats and links, all told through its elements |
| `AdmConformanceTheorem.ReferencesResolve` | crates/openjoc-adm/src/lib.rs:2339-2349 | in a conforming document no reference of the twelve kinds is dangling |
| `AdmConformanceTheorem.DanglingIsRejected` | crates/openjoc-adm/src/lib.rs:2339-2349 | a document in which one such reference names an identifier that no element carries is rejected |
| `AdmConformanceTheorem.RenamedIsRejected` | crates/openjoc-adm/src/lib.rs:2339-2349 | every plan's document is rejected once any one of its references is renamed to an identifier that no element carries |
| `AdmXmlValidator.CollectAdmIds` | crates/openjoc-adm/src/lib.rs:2306-2329 | collects one family's identifiers, failing exactly on a malformed or repeated one or one another family already has |
| `AdmXmlValidator.FamiliesAreDisjoint` | crates/openjoc-adm/src/lib.rs:2322-2326 | identifiers of two families never meet, so the shared set of all identifiers rejects nothing on its own |
| `AdmXmlValidator.SortedCounters` | crates/openjoc-adm/src/lib.rs:2840-2852 | the sorted list of a family's counters, failing exactly on an identifier without one |
| `AdmXmlValidator.ValidateContiguousIds` | crates/openjoc-adm/src/lib.rs:2835-2865 | sorting and counting accepts exactly the families whose counters are the first value and its successors without gap |
| `AdmXmlValidator.RunCovers` | crates/openjoc-adm/src/lib.rs:2853-2863 | a sorted list as long as a run of numbers it covers is that run |
| `AdmXmlValidator.CheckIdentifiers` | crates/openjoc-adm/src/lib.rs:2392-2481 | identifier collection, element counts and contiguity together decide the identifier checks |
| `AdmXmlValidator.CheckRelations` | crates/openjoc-adm/src/lib.rs:2485-2810 | the eight passes accept exactly when every child element obeys the rule of its kind, which, when identifiers are distinct, is to conform as described for its kind |
| `AdmXmlValidator.CheckLinks` | crates/openjoc-adm/src/lib.rs:2757-2828 | the table keyed by UID decides exactly whether every `chna` record is linked to its UID element |
| `AdmXmlValidator.ValidateAdmXml` | crates/openjoc-adm/src/lib.rs:2351-2833 | the loops accept exactly the conforming documents, so no accepted document has a dangling reference |
| `AdmWalk.ParseDs64` | crates/openjoc-adm/src/lib.rs:2097-2130 | reads the size directory, failing exactly on a wrong length or a reserved identifier |
| `AdmDirectory.DirectoryLanguage` | crates/openjoc-adm/src/lib.rs:2097-2130 | a payload reads as a size directory exactly when it is the bytes a writer of that directory, table included, would store and no entry has a reserved name |
| `AdmWalk.ResolveSize` | crates/openjoc-adm/src/lib.rs:1857-1885 | a chunk's size is its declared one or, behind the sentinel, the first unused directory entry's; it fails only where no size is legal |
| `AdmWalk.GreedyCorresponds` | crates/openjoc-adm/src/lib.rs:1870-1881 | serving sentinel chunks with the first unused entry, with no entry left over, is a one-to-one identifier-matching correspondence in table order |
| `AdmWalk.CorrespondsIsGreedy` | crates/openjoc-adm/src/lib.rs:1870-1881 | conversely every such correspondence is the one the greedy search finds |
| `AdmWalk.StructureIsUnique` | crates/openjoc-adm/src/lib.rs:1830-1969 | a file has at most one legal chunk structure |
| `AdmWalk.AdmitChunk` | crates/openjoc-adm/src/lib.rs:1895-1967 | the match on the identifier admits exactly the chunks that are legal behind their predecessors and keeps the inventory true |
| `AdmWalk.FinishWalk` | crates/openjoc-adm/src/lib.rs:1970-1991 | the checks behind the loop decide exactly whether the first chunk is right and no directory entry is unused |
| `AdmWalk.ReadChunks` | crates/openjoc-adm/src/lib.rs:1830-1991 | the cursor loop terminates, succeeds exactly on the legal chunk structures, and its inventory is that of the one structure the file has |
| `AdmFile.ChunksTile` | crates/openjoc-adm/src/lib.rs:1840-1974 | in every accepted file the padded chunks tile it from byte 12 to its end without gap or overlap |
| `AdmFile.ChunksAreUnique` | crates/openjoc-adm/src/lib.rs:1896-1967 | in every accepted chain `fmt `, `data`, `axml`, `chna` and `dbmd` occur at most once, and ds64 only first and never in RIFF |
| `AdmFile.SentinelsMatchTheDirectory` | crates/openjoc-adm/src/lib.rs:1857-1984 | sentinel chunks other than `data` take directory entries of their own identifier and size, every entry is taken, and RIFF files have no sentinel |
| `AdmValidator.ReadPreamble` | crates/openjoc-adm/src/lib.rs:1801-1830 | accepts exactly a RIFF header of the file's own size or an RF64/BW64 header with the sentinel |
| `AdmDirectory.KindsAreNamed` | crates/openjoc-adm/src/lib.rs:2069-2076 | a file is of the kind its first four ASCII characters name |
| `AdmValidator.ReadFormat` | crates/openjoc-adm/src/lib.rs:1992-2025 | accepts exactly the 16-byte 24-bit PCM formats with consistent rate and alignment, in checked arithmetic |
| `AdmValidator.CheckData` | crates/openjoc-adm/src/lib.rs:2003-2035 | accepts exactly data chunks that are frame-aligned and agree with the directory's size and sample count |
| `AdmValidator.ReadContents` | crates/openjoc-adm/src/lib.rs:1992-2059 | the checks behind the walk accept exactly the legal files and the report describes them |
| `AdmValidator.ValidateReader` | crates/openjoc-adm/src/lib.rs:1801-2059 | accepts exactly the files with a legal chunk structure whose metadata describes their PCM, for arbitrary bytes, and reports what that structure holds |
| `AdmContainer.LayoutExactness` | crates/openjoc-adm/src/lib.rs:1657-1693 | the layout announces the true file size if and only if the RIFF form of the file fits 64 bits |
| `AdmContainer.RiffIffItFits` | crates/openjoc-adm/src/lib.rs:1674-1693 | when sizes are true, RIFF is chosen if and only if both of its 32-bit fields can hold their values |
| `AdmContainer.OversizedProgrammeIsAnnounced` | crates/openjoc-adm/src/lib.rs:1761-1763 | with documents of any length below 2^32, the mono programme of 2^64 - 1 PCM bytes is announced as an RF64 file exactly 2^64 bytes shorter than it is, instead of being refused |
| `AdmContainer.PlanAnnouncesItsSize` | crates/openjoc-adm/src/lib.rs:803-832 | a plan's total size is its file's size if and only if the sizes fit |
| `AdmContainer.FileIsChunks` | crates/openjoc-adm/src/lib.rs:1588-1647 | the writer's separate writes add up to a preamble and six encoded chunks |
| `AdmContainer.FileHasPlannedSize` | crates/openjoc-adm/src/lib.rs:1185-1193 | the finished file of a plan whose sizes fit has exactly the planned size |
| `AdmRoundTrip.DirectoryReads` | crates/openjoc-adm/src/lib.rs:1610-1618 | the written ds64 payload reads back as the plan's sizes and sample count with an empty table |
| `AdmRoundTrip.FormatReads` | crates/openjoc-adm/src/lib.rs:1620-1633 | the written `fmt ` payload reads back as the plan's channels and rate |
| `AdmRoundTrip.PlanStructure` | crates/openjoc-adm/src/lib.rs:1588-1647 | the plan's file has a legal chunk structure when its document chunk is within the limit |
| `AdmRoundTrip.TooLong` | crates/openjoc-adm/src/lib.rs:1933-1943 | a document chunk over 64 MiB leaves the file without any legal chunk structure |
| `AdmRoundTrip.ContainerRoundTrip` | crates/openjoc-adm/src/lib.rs:1588-1647 | a completed file is accepted if and only if its document is at most 64 MiB and its blocks can be numbered, and the validator finds exactly the plan's container, chunks, format, samples, document and identifiers |
| `AdmPcm.QuantizeContract` | crates/openjoc-adm/src/lib.rs:1695-1711 | quantization succeeds exactly on finite samples in [-1, 1] and its three bytes sign-extend back to the integer |
| `AdmPcm.ThreeBytesRoundTrip` | crates/openjoc-adm/src/lib.rs:1708-1710 | the low three bytes of the 32-bit form sign-extend back to every 24-bit integer |
| `AdmPcm.QuantizeMonotone` | crates/openjoc-adm/src/lib.rs:1706-1707 | louder samples never quantize lower |
| `AdmPcm.QuantizeError` | crates/openjoc-adm/src/lib.rs:1706-1707 | the error is at most half a step, except that the clamp at +1 costs up to one, exactly for values above full scale minus half a step |
| `AdmPcm.QuantizeIsOdd` | crates/openjoc-adm/src/lib.rs:1706-1707 | away from the clamps, negating a sample negates its quantized value |
| `AdmPcm.QuantizeHalf` | crates/openjoc-adm/src/lib.rs:1706-1707 | a sample halfway between two steps takes the louder one on either side of zero |
| `AdmPcm.QuantizeFixesSteps` | crates/openjoc-adm/src/lib.rs:1706-1707 | every multiple of one step in the 24-bit range is kept exactly |
| `AdmPcm.InterleaveJoin` | crates/openjoc-adm/src/lib.rs:1116-1142 | interleaving two chunks one after the other gives the bytes of the joined chunk |
| `AdmPcm.DeinterleaveRecovers` | crates/openjoc-adm/src/lib.rs:1116-1142 | de-interleaving by track descriptor yields each row's quantized sequence, the LFE in bed slot 3 and silence in the other five |
| `HeadroomCensus.LongestRunIsMaximal` | crates/openjoc-adm/src/lib.rs:401-406 | no window of consecutive out-of-range samples is longer than the longest run |
| `HeadroomCensus.LongestRunIsAttained` | crates/openjoc-adm/src/lib.rs:401-406 | some window of consecutive out-of-range samples is as long as the longest run |
| `HeadroomCensus.CountsAddUp` | crates/openjoc-adm/src/lib.rs:376-400 | finite and non-finite samples make up all samples, above and below make up out of range |
| `HeadroomCensus.RefusalsAreCounted` | crates/openjoc-adm/src/lib.rs:371-400 | the census counts as non-finite or out of range exactly the samples that quantization refuses for that reason |
| `HeadroomCensus.CountIsSum` | crates/openjoc-adm/src/lib.rs:333-362 | a count over the programme is the sum of the counts over its tracks |
| `HeadroomCensus.Record` | crates/openjoc-adm/src/lib.rs:333-368 | one observation keeps every shared counter and extreme the true statistic of the longer history |
| `HeadroomCensus.ObserveTrackValues` | crates/openjoc-adm/src/lib.rs:371-420 | one observation keeps a track's counters, extremes, current and longest run the true statistics of the longer history |
| `HeadroomCensus.PcmHeadroomCensus.constructor` | crates/openjoc-adm/src/lib.rs:265-287 | a new census is the true statistic of the empty history |
| `HeadroomCensus.PcmHeadroomCensus.ObserveBaseLfe` | crates/openjoc-adm/src/lib.rs:289-301 | an LFE observation extends the history and keeps every statistic true; without an LFE track nothing changes |
| `HeadroomCensus.PcmHeadroomCensus.ObserveReconstruction` | crates/openjoc-adm/src/lib.rs:303-322 | a row observation extends the history and keeps every statistic true; a missing row changes nothing |
| `HeadroomCensus.PcmHeadroomCensus.ObserveGlobal` | crates/openjoc-adm/src/lib.rs:324-368 | the programme statistics stay true, given the longest run its track has just recorded |
| `HeadroomCensus.ExtremesAreOverTracks` | crates/openjoc-adm/src/lib.rs:333-368 | at any length of history no track exceeds the programme's greatest, least or peak sample, and one track attains it |
| `HeadroomCensus.CensusAddsUp` | crates/openjoc-adm/src/lib.rs:264-420 | below saturation every counter of the programme is the sum of its tracks' counters, finite and non-finite make up the total, the greatest, least and peak samples are the extremes of the tracks, and the longest run is the greatest of any track and reached by one |
| `AdmDynamics.PositionForAdm` | crates/openjoc-adm/src/coordinate.rs:60-95 | a position converts exactly when it is a finite room position in range, and the result lies in the normalized cube |
| `AdmDynamics.CornersAreSpeakers` | crates/openjoc-adm/src/coordinate.rs:83-91 | the four corners of the room, at any height, go to the left, right, left surround and right surround loudspeakers of the bed |
| `AdmDynamics.MidpointsStay` | crates/openjoc-adm/src/coordinate.rs:83-91 | the middle of two room positions goes to the middle of their images |
| `AdmDynamics.BuildBlocks` | crates/openjoc-adm/src/lib.rs:905-955 | builds the blocks of one object, failing exactly when its updates do not drive the whole programme |
| `AdmDynamics.UpdatesAreSelected` | crates/openjoc-adm/src/lib.rs:905-910 | the updates of an object are the timeline entries with its number, all of them and in timeline order |
| `AdmDynamics.BlocksFollow` | crates/openjoc-adm/src/lib.rs:922-943 | there is one block per selected update in order: it starts with the update, lasts until the next one or the end, and stands where the update's room position lies between the loudspeakers |
| `AdmDynamics.BlocksTile` | crates/openjoc-adm/src/lib.rs:922-953 | the blocks are nonempty, start at sample 0, end where the next begins and at the duration, with all positions in [-1, 1] |
| `AdmDynamics.TilesTotal` | crates/openjoc-adm/src/lib.rs:922-953 | tiling blocks last exactly as long as the programme |
| `AdmPlan.BuildTracks` | crates/openjoc-adm/src/lib.rs:755-802 | the two loops build exactly the fresh track table |
| `AdmPlan.SerializedLayout` | crates/openjoc-adm/src/lib.rs:1025-1031 | container and size come from the encoded lengths of the three metadata chunks |
| `AdmPlan.AdmExportPlan.New` | crates/openjoc-adm/src/lib.rs:709-833 | returns the freshly built plan with its layout, or exactly the error of the first refused argument |
| `AdmPlan.OversizedPlanIsBuilt` | crates/openjoc-adm/src/lib.rs:709-833 | that programme is an input the exporter takes: a fresh mono plan is built for it, whose announced size is its file's size less 2^64 |
| `AdmPlan.AdmExportPlan.RefreshSerializedLayout` | crates/openjoc-adm/src/lib.rs:1025-1036 | recomputes container and size for the current document; on failure both keep their old values |
| `AdmPlan.AdmExportPlan.DynamicObjectCount` | crates/openjoc-adm/src/lib.rs:1018-1023 | counts the reconstruction tracks |
| `AdmPlan.SignalsCounted` | crates/openjoc-adm/src/lib.rs:1018-1023 | a plan has as many reconstruction tracks as signals |
| `AdmPlan.AdmExportPlan.ApplyDecodedJocBindingMetadata` | crates/openjoc-adm/src/lib.rs:887-984 | succeeds exactly on matching populations and admissible updates whose document has a layout; a metadata failure leaves tracks, document and layout unchanged and records only the profile; an overflow leaves the bound tracks beside the old layout |
| `AdmPlan.BoundBlocksTile` | crates/openjoc-adm/src/lib.rs:905-968 | after a successful binding every reconstruction track is bound and its blocks tile the programme with durations summing to it |
| `AdmPlan.BoundBlocksFollow` | crates/openjoc-adm/src/lib.rs:897-965 | the bound track of signal `j` renders exactly the updates with total index `j + 1`, block by block in start, length and place, and keeps its identity |
| `AdmPlan.AdmExportPlan.SetDecodedBindingUnavailable` | crates/openjoc-adm/src/lib.rs:988-1016 | from any consistent state, even a half-finished binding, it cannot fail and restores the tracks, document, container and size of the freshly built plan |
| `AdmAdmission.AdmitDecodedJocBinding` | crates/openjoc-scene/src/binding.rs:411-459 | admits exactly one LFE in front of fifteen dynamic objects with fifteen rows in a supported profile, and names the first object that is misplaced |
| `AdmAdmission.SceneAdmission` | crates/openjoc-scene/src/binding.rs:167-184 | a scene is admitted if and only if its objects are an LFE followed by fifteen dynamic ones and it has fifteen rows |
| `AdmAdmission.BindSceneObjects` | crates/openjoc-scene/src/binding.rs:269-312 | pairs every row with the updates of total index row + 1, failing exactly on a wrong row count or at the first object without updates |
| `AdmDynamics.SelectUpdates` | crates/openjoc-scene/src/binding.rs:292-298 | filters the timeline for one object, in order |
| `AdmPlan.FromScene` | crates/openjoc-adm/src/lib.rs:836-882 | a scene that claims a binding is refused unless its object classes are admitted and every object has an update; beyond that a binding that fails refuses a strict plan and leaves a best-effort one exactly the freshly built plan, and a plan that binds carries the bound tracks |
| `AdmWriter.WriteHeader` | crates/openjoc-adm/src/lib.rs:1588-1641 | the header writes succeed exactly when every narrow field fits, and add up to the plan's header bytes |
| `AdmWriter.LegalHeaderFits` | crates/openjoc-adm/src/lib.rs:1588-1641 | the header of every legal plan can be written |
| `AdmWriter.WriteChunk` | crates/openjoc-adm/src/lib.rs:1765-1774 | writes one padded chunk, failing exactly when its size needs more than 32 bits |
| `AdmWriter.WriteMetadata` | crates/openjoc-adm/src/lib.rs:1643-1647 | the metadata of a legal plan is written unless its document needs more than 32 bits |
| `AdmWriter.StreamingAdmWriter.New` | crates/openjoc-adm/src/lib.rs:1061-1073 | opens the stream with the plan's header behind whatever was there |
| `AdmWriter.StreamingAdmWriter.InterleaveFrame` | crates/openjoc-adm/src/lib.rs:1116-1142 | appends one frame's quantized bytes and observations, or stops at the frame's first unusable sample with that sample's error |
| `AdmWriter.StreamingAdmWriter.InterleaveChunk` | crates/openjoc-adm/src/lib.rs:1113-1142 | fills the buffer exactly when every sample is representable, otherwise stops at the first fault in writing order |
| `AdmWriter.StreamingAdmWriter.CheckChunk` | crates/openjoc-adm/src/lib.rs:1081-1108 | the tests in front of quantization decide exactly topology, equal lengths and remaining duration |
| `AdmWriter.StreamingAdmWriter.Commit` | crates/openjoc-adm/src/lib.rs:1143-1151 | appends the buffered chunk and counts its frames |
| `AdmWriter.StreamingAdmWriter.WritePcm` | crates/openjoc-adm/src/lib.rs:1076-1165 | a chunk is taken exactly when shape, duration and samples are right, and then extends the stream by its interleaved bytes; a refused chunk leaves stream, frame count and statistics unchanged, and only the census keeps what it saw |
| `AdmWriter.StreamingAdmWriter.Finish` | crates/openjoc-adm/src/lib.rs:1168-1199 | succeeds exactly when the policy is met, the duration is complete, the document fits and the position is the planned size, and then the stream is the plan's file |
| `AdmStreaming.WriteFrame` | crates/openjoc-adm/src/lib.rs:1735-1754 | one frame of the in-memory oracle, failing exactly on an unusable sample |
| `AdmStreaming.WriteOneShot` | crates/openjoc-adm/src/lib.rs:1713-1759 | the in-memory oracle writes the plan's file for exactly the rectangular representable programmes of the planned duration |
| `AdmStreaming.JoinRepresentable` | crates/openjoc-adm/src/lib.rs:1076-1165 | a joined chunk is representable if and only if both parts are |
| `AdmStreaming.ExportInChunks` | crates/openjoc-adm/src/lib.rs:1203-1217 | for every split of a programme, empty chunks included, streaming writes byte for byte the oracle's file and fails on no other programmes |
| `AdmStreaming.RefusedLeavesNoTrace` | crates/openjoc-adm/src/lib.rs:1076-1165 | after a refused chunk every later chunk is taken or refused as if the refused one had never been offered |
| `AdmStreaming.CorrectedRetry` | crates/openjoc-adm/src/lib.rs:1076-1165 | a split of a programme with a refused chunk in between is taken exactly as the split alone |
| `AdmStreaming.ExportWithRetries` | crates/openjoc-adm/src/lib.rs:1076-1199 | a caller that goes on after refusals gets the one-shot file of the joined chunks that were taken, if and only if these make up the duration, the document fits and the policy is met |
| `AdmEndToEnd.ExportAndValidate` | crates/openjoc-adm/src/lib.rs:1203-1234 | exporting a valid plan in any split and validating the result succeeds and reports the plan's container, rate, channels, sample bytes, document size and identifier count |
| `GstOutput.Conservation` | crates/gst-plugin-openjoc/src/plugin.rs:732-770 | over every legal run the samples admitted are the samples sent as subframes plus those still pending |
| `GstOutput.UnitsRetireInOrder` | crates/gst-plugin-openjoc/src/plugin.rs:732-770 | units retire in the order admitted, each exactly when its own number of samples is out |
| `GstOutput.TailsNeedAnEmptyQueue` | crates/gst-plugin-openjoc/src/plugin.rs:758-764 | tail output happens only when every admitted unit has retired |
| `GstOutput.OpenJocDecoder.PushSlice` | crates/gst-plugin-openjoc/src/plugin.rs:740-766 | one slice goes to the oldest unit, which retires with its last sample, or to the tail; the remaining assignment of samples to units is unchanged |
| `GstOutput.OpenJocDecoder.PushFrames` | crates/gst-plugin-openjoc/src/plugin.rs:732-770 | however the renderer slices its frames, a successful call terminates, sends every sample once, in order, and on behalf of the unit it belongs to; the queue it leaves depends on the sample total only |
| `GstOutput.OpenJocDecoder.EnsureSession` | crates/gst-plugin-openjoc/src/plugin.rs:624-653 | a live session is kept, otherwise one is made exactly when it is available |
| `GstOutput.OpenJocDecoder.HandleFrame` | crates/gst-plugin-openjoc/src/plugin.rs:502-596 | a missing session is made when one is available; an accepted packet admits one unit before its frames are sent; a refused one changes nothing in queue and output |
| `GstOutput.OpenJocDecoder.HandleDrain` | crates/gst-plugin-openjoc/src/plugin.rs:655-678 | draining sends the renderer's remaining samples to their units and then as tail |
| `GstOutput.OpenJocDecoder.Flush` | crates/gst-plugin-openjoc/src/plugin.rs:598-608 | drops all pending units and marks the next packet discontinuous |
| `GstOutput.OpenJocDecoder.SetFormat` | crates/gst-plugin-openjoc/src/plugin.rs:440-496 | discards in the base class exactly the pending units before clearing the queue; a refusal leaves everything as it was |
| `GstOutput.OpenJocDecoder.Restart` | crates/gst-plugin-openjoc/src/plugin.rs:379-438 | starting and stopping leave an empty queue |
| `GstTime.RoundTrip` | crates/gst-plugin-openjoc/src/plugin.rs:853-870 | up to one gigahertz every sample count survives the trip through rounded nanoseconds |
| `GstTime.TimeIsNearest` | crates/gst-plugin-openjoc/src/plugin.rs:859-870 | a timestamp is the nearest nanosecond, halves up, and there is none exactly when the rate is zero or it needs more than 64 bits |
| `GstTime.SampleIsNearest` | crates/gst-plugin-openjoc/src/plugin.rs:853-857 | a converted timestamp is the nearest sample, halves up, and there is none exactly when it needs more than 63 bits |
| `GstTime.SurvivalLimit` | crates/gst-plugin-openjoc/src/plugin.rs:853-870 | all sample counts of the first second survive if and only if the rate is at most one gigahertz |
| `GstTime.TimeMonotone` | crates/gst-plugin-openjoc/src/plugin.rs:859-870 | later samples never get an earlier timestamp |
| `GstTime.SamplesMonotone` | crates/gst-plugin-openjoc/src/plugin.rs:853-857 | later timestamps never convert to an earlier sample |
| `GstChannels.ChannelPositions` | crates/gst-plugin-openjoc/src/plugin.rs:872-907 | maps all labels, failing exactly on an unknown one |
| `GstChannels.ValidOrder` | crates/gst-plugin-openjoc/src/plugin.rs:918-921 | sorts positions into the valid order, failing exactly on a repeated one |
| `GstChannels.ChannelOrder` | crates/gst-plugin-openjoc/src/plugin.rs:915-934 | succeeds exactly on known distinct positions, with a reorder that names the channel for each place of the sorted order |
| `GstChannels.ReorderIsPermutation` | crates/gst-plugin-openjoc/src/plugin.rs:922-931 | the reorder is a permutation of the channels |
| `GstChannels.InverseExists` | crates/gst-plugin-openjoc/src/plugin.rs:922-931 | every reorder has an inverse permutation |
| `GstChannels.TransportIsLossless` | crates/gst-plugin-openjoc/src/plugin.rs:828-851 | undoing the permutation on every sample of the output restores the original interleaved frame |
| `GstChannels.GatherRows` | crates/gst-plugin-openjoc/src/plugin.rs:838-846 | the byte-building loop yields, for every sample, the labelled channels in the new order when there are no more labels than channels, and indexes past the end exactly when there are more |
| `GstChannels.PcmBuffer` | crates/gst-plugin-openjoc/src/plugin.rs:828-851 | exactly when a buffer is built, refused, or the frame makes the indexing panic; a built buffer is the reordered frame, restricted to the labelled channels when labels are fewer, with the nearest nanosecond as its duration |
| `PeClosure.FindCaseInsensitive` | scripts/player-package.py:455-464 | the first directory with any spelling of the name decides; in it the file of exactly the name is taken, else the first under another spelling; none is found exactly when no directory has a spelling |
| `PeClosure.ResolveMeans` | scripts/player-package.py:455-464 | resolution, as the closure uses it, is that rule, which names at most one file |
| `PeClosure.CollectWindowsClosure` | scripts/player-package.py:414-452 | the worklist terminates and fails only on an unresolved dependency of a reachable file; every success has read reachable files only, with all dependencies resolved, bundles one spelling of each non-system name they import and reports their system names; when spellings agree those files are exactly the least closure of the roots |
| `PeClosure.ClosureIsUnique` | scripts/player-package.py:414-452 | the least closed set of files is unique |
| `PeAudit.VerifyClosure` | scripts/player-package.py:624-652 | the auditor fails exactly when a reachable file has a dependency its directory lacks, and otherwise reports exactly what is reachable |
| `PeAgreement.AuditAgrees` | scripts/player-package.py:624-652 | a collected bundle passes its audit, which reports exactly the bundled names with the root DLLs and the same system names |
| `StreamCompare.CompareStreamBytes` | scripts/verify_pcm_bitexact.py:465-519 | for any chunk size the comparison passes exactly when both sizes are as expected and the bytes are equal, and a difference is reported at its least offset |
| `StreamCompare.FrameLocation` | scripts/verify_pcm_bitexact.py:153-169 | whatever offsets a manifest records, the reported frame id, sample and channel name the word that holds the byte in the first frame covering it, and none is reported exactly when no frame does |
| `StreamCompare.SequentialFramesCover` | scripts/verify_pcm_bitexact.py:153-169 | frames whose offsets are running sums cover exactly the bytes before their total size |
| `StreamCompare.LocationIsUnique` | scripts/verify_pcm_bitexact.py:153-169 | when recorded offsets are running sums no byte belongs to two sample words |
| `StreamCompare.WindowHoldsFocus` | scripts/verify_pcm_bitexact.py:325-329 | the evidence window fills the budget, stays inside the file, has the focus in its middle unless an end of the file is nearer, and contains any focus byte in range when it has room for one byte |
| `StreamCompare.CopyWindow` | scripts/verify_pcm_bitexact.py:325-350 | the copy loop retains exactly the window, failing exactly when the file ends before it does |
| `HrtfLayout.BeginIsRecorded` | tools/generate-builtin-hrtf.py:47-56 | the begin offset is the last word of a variable's header, whose length does not depend on it |
| `HrtfLayout.HeaderLength` | tools/generate-builtin-hrtf.py:253-270 | the provisional and the final header pass have the same length |
| `HrtfLayout.FillBlob` | tools/generate-builtin-hrtf.py:273-278 | the padding and data loop puts each variable's data at its offset behind an intact header |
| `HrtfLayout.ConvertSofa` | tools/generate-builtin-hrtf.py:242-279 | fails exactly when a packed value needs more than 32 bits; otherwise the header is intact and each variable's data lies at its aligned offset, in disjoint ascending ranges with only zeros between |
| `HrtfLayout.PointersResolve` | tools/generate-builtin-hrtf.py:253-279 | following the offset stored in the final file leads to precisely that variable's data |
| `HrtfReader.FileReadsBack` | tools/generate-builtin-hrtf.py:27-56 | a file laid out so reads back, through its own header, as every name, dimension and attribute and every variable with its data |

## Left out

- XML text: escaping, parsing and UTF-8 are the function parameters `render` and `parse`; the model works on element trees, and a round trip is assumed of the pair only where a theorem says so.
- Display names and attributes that no check reads are not part of the element trees.
- Error messages: the source's many `InvalidAdmBwf`, `InvalidScene` and `UnsupportedDynamicMetadata` texts are one constructor each.
- IEEE arithmetic: samples, positions and times are reals with a separate non-finite case for samples; the decimal printer and parser work on exact reals, so IEEE rounding in them is not modelled.
- Number syntax: exponents, `inf` and `nan` spellings of Rust's float parser, and whitespace beyond ASCII, do not occur in the model's parsers.
- Non-ASCII identifiers in `chna` fields are refused at the byte level, where the source first decodes UTF-8.
- I/O errors, short reads and seeking: a file is a byte sequence and a cursor, a writer a growing byte sequence.
- Export report: of the JSON report only the binding fields and the warnings of an unavailable binding are modelled; the fixed texts and mapping tables are not.
- AdmPlan.FromScene: the scene's own validation in front of it is not modelled, and a missing reconstruction basis is the same as one without rows.
- AdmWriter.StreamingAdmWriter.CheckChunk: the byte-count overflow test of `write_pcm` is not repeated, because the duration test in front of it already excludes an overflow.
- AdmPlan.AdmExportPlan.SetDecodedBindingUnavailable: `from_scene` propagates its error, which is not repeated because the call is proved never to fail there.
- AdmWalk.ReadChunks: the test that the cursor ended at the file boundary is not repeated, because the loop's exit implies it.
- StreamCompare.FrameLocation: sample and channel counts of a frame are natural numbers, and sample widths are the four or eight bytes its callers pass.
- StreamCompare.CompareStreamBytes: the two differing words and their location, printed in the message, are not part of the verdict.
- GstOutput.OpenJocDecoder.HandleFrame: header checks, configuration of a new session and caps negotiation are outcomes passed in, and the renderer is any sequence of frames.
- GstOutput.OpenJocDecoder.PushFrames: a refused buffer is modelled as having no effect in the base class, and only the shape of the queue is stated after a failed call.
- GstChannels.PcmBuffer: samples are opaque values instead of four little-endian bytes, and the label table is a parameter.
- PeClosure.CollectWindowsClosure: file contents, symbolic links, hashes and licence records are left out; when two spellings of one import resolve to different files, only the first spelling met is followed, and the files read are not claimed to be a whole closure.
- HrtfLayout.ConvertSofa: dimension and attribute values are parameters; the header is read back by a reader of this layout, and its conformance to the NetCDF grammar is not claimed.
- E-AC-3 and JOC decoding, rendering, access-unit parsing, admission records and release packaging would add only easy or unseen members.
