# ChipFS, verified

ChipFS mounts a folder of chiptune files and shows every track as a WAV file that
does not exist until somebody listens to it. It announces the size of that file,
and serves its header, before any audio has been rendered; from then on every read
must agree with the one full render, whatever the cache has evicted in between and
however many readers race. This project models the code behind that promise and
proves it.

`dafny verify dfyconfig.toml` checks everything.

## How the project is laid out

| part | modules |
|---|---|
| bytes, numerals, sequences | `Bytes`, `Decimal`, `Sequences`, `Wrappers` |
| the WAV muxer and a reader for what it writes | `WavFormat` (layout), `Muxer` (the buffer-filling writer), `WavReader` (an independent RIFF / ID3v2.4 / LIST INFO reader, with the identifiers spelled out), `WavRoundTrip` |
| rendering a track | `Render` |
| the byte-bounded LRU cache | `LruSpec` (as a sequence), `RecencyList` and `LruCache` (as linked nodes, a map and a counter), `LruHistory`, `StackInclusion` |
| concurrent reads | `ReadProtocol` (the step system), `ProtocolSafety` (invariants), `ProtocolTheorems`, `ProtocolHistory`, `ProtocolProgress`, `SequentialReader` |
| one reader alone, as methods | `TrackFiles`, `SoloRuns` |
| the NSFe parser and a printer for what it reads | `NsfeSpec`, `NsfeParser`, `NsfeRoundTrip` |
| names, folders, tags | `Text`, `TrackNames`, `Folders`, `AlbumArtist` |
| the parts put together | `EndToEnd` |

Code that works by changing things in place is modelled that way: the cache and its
linked list, the emulator and the render loop, the muxer's buffers, the NSFe parser
and the header it builds, inodes and their children are classes, arrays and loops.
Each such method is proved equal to a function on values, and the theorems are about
those functions. Concurrent reads are a step system: every step is one atomic action
of `TrackFile.Read` or `trackStore.render`, and the theorems hold for every sequence
of steps, of any number of readers.

Points where the code and the texts around it differ; the model follows the code:

- The documents under `docs/` give a file's size as seconds times rate times channels
  times two, without saying how the product is rounded. The code multiplies milliseconds
  by the rate before it divides by 1000, in integers: a track holds every whole frame
  that fits its duration and no more (`Render.SampleCountMeaning`).
- `docs/specs/nsfe.md:74` says missing `auth` strings read as `<?>`, and line 88 that a
  fade of zero ends a track at once. The parser leaves missing strings empty, and a
  zero fade becomes the configured default (`TrackNames.ZeroIsDefault`).

Two properties one might expect do not hold. A bigger cache can lose a hit once reads
of headers are part of the trace. `StackInclusion.InclusionExactly` says for every trace
when it cannot: inclusion holds at every moment exactly if no header read finds its
track in the bigger cache only. `StackInclusion.HeaderReadsBreakInclusion` gives a trace
that fails, for all sizes meeting an inequality, and `EndToEnd.GrowingLosesAHit` finds
capacities that meet it for any three tracks of a mount whose first is bigger than the
third. A tag, or a whole file, is readable only up to the size its length field
can hold; `WavRoundTrip.Id3RoundTrip` and `WavRoundTrip.RiffRoundTrip` give the exact
bounds, and `EndToEnd.MountedFilesFit` shows that the mount's own settings stay below
them.

## Model

| member | source | states |
|---|---|---|
| Muxer.Encode | internal/wav/muxer.go:42-51 | the bytes written are exactly the file whose chunks, tags and samples WavRoundTrip reads back |
| Muxer.AppendSamples | internal/wav/muxer.go:45-50 | the sample loop writes every sample, little-endian, right after the header and leaves the header alone |
| Muxer.Header | internal/wav/muxer.go:74-105 | the grown and patched buffer is the header layout, its RIFF size counting everything after itself and the samples to come |
| Muxer.AppendFmt | internal/wav/muxer.go:81-88 | the fields appended make one well-formed fmt chunk |
| Muxer.AppendId3 | internal/wav/muxer.go:90-95 | the tag becomes one RIFF chunk, padded when its length is odd |
| Muxer.PatchSize | internal/wav/muxer.go:78-103 | patching replaces only the placeholder, with the size of all that follows it |
| Muxer.HeaderBytes | internal/wav/muxer.go:56-58 | the header served before rendering is the one Encode writes for that many samples |
| Muxer.EstimatedSize | internal/wav/muxer.go:62-64 | the announced size is the length of every encoding of that many samples |
| Muxer.BuildListInfo | internal/wav/muxer.go:113-134 | one LIST chunk with the set fields, nothing when none is set |
| Muxer.ListChunk | internal/wav/muxer.go:127-133 | the buffer filled by hand is a well-formed LIST chunk |
| Muxer.InfoSubchunk | internal/wav/muxer.go:138-147 | the filled buffer is a chunk holding the zero-terminated text, padded to even length |
| Muxer.BuildId3v2 | internal/wav/muxer.go:152-170 | the tag is the header with the exact size of the frames that follow |
| Muxer.TextFrame | internal/wav/muxer.go:174-187 | one UTF-8 text frame, none for empty text |
| Muxer.PutSyncsafe | internal/wav/muxer.go:191-196 | four bytes of the buffer change, to the syncsafe form of the number |
| Bytes.LittleEndian | internal/wav/muxer.go:79-103 | which byte of a 16- or 32-bit field goes where, written and read |
| Bytes.NarrowingWraps | internal/formats/nsf/nsf.go:165-174 | conversion to int16 or int32 keeps the value modulo its width |
| Bytes.IdInOrder | internal/wav/muxer.go:78-101 | the four characters of an identifier stand in their order |
| Decimal.DigitCharacters | internal/wav/muxer.go:158-160 | a numeral is made of the characters 0 to 9, in text and in tags |
| Decimal.NoLeadingZero | internal/wav/muxer.go:158-160 | a numeral has no leading zero |
| WavFormat.TruncDivTowardZero | internal/wav/muxer.go:68-70 | integer division truncates toward zero |
| WavFormat.HeaderLength | internal/wav/muxer.go:74-105 | the header's length does not depend on how many samples follow |
| WavFormat.InfoSubchunksEven | internal/wav/muxer.go:113-147 | the INFO subchunks end at an even offset, and are empty exactly when title, artist and album are |
| WavRoundTrip.SyncsafeExact | internal/wav/muxer.go:189-196 | decoding a syncsafe field gives the number back exactly when it is in 0..2^28-1 |
| WavRoundTrip.ReadOverFrame | internal/wav/muxer.go:174-187 | a frame reader takes a written frame off the front of anything |
| WavRoundTrip.ReadAllFrames | internal/wav/muxer.go:152-160 | a frame reader finds exactly the frames of the non-empty fields, in order |
| WavRoundTrip.MetadataOfFrames | internal/wav/muxer.go:152-160 | the frames give back title, artist, album, album artist and positive track number |
| WavRoundTrip.Id3RoundTrip | internal/wav/muxer.go:152-187 | the tag is readable exactly when its frames are below 2^28 bytes, and then reads back exactly |
| WavRoundTrip.WalkOverChunk | internal/wav/muxer.go:80-102 | a RIFF walk takes a written chunk, pad byte included, off the front of anything |
| WavRoundTrip.WalkWritten | internal/wav/muxer.go:80-102 | a walk over written chunks finds each and ends exactly at the end |
| WavRoundTrip.LocatedAligned | internal/wav/muxer.go:198-206 | from an even start every chunk of the walk starts at an even offset |
| WavRoundTrip.InfoRoundTrip | internal/wav/muxer.go:113-147 | reading LIST INFO gives back title, artist and album |
| WavRoundTrip.FmtRoundTrip | internal/wav/muxer.go:81-88 | the fmt fields read back as the options modulo their 16- and 32-bit widths |
| WavRoundTrip.FmtExact | internal/wav/muxer.go:81-88 | within those widths the format reads back exactly |
| WavRoundTrip.PcmRoundTrip | internal/wav/muxer.go:46-49 | the data payload decodes to the samples |
| WavRoundTrip.RiffRoundTrip | internal/wav/muxer.go:74-105 | a walk of the whole file succeeds exactly when its size fits the RIFF field, and then visits exactly its chunks and ends at its end |
| WavRoundTrip.FileChunks | internal/wav/muxer.go:39-41 | those chunks are fmt, id3, LIST exactly if some INFO field is set, and data, each at an even offset |
| WavRoundTrip.WavRoundTrips | internal/wav/muxer.go:42-51 | a reader with its own identifiers, flag, padding and terminator rules recovers format, all five tags, the INFO texts and every sample from an encoded file |
| Render.SampleCountMeaning | internal/wav/muxer.go:66-70 | the sample count is the number of whole frames that fit the duration, times the channels |
| Render.ExpectedMeaning | internal/vfs/vfs.go:697-701 | a track holds the whole frames that fit its play time and its fade together |
| Render.SampleCountMonotone | internal/vfs/vfs.go:62-68 | a longer duration never has fewer samples |
| Render.ReclampKeeps | internal/vfs/vfs.go:792-798 | a clamped duration is positive and bounded, one in range is kept, and clamping again changes nothing |
| Render.ExpectedBelowCeiling | internal/vfs/vfs.go:62-68 | a clamped track never needs more samples than the loop's safety ceiling allows |
| Render.FitSamples | internal/vfs/vfs.go:760-765 | exactly n samples: the given ones, then silence |
| Render.AudibleMeaning | internal/vfs/vfs.go:705-712 | the audible stream is the emulator's up to the first multiple of 4096 samples where it reports its end, and silence from there |
| Render.FaultMeaning | internal/vfs/vfs.go:705-710 | rendering fails exactly if a chunk of 4096 samples faults below the ceiling and no end is reported at or before it |
| Render.PlayTrack | internal/vfs/vfs.go:699-712 | for every emulator the loop stops within one chunk of the ceiling, and without a fault yields the started track's stream up to its end, then silence, cut at the expected length; the ceiling never shows |
| Render.NoFaultMet | internal/vfs/vfs.go:705-710 | if no played chunk faulted, no fault lies before the end of the track or the ceiling |
| Render.LoopStreamIsAudible | internal/vfs/vfs.go:705-712 | cutting or padding the collected chunks gives the audible stream |
| Render.RenderTrack | internal/vfs/vfs.go:683-713 | each failing step gives its own error; otherwise the emulator is opened at the entry's rate, started on its track and told its fade, and the result encodes exactly the audible stream, or fails exactly if a played chunk faults |
| Render.SizeAndHeaderPromise | internal/vfs/vfs.go:582-591 | any render of the expected length has the announced size and starts with the served header |
| LruSpec.TouchKeys | internal/cache/cache.go:45-57 | a lookup neither adds, drops nor changes an entry |
| LruSpec.TouchAt | internal/cache/cache.go:55 | a hit moves its entry to the front and keeps the order of the others |
| LruSpec.TrimIsLongestFittingPrefix | internal/cache/cache.go:79-87 | eviction keeps the longest prefix of the recency order that fits, never less than its front |
| LruSpec.TrimUnique | internal/cache/cache.go:79-87 | no other prefix has that property |
| LruSpec.StoreKeys | internal/cache/cache.go:59-88 | Set puts the new entry in front, evicts only others, keeps survivors' data and order, and fits or leaves one entry |
| RecencyList.List.constructor | internal/cache/cache.go:37-43 | an empty ring |
| RecencyList.List.InsertFront | internal/cache/cache.go:75 | relinking at the sentinel keeps the ring linked both ways and puts the node in front |
| RecencyList.List.Unlink | internal/cache/cache.go:84-85 | relinking the neighbours keeps the ring linked both ways without the node |
| RecencyList.List.PushFront | internal/cache/cache.go:75 | a fresh node in front of the old ones |
| RecencyList.List.MoveToFront | internal/cache/cache.go:55 | the node in front, the others in their order |
| RecencyList.List.Remove | internal/cache/cache.go:69-85 | the list without that node |
| RecencyList.List.Back | internal/cache/cache.go:82 | the last node, through the sentinel's back pointer |
| LruCache.Cache.constructor | internal/cache/cache.go:37-43 | an empty, consistent cache |
| LruCache.Cache.Get | internal/cache/cache.go:47-57 | map, list and byte count stay consistent; result and new order are those of the sequence model |
| LruCache.Cache.Set | internal/cache/cache.go:62-88 | map, list and byte count stay consistent; the new contents are those of the sequence model |
| LruCache.Cache.RemoveKey | internal/cache/cache.go:69-73 | one entry leaves map, list and count together |
| LruCache.Cache.Insert | internal/cache/cache.go:75-77 | one entry enters map, list and count together, in front |
| LruCache.Cache.EvictWhileOver | internal/cache/cache.go:79-87 | the eviction loop leaves exactly the longest fitting prefix |
| LruCache.IndexedLookup | internal/cache/cache.go:51-56 | the map finds exactly what a search of the list would find |
| LruHistory.OrderIsRecency | internal/cache/cache.go:30-34 | after every history the list is strictly ordered by time of last touch, without duplicates |
| LruHistory.EvictsLeastRecent | internal/cache/cache.go:79-87 | only Set evicts, and whatever it evicts was touched less recently than everything it keeps |
| LruHistory.HitIsLatestSet | internal/cache/cache.go:47-61 | a hit returns the data of the latest Set of that key, over every history |
| LruHistory.CapacityKept | internal/cache/cache.go:59-61 | after every history the cache fits its capacity or holds a single entry |
| StackInclusion.CacheIsCutStack | internal/vfs/vfs.go:623-642 | after any trace of PCM reads the cache is the unbounded recency stack cut at the capacity |
| StackInclusion.Inclusion | internal/vfs/vfs.go:623-642 | on the same PCM reads a smaller cache's list is a prefix of a larger one's, so growing a cache loses no hit |
| StackInclusion.PcmReadKeepsInclusion | internal/vfs/vfs.go:623-642 | a read past the header keeps inclusion from any two lists in inclusion, whatever led to them |
| StackInclusion.HeaderReadKeepsInclusion | internal/vfs/vfs.go:623-635 | a header read keeps inclusion exactly unless it hits only the larger cache while the smaller holds something |
| StackInclusion.InclusionExactly | internal/vfs/vfs.go:623-642 | for every trace of reads inside and past headers: inclusion holds at every moment exactly if no header read hits the larger cache only |
| StackInclusion.HeaderReadsBreakInclusion | internal/vfs/vfs.go:623-635 | a trace with a header read after which the larger cache misses what the smaller one hits, for all file sizes and capacities meeting an inequality |
| ReadProtocol.FlightKeyInjective | internal/vfs/vfs.go:661 | two tracks have the same flight name only if they are the same track, whatever their paths contain |
| ProtocolSafety.FlightsMatchKept | internal/vfs/vfs.go:660-672 | every step keeps the registered calls exactly the unfinished ones, one a name |
| ProtocolSafety.WaitersMatchKept | internal/vfs/vfs.go:637-642 | every step keeps waiters on calls about their own track, and answers from calls equal to those calls' outcome |
| ProtocolSafety.BusyNotCachedKept | internal/vfs/vfs.go:662-671 | every step keeps tracks that are being rendered out of the cache |
| ProtocolSafety.ConservedKept | internal/vfs/vfs.go:660-677 | every step keeps renders started equal to failed plus evicted plus cached plus under way |
| ProtocolSafety.PublishCounts | internal/vfs/vfs.go:670 | storing a track caches it and turns every key that leaves the cache into one eviction |
| ProtocolSafety.DataValidKept | internal/vfs/vfs.go:662-671 | every step keeps all cached and pending data results of renders of their own track |
| ProtocolSafety.AnswersValidKept | internal/vfs/vfs.go:616-643 | every step keeps answers header bytes, slices of a render of that track, or EIO |
| ProtocolSafety.FailuresCountedKept | internal/vfs/vfs.go:637-641 | every step keeps EIO answers backed by a failed render of that track |
| ProtocolSafety.ReachableSafe | internal/vfs/vfs.go:616-677 | all of these hold in every reachable state of every interleaving |
| ProtocolTheorems.RendersConserved | internal/vfs/vfs.go:656-677 | in every reachable state renders started = failed + evicted + cached + under way, for each track |
| ProtocolTheorems.RenderedAtMostOnce | internal/vfs/vfs.go:656-659 | a track that never fails and is never evicted is rendered at most once, however many readers race |
| ProtocolTheorems.OneRenderAtATime | internal/vfs/vfs.go:656-662 | at most one render of a track is under way |
| ProtocolTheorems.SetNeverReplaces | internal/cache/cache.go:68-73 | the branch of Set for a present key is never taken by the file system |
| ProtocolTheorems.RepliesAreCanonical | internal/vfs/vfs.go:613-643 | every answer with data is the requested slice of the canonical file, or its header part for a read across the header's end on the header path |
| ProtocolTheorems.GoodReplyShape | internal/vfs/vfs.go:800-811 | such an answer is a prefix of the slice asked for, and empty only at or past the end or for no bytes |
| ProtocolTheorems.ReplySizes | internal/vfs/vfs.go:613-643 | without determinism: answers have the length the announced size implies and agree with the header |
| ProtocolTheorems.ErrorsHaveCauses | internal/vfs/vfs.go:637-641 | EIO is answered only after a failed render of that track |
| ProtocolTheorems.WaitersShareOutcome | internal/vfs/vfs.go:656-677 | whoever waited for a call was answered with that call's outcome |
| ProtocolHistory.CacheIsHistory | internal/vfs/vfs.go:623-671 | after every run the shared cache, order included, is what the Gets of its look-ups and re-checks and the Sets of its finished renders leave |
| ProtocolHistory.RunsKeepRecency | internal/vfs/vfs.go:623-671 | in every reachable state the shared cache is ordered by last hit or store and fits its capacity or holds one entry |
| ProtocolHistory.RunsEvictLeastRecent | internal/vfs/vfs.go:670 | a step of any run that loses a track stores another, and the lost track was used less recently than every track that stays |
| ProtocolHistory.HitsAreWhole | internal/vfs/vfs.go:623-626 | a look-up that hits is answered with the requested slice of what was stored last for the track |
| ProtocolHistory.ProbesNeverRender | internal/vfs/vfs.go:628-635 | a track of which only the header is read is never rendered, however many reads race |
| ProtocolProgress.StepLowersRank | internal/vfs/vfs.go:616-677 | every step strictly lowers a ranking of readers and calls |
| ProtocolProgress.RunsAreBounded | internal/vfs/vfs.go:616-677 | a run takes at most seven steps a read |
| ProtocolProgress.OpenReadCanMove | internal/vfs/vfs.go:616-677 | while a read is unanswered some step can be taken |
| ProtocolProgress.OpenReadCanSucceed | internal/vfs/vfs.go:616-677 | if every track can be rendered, some step other than a failing render can be taken |
| ProtocolProgress.FinishedRunsAnswerEverything | internal/vfs/vfs.go:616-677 | a run that cannot go on has answered every read |
| ProtocolProgress.EveryRunCanFinish | internal/vfs/vfs.go:616-677 | every run can be continued to such an end |
| ProtocolProgress.EveryRunCanSucceed | internal/vfs/vfs.go:616-677 | if every track can be rendered, every run can be continued to such an end without another failure |
| SequentialReader.HoldsPrefix | internal/vfs/vfs.go:628-632 | a front-to-back client always holds a prefix of the file |
| SequentialReader.EmptyReplyEndsIt | internal/vfs/vfs.go:628-632 | an empty reply means it holds the whole file |
| SequentialReader.FewReplies | internal/vfs/vfs.go:628-632 | it gets at most ceil(size / n) + 1 non-empty replies |
| SequentialReader.ServedClient | internal/vfs/vfs.go:613-643 | at any moment of any run a client served so far holds a prefix of the file, and all of it after an empty reply |
| SequentialReader.EndedRunsServe | internal/vfs/vfs.go:637-643 | in a finished run every read of a track no render of which failed got data |
| SequentialReader.SequentialReadGetsTheFile | internal/vfs/vfs.go:613-643 | in every finished run, whatever else happened, a client of a track no render of which failed met an empty reply within ceil(size / n) + 2 reads, and the replies before it are exactly the file |
| SequentialReader.RunWithMore | internal/vfs/vfs.go:616-643 | a read that arrives later leaves the run before it what it was |
| SequentialReader.ClientCanFinish | internal/vfs/vfs.go:613-643 | from every reachable state a client that sends each read after the answer to the one before can be served up to its empty reply, and then holds the file |
| TrackFiles.TrackFile.constructor | internal/vfs/vfs.go:582-591 | header and announced size are those of any render of the entry |
| TrackFiles.TrackFile.Render | internal/vfs/vfs.go:660-677 | a hit is returned and promoted; a miss renders, and stores exactly a successful render |
| TrackFiles.TrackFile.Read | internal/vfs/vfs.go:616-643 | reply and cache of a read alone, including the header short cut and EIO |
| SoloRuns.RunThenRunFrom | internal/vfs/vfs.go:616-677 | continuing from a reachable state is a run |
| SoloRuns.SoloReadIsARun | internal/vfs/vfs.go:616-643 | a read alone is a run of the protocol with the same answer and the same cache |
| SoloRuns.SoloReadIsVisit | internal/vfs/vfs.go:623-642 | it does to the cache what one visit of the stack-inclusion trace does, inside the header and past it |
| NsfeParser.ParseNsfe | internal/formats/nsf/nsf.go:67-161 | the offset walk over a mutable header equals the fold of chunk handlers over the chunk list, errors included |
| NsfeParser.ParseFile | internal/formats/nsf/nsf.go:46-54 | files that start with the magic go to the NSFe parser |
| NsfeParser.Consume | internal/formats/nsf/nsf.go:87-139 | handling one chunk leaves the meaning of the rest of the file what it was, or rejects it |
| NsfeParser.Switch | internal/formats/nsf/nsf.go:87-139 | one turn of the switch on the mutable header is one handler |
| NsfeParser.Conclude | internal/formats/nsf/nsf.go:142-160 | without INFO the file is rejected; a playlist reorders the tracks |
| NsfeParser.Building.EnsureTracks | internal/formats/nsf/nsf.go:177-183 | at least n slots, old ones kept, new ones zero |
| NsfeParser.Building.ApplyTrackInt32s | internal/formats/nsf/nsf.go:165-174 | the loop writes exactly the values within the track count, each to its own slot and field |
| NsfeParser.Building.ApplyTitles | internal/formats/nsf/nsf.go:112-117 | each title goes to its own slot, other fields untouched |
| NsfeParser.Building.RemapPlaylist | internal/formats/nsf/nsf.go:149-158 | slot i becomes internal track plst[i], or the zero entry if there is none |
| NsfeParser.SplitNullTerminated | internal/formats/nsf/nsf.go:186-198 | the consuming loop computes the split whose inverse is JoinNul |
| NsfeSpec.RestStep | internal/formats/nsf/nsf.go:73-88 | one turn of the loop: stop at NEND, reject a cut-off chunk, or handle a chunk and go on |
| NsfeRoundTrip.ParseOfPrint | internal/formats/nsf/nsf.go:67-140 | parsing a printed chunk list is the fold of the handlers over it |
| NsfeRoundTrip.SameTables | internal/formats/nsf/nsf.go:87-139 | the parser's identifiers are the six handled names, the ten skipped ones and NEND, spelled out; mandatory means A to Z |
| NsfeRoundTrip.ToldByMagic | internal/formats/nsf/nsf.go:46-54 | exactly the files that start with NSFE are parsed as such; shorter than four bytes is invalid |
| NsfeRoundTrip.NendEndsTheFile | internal/formats/nsf/nsf.go:78-80 | nothing from NEND on matters, not even its own size field |
| NsfeRoundTrip.SkippedChunkIsInvisible | internal/formats/nsf/nsf.go:129-139 | a chunk with one of the ten skipped names, or an unknown name that does not start with A to Z, changes nothing at any boundary, rejections included, whatever follows |
| NsfeRoundTrip.MandatoryChunkRejects | docs/specs/nsfe.md:21-22 | an unknown chunk with an upper-case first byte rejects the file |
| NsfeRoundTrip.ShortInfoRejects | internal/formats/nsf/nsf.go:89-91 | an INFO chunk of less than nine bytes rejects the file |
| NsfeRoundTrip.TruncatedChunkRejects | internal/formats/nsf/nsf.go:81-83 | a chunk running past the end rejects the file |
| NsfeRoundTrip.AcceptedExactly | internal/formats/nsf/nsf.go:87-144 | a printed file is accepted exactly if it has INFO and no short INFO or unknown mandatory chunk; without INFO the error says so |
| NsfeRoundTrip.SplitOfJoin | internal/formats/nsf/nsf.go:186-198 | splitting undoes joining NUL-free strings, up to the limit |
| NsfeRoundTrip.SplitOfUnterminated | internal/formats/nsf/nsf.go:190-193 | a last string without terminator is still returned |
| NsfeRoundTrip.IntsOfPack | internal/formats/nsf/nsf.go:165-174 | packed int32 values read back with their signs, up to the track count |
| NsfeRoundTrip.ItemFillsSlot | internal/formats/nsf/nsf.go:100-127 | one printed piece of metadata fills its own slot, whatever was read before |
| NsfeRoundTrip.ItemOverwrites | internal/formats/nsf/nsf.go:100-127 | in any state, before INFO or repeated, a chunk sets exactly its own fields of the slots it reaches and leaves everything else alone |
| NsfeRoundTrip.InfoOverwrites | internal/formats/nsf/nsf.go:88-98 | INFO sets the track count and the starting track, 1 if it is not given, and nothing else |
| NsfeRoundTrip.MetadataRoundTrip | internal/formats/nsf/nsf.go:67-161 | INFO of any length, then any of auth, tlbl, time, fade, plst in any order, printed under their spelled-out names: parsing gives the metadata back, remapped by a non-empty playlist |
| NsfeRoundTrip.OrderIsIrrelevant | internal/formats/nsf/nsf.go:73-140 | two files with the same of those chunks behind INFO, in different orders, parse to the same header |
| Text.SanitizeFilename | internal/vfs/vfs.go:512-529 | the builder loop replaces exactly separators and control characters, then trims |
| Text.SanitizedIsClean | internal/vfs/vfs.go:507-511 | no separator, colon or control character survives, nor the names . and .. |
| Text.SanitizeMeaning | internal/vfs/vfs.go:512-529 | rune by rune only / : and control characters become underscores, then exactly the surrounding spaces go, and . or .. becomes an underscore |
| Text.SanitizeIdempotent | internal/vfs/vfs.go:512-529 | sanitizing twice is sanitizing once |
| Text.CleanTagMeaning | internal/vfs/vfs.go:499-505 | a tag loses exactly the spaces around it, and becomes empty exactly if ? or <?> is left |
| Text.CleanTagIdempotent | internal/vfs/vfs.go:499-505 | cleaning twice is cleaning once |
| TrackNames.MountOptions.ApplyDefaults | internal/vfs/vfs.go:85-95 | positive options are kept, others get their defaults |
| TrackNames.BuildTrackList | internal/vfs/vfs.go:376-425 | one entry a track, in order; none at all for a file that does not parse |
| TrackNames.BuildEntry | internal/vfs/vfs.go:393-422 | one turn of that loop builds the entry's name, durations and tags |
| TrackNames.KeysDistinct | internal/vfs/vfs.go:409 | listed track i stands for the emulator's track i, and two tracks of a mount have the same cache key only if they are the same |
| TrackNames.TitleShape | internal/vfs/vfs.go:391-396 | a track is titled by its cleaned tag or by its place, counted from 1 |
| TrackNames.NameShape | internal/vfs/vfs.go:397-405 | a file name is number, dash, title; or Track_ and number; or the title alone; the number has at least two digits |
| TrackNames.ZeroIsDefault | internal/vfs/vfs.go:410-411 | a positive duration or fade is taken, any other becomes the configured default, and both are cut at 20 minutes and 60 seconds |
| TrackNames.EntryInRange | internal/vfs/vfs.go:410-411 | every listed track has positive durations within the bounds rendering relies on |
| TrackNames.NamesDistinct | internal/vfs/vfs.go:398-406 | two tracks have the same name only if they are the same track, whatever their titles |
| TrackNames.NamesAreSafe | internal/vfs/vfs.go:398-406 | names are non-empty, free of separators and control characters, and not . or .. |
| TrackNames.Inode.AddChild | internal/vfs/vfs.go:558 | adding succeeds exactly on a free name and never overwrites |
| TrackNames.OnAdd | internal/vfs/vfs.go:554-560 | the folder gets exactly one child a track, each under its own name |
| TrackNames.FillFolder | internal/vfs/vfs.go:376-560 | from a parsed file to a folder with exactly one child a track |
| TrackNames.ListedTracks | internal/vfs/vfs.go:427-439 | the tracks listed for a printed NSFe file: one a playlist position (or one a track), each with its internal track's title and durations, under the album and artist of the auth strings |
| AlbumArtist.MostCommon | internal/vfs/vfs.go:481-494 | the one-pass loop finds the smallest of the most frequent non-empty values, or none |
| AlbumArtist.MostCommonMeaning | internal/vfs/vfs.go:478-494 | no value is more frequent than the answer, and one as frequent is greater; empty only if all are |
| AlbumArtist.MostCommonOfPermutation | internal/vfs/vfs.go:478-480 | the answer is unique and does not depend on the order of the values |
| AlbumArtist.LessTotal | internal/vfs/vfs.go:489 | Go's string order decides every tie |
| AlbumArtist.LessIsLexicographic | internal/vfs/vfs.go:489 | that order is lexicographic by byte, a prefix first |
| Folders.ExtIsLastDot | internal/vfs/vfs.go:236 | the extension starts at the last dot after the last slash |
| Folders.StemMeaning | internal/vfs/vfs.go:237 | stem and extension make up the name |
| Folders.FallbackMeaning | internal/vfs/vfs.go:238 | the fallback of stem.ext is stem (ext), and (ext) without a stem |
| Folders.ListReal | internal/vfs/vfs.go:161-207 | the listing loop adds every real entry, remembers every chiptune and collects SPC artists |
| Folders.Populate | internal/vfs/vfs.go:155-222 | the finished folder: real entries, then chiptunes placed in order, SPC tracks under the most common artist |
| Folders.AddChipDir | internal/vfs/vfs.go:235-247 | at most one name is added, the stem if it is free, else the fallback |
| Folders.FallbackNotEmpty | internal/vfs/vfs.go:238 | the fallback name is never empty |
| Folders.ChipsArePending | internal/vfs/vfs.go:187-206 | every recognized chiptune gets its turn |
| Folders.PendingInOrder | internal/vfs/vfs.go:160-206 | chiptunes wait in the order of the listing |
| Folders.ArtistsAreListed | internal/vfs/vfs.go:196-198 | the artists collected are those of the first track of every SPC file, each once, in order |
| Folders.FolderMeaning | internal/vfs/vfs.go:209-221 | a folder lists its chiptune's tracks; only SPC tracks change, and only in their album artist |
| Folders.RealEntriesKeepTheirNames | internal/vfs/vfs.go:232-234 | every directory and regular file keeps its own name |
| Folders.RealChildrenListed | internal/vfs/vfs.go:167-190 | only directories and regular files of the listing are shown as real entries |
| Folders.NamesHeld | internal/vfs/vfs.go:232-247 | every name in the folder belongs to a real entry or to a chiptune placed under its stem or fallback |
| Folders.ChiptunePlaced | internal/vfs/vfs.go:232-247 | a chiptune is missing only if stem (or an empty stem) and fallback were both held by real entries or earlier chiptunes |
| Folders.OneFolderEach | internal/vfs/vfs.go:232-247 | no chiptune has two folders |
| EndToEnd.RendersFit | internal/vfs/vfs.go:679-682 | whatever the emulator does, a render has the expected number of samples |
| EndToEnd.AnswersHaveAnnouncedSize | internal/vfs/vfs.go:606-643 | under any interleaving and any emulator, answers are as long as getattr's size implies and start with the served header |
| EndToEnd.MountedFilesFit | internal/vfs/vfs.go:410-414 | at 44100 Hz stereo, clamped durations keep every file with a writable tag below 4 GiB |
| EndToEnd.ClientDecodesTrack | internal/vfs/vfs.go:613-643 | a client that reads a track front to back, racing anyone, meets an empty reply and then holds a WAV of the announced size from which a reader recovers the tags and every sample |
| EndToEnd.ListedTrackDecodes | internal/vfs/vfs.go:376-713 | for the i-th name listed for a parsed file, cached under that entry's own index, and every emulator: the WAV decodes to the listed title, artist, album, album artist and number, and to what the emulator plays as track i, told the listed play time and fade, in the whole frames these take |
| EndToEnd.GrowingLosesAHit | internal/vfs/vfs.go:623-635 | for any three rendered tracks whose first is bigger than the third there are two capacities such that a trace with one header read leaves the second track in the smaller cache only |
| EndToEnd.LongerIsBigger | internal/vfs/vfs.go:582-591 | of two tracks with the same tags the longer has the bigger file |

## Left out

- libgme and its CGO wrapper: foreign code; the emulator is an arbitrary script of samples, faults and end flags.
- Singleflight's own implementation, goroutine scheduling and mutexes: assumed to keep their contracts; every cache operation is one atomic step.
- Panic recovery in TrackFile.Read and in singleflight: a panicking render is not a step of the protocol.
- FUSE nodes: attributes, opening, inode numbers, timestamps, logging and the pass-through of real files are library calls.
- Reading files from disk: the outcome of each step before the render loop is a parameter, and a parsed chiptune is an arbitrary value.
- GBS, SPC and plain NSF headers: their fields are read at fixed offsets.
- The album name of an SPC file: it depends on the operating system's paths.
- Recursion of populate into subfolders: one folder is modelled, and each subfolder is populated by the same code on its own listing.
- Unicode tables and UTF-8: which runes are spaces, and how text is decoded and encoded, are parameters.
- 64-bit overflow of durations times sample rate: integers are unbounded; with clamped durations and the mount's rate the products stay below 2^48.
- The container/list functions the cache does not call, and Cache.String.
- The command-line tools and the RenderTrack helper they use: argument handling around members modelled here.
