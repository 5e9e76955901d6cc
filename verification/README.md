# IPTV Tunerr in Dafny

IPTV Tunerr is a tuner gateway: it relays MPEG-TS and live HLS streams to Plex, materialises video files on demand,
watches Plex sessions, speaks the HDHomeRun protocol, and links channels to guide data. This project models the parts
of it that keep state, stream bytes or run concurrently, and proves what they promise for every input and every run.

| files | component |
|---|---|
| Bytes, Sinks, Text | bytes and numbers, a destination that may fail, the string functions of Go that the playlists need |
| Crc, PsiKeepalive | the section CRC, the PAT and PMT builders and their tick loop |
| TsPacket, TsInspector, TsHistory, TsTables, TsWire | the greedy packet scan, the inspector as a class, its statistics and tables as facts about history, and packets, PES headers and tables as written by the standard |
| KeepaliveInspected, SpliceInspected | builder into inspector, splice writer into inspector |
| SpliceWriter, StartDetector, AdaptiveWriter | shim injection, start-of-stream detection with its carry, the adaptive buffer |
| SingleFlight, SingleFlightRuns, SecondDownload, Outcomes | the materializer's threads as step machines, whole runs of them, when a thread downloads, and what each is given |
| Download, DownloadRun, ProgressiveRead | the range loop, the same inside the protocol, and reads from a growing file while the threads go on |
| HlsRelay, HlsExactlyOnce | the playlist loop with its pruned `seen` set, and what its history amounts to |
| SessionLease, SessionReaper, GhostHunter | one session's lease record, the reaper's map of them, the hunter's second copy |
| EthernetCrc, HdhrPacket, HdhrTlv | the reflected CRC, the packet framing, the tag-length-value items |
| M3uParser, M3uServe, StreamRoute | reading playlists, printing them, and finding the channel of a printed URL |
| EpgLink, EpgLayers | guide matching and repair, and several guide sources in layers |
| TunerSlots | slot accounting under a limit that shrinks |

Streams are sequences of bytes; code that updates fields, buffers or maps in place is a class or a method proved
against a specification function; concurrent code is a state machine whose steps interleave freely. What the network,
the disk, ffmpeg, Plex and the clock do is a parameter or a free choice at each step.

`dafny verify dfyconfig.toml` checks everything.

## Findings

Places where the code does less than one might expect. Each has a lemma; the code is modelled as it is.

- A range download ends without an error when a reply is empty (internal/materializer/download.go:76-81), and the short
  file is then renamed to the final path: `Download.EmptyReplyEnds` is such a download, `Download.CompleteIff` says exactly
  when it is complete. With a server that sends the bytes asked for, a prefix it is always.
- There is one download of an asset at a time, not one. The stat of the final file comes before the lock
  (internal/materializer/cache.go:35, 47), so a thread may find no file, and register after another has published it:
  `SecondDownload.StatBeforeLock`. And an empty published file counts as none: `SecondDownload.EmptyFileAgain`. Exactly when
  a thread registers is `SecondDownload.RegistersIff`.
- A thread that waited for a download that published bytes may still not be given the path: it looks again without the
  lock (internal/materializer/cache.go:59-62), and a second download may have put an empty file there by then:
  `Outcomes.EmptyFileOver`. Otherwise it is: `Outcomes.WaiterIsServed`.
- A 200 reply to a later range is stored as if it were the range (internal/materializer/download.go:65-70), so a server
  that cuts the first reply short and then ignores the range leaves a file that is no prefix of the resource:
  `Download.WholeFileMidway`. Exactly when it is a prefix is `Download.PrefixIff`; a server that answers every range with
  some of its bytes delivers all of it: `Download.GoodServerDelivers`.
- The inspector may read time stamps in PES packets that have no header, such as private data
  (internal/tuner/ts_inspector.go:487-501): `TsWire.PrivateDataRead`; exactly when is `TsWire.HeaderlessReadIff`. Of
  packets that have one it reads what was written: `TsWire.PesBack`.
- The reaper does not always attempt a stop within the threshold plus one scan gap: its 10 s throttle
  (internal/tuner/plex_session_reaper.go:288-290) can be in the way when the threshold is shorter than 10 s.
  `SessionReaper.ThrottleMissesDeadline` is such a run, `SessionReaper.InTimeIff` says exactly when it is in time,
  `SessionReaper.StillIsAttempted` that it always is for thresholds of 10 s or more.
- A GET request carries the header of its name but not the name (internal/hdhomerun/packet.go:328-333):
  `HdhrTlv.GetReqLosesName`.
- Packets with more than 65531 payload bytes (internal/hdhomerun/packet.go:83, 117-125) and values over 16383 bytes (lines
  207-213) do not round-trip: `HdhrPacket.RoundTripIff`, `HdhrTlv.TlvRoundTripIff`. When data announce such a length and are
  long enough for it, the 16-bit sum breaks the slice bounds: `HdhrPacket.PanicIff`.
- Guide repair can need a second round when two ids differ only in case (internal/epglink/epglink.go:168-171):
  `EpgLink.TwoRoundsNeeded`; exactly when is `EpgLink.SecondRoundIff`. The comment "matched first" at line 234 contradicts
  the comparator, which puts unmatched rows first; rows are kept in channel order here.
- A stream URL of the served playlist need not lead to the channel it was printed for. Of channels with one id it leads to
  the first (internal/tuner/gateway.go:85-90): `StreamRoute.SameIdMisleads`; and a channel without an id is printed by its
  guide number, which is read as a place in the list first (lines 91-96): `StreamRoute.NumberReadAsPlace`. Exactly when it
  does is `StreamRoute.LeadsBackIff`.
- The health report on a repaired catalog may name another spelling of an id than the repair found
  (cmd/iptv-tunerr/cmd_catalog.go:488-489, internal/tuner/guide_health.go:106): `EpgLayers.ReportSpellsOtherwise`; when it
  names the same is `EpgLayers.ReportSameIdIff`.
- The adaptive writer delivers bytes twice when a failing write call of the client had taken them
  (internal/tuner/gateway_stream_helpers.go:304-307): `AdaptiveWriter.TakenTwice`; `AdaptiveWriter.Conservation` says exactly
  when bytes are conserved.
- The minimum tick distance of the inspector stays 0 when the second sample goes backwards
  (internal/tuner/ts_inspector.go:552-558): `TsHistory.ClockMinimumMisses`. When it is the smallest forward step is
  `TsHistory.ClockMinimumIff`.

## Model

| member | source | states |
|---|---|---|
| Crc.MpegTsCrc32 | internal/tuner/psi_keepalive.go:25-38 | the nested bit loop computes `Crc32`, the feedback register of ISO/IEC 13818-1 Annex A started at all ones |
| Crc.SelfCheck | internal/tuner/psi_keepalive.go:73-78 | for every message m and four bytes w: the CRC of m + w is 0 exactly when w is the big-endian CRC of m |
| Crc.BurstDetected | internal/tuner/psi_keepalive.go:25-38 | two messages of one length that differ only within 4 consecutive bytes have the same CRC only if they are equal |
| Crc.RunInjective | internal/tuner/psi_keepalive.go:25-38 | clocking the same bytes into two registers gives equal registers exactly when they started equal |
| Crc.WindowInjective | internal/tuner/psi_keepalive.go:25-38 | up to 4 bytes clocked into one register give equal results exactly when the bytes are equal |
| Crc.CheckValue | internal/tuner/psi_keepalive.go:25-38 | the digits 1 to 9 have the published check value of CRC-32/MPEG-2 |
| PsiKeepalive.BuildPat | internal/tuner/psi_keepalive.go:53-83 | the 188 bytes of a PAT packet: header, pointer, section of ISO/IEC 13818-1 2.4.4.3, its CRC, padding |
| PsiKeepalive.BuildPmt | internal/tuner/psi_keepalive.go:100-144 | the 188 bytes of a PMT packet, section of 2.4.4.8 |
| PsiKeepalive.BuiltSectionsCheck | internal/tuner/psi_keepalive.go:73-78 | every built PAT and PMT section, with the CRC behind it, has CRC 0 |
| PsiKeepalive.Keepalive | internal/tuner/psi_keepalive.go:189-229 | the tick loop writes the packets of its ticks in order, and stops at the first write that fails, after the PAT or the PMT of a tick |
| KeepaliveInspected.PatReadBack | internal/tuner/psi_keepalive.go:53-83 | the inspector reads the built PAT as payload-only, unit start, PID 0, program at PID 0x1000 |
| KeepaliveInspected.PmtReadBack | internal/tuner/psi_keepalive.go:100-144 | the inspector reads the built PMT: PCR PID 0x100, streams 0x1B on 0x100 and 0x0F on 0x101 |
| KeepaliveInspected.TicksInspected | internal/tuner/psi_keepalive.go:202-205 | n ticks, for every n: n PATs, n PMTs, both streams named, no continuity error, duplicate or discontinuity through any wrap of the counter |
| KeepaliveInspected.InspectKeepalive | internal/tuner/ts_inspector.go:190-231 | the whole keepalive in any chunking, within the packet limit, leaves a fresh inspector with those counts, PIDs and stream types |
| TsPacket.ScanConcat | internal/tuner/ts_inspector.go:204-230 | the greedy scan may stop anywhere and go on with its leftover |
| TsPacket.ScanAligned | internal/tuner/ts_inspector.go:222-225 | packets laid end to end scan to themselves |
| TsInspector.Inspector.constructor | internal/tuner/ts_inspector.go:150-174 | a fresh inspector stands for the empty stream |
| TsInspector.Inspector.Observe | internal/tuner/ts_inspector.go:190-231 | after any call the state is `Summary` of all bytes observed so far: greedy scan, cut at maxPackets; a closed inspector changes nothing |
| TsInspector.Inspector.ObservePacket | internal/tuner/ts_inspector.go:258-345 | one packet takes the state one `Step` on |
| TsInspector.Inspector.ParsePat | internal/tuner/ts_inspector.go:347-374 | the first non-zero program of a valid section, or nothing |
| TsInspector.Inspector.ParsePmt | internal/tuner/ts_inspector.go:376-410 | PCR PID and stream types of a valid section, or nothing |
| TsInspector.Inspector.Close | internal/tuner/ts_inspector.go:233-246 | closing ends observation and keeps the summary |
| TsHistory.ObserveAll | internal/tuner/ts_inspector.go:190-231 | however a stream is split into Observe calls the final state is the same; totalBytes is its length |
| TsHistory.JudgeByHistory | internal/tuner/ts_inspector.go:299-317 | a duplicate or error is judged exactly by comparing a packet with the last payload packet of its PID |
| TsHistory.StatsAreHistory | internal/tuner/ts_inspector.go:258-317 | every PID's packet, payload, unit-start, discontinuity, duplicate and error counts and PCR clock are those counted over its packet history |
| TsHistory.TotalsMatch | internal/tuner/ts_inspector.go:285-313 | packets, globalCCErrs, globalCCDup and globalDisc equal the sums over all PIDs |
| TsHistory.ClockBounds | internal/tuner/ts_inspector.go:545-565 | count, first and last are the samples'; every forward step lies between minDelta and maxDelta |
| TsHistory.ClockMinimum | internal/tuner/ts_inspector.go:552-558 | minDelta is a real step if the second sample is not backwards; otherwise it stays 0 |
| TsHistory.ClockMinimumIff | internal/tuner/ts_inspector.go:545-565 | minDelta is the smallest forward step exactly when the second sample is not backwards or a sample repeats the one before it |
| TsHistory.ClockMinimumMisses | internal/tuner/ts_inspector.go:552-558 | for the samples 5, 0, 3 it is 0 although the one forward step is 3 |
| TsTables.ProgramIsHistory | internal/tuner/ts_inspector.go:319-334 | PMT PID, PCR PID and the numbers of tables read are those of the latest tables, each program map recognised by the PAT before it |
| TsTables.MarksAreHistory | internal/tuner/ts_inspector.go:335-344 | every PID's stream type is the one its latest program map gives it, and its PTS and DTS clocks are those of the time stamps in its packets; what a packet's time stamps and tables are is TsWire's |
| TsHistory.TimestampRoundTrip | internal/tuner/ts_inspector.go:521-535 | every 33-bit time stamp in the five bytes of 2.4.3.7 is read back |
| TsHistory.PcrRoundTrip | internal/tuner/ts_inspector.go:474-485 | every PCR in the six bytes of 2.4.3.5 is read back |
| TsWire.PacketBack | internal/tuner/ts_inspector.go:258-297 | a packet written as in 2.4.3.2 to 2.4.3.5, with any flags, PID, counter, adaptation field and payload, is read back field by field |
| TsWire.PcrCarried | internal/tuner/ts_inspector.go:286-294 | a PCR on the wire is one more sample of its PID |
| TsWire.PesBack | internal/tuner/ts_inspector.go:487-519 | a PES header written as in 2.4.3.6 and 2.4.3.7, with any stream id, length, further fields and data, gives its PTS exactly when the flags are 2 or 3 and its DTS exactly when they are 3 |
| TsWire.NoPes | internal/tuner/ts_inspector.go:488-498 | no start code, or a header that goes on in the next packet: no time stamps |
| TsWire.PesCarried | internal/tuner/ts_inspector.go:335-344 | the packet in which a PES packet starts adds exactly its time stamps to the PTS and DTS clocks of its PID, and to no other PID's |
| TsWire.HeaderlessReadIff | internal/tuner/ts_inspector.go:487-519 | of a packet without a header, as its stream id says, a PTS is read exactly when its data happen to look like a header with one |
| TsWire.PrivateDataRead | internal/tuner/ts_inspector.go:491-501 | a packet of private data in which one is read |
| TsWire.PatBack | internal/tuner/ts_inspector.go:347-374 | of any list of programs the first with a number is read, whatever the pointer field skips and whatever follows |
| TsWire.PmtBack | internal/tuner/ts_inspector.go:376-410 | of any program map the PCR PID and each stream with its type are read, over all descriptors |
| TsWire.PatCarried | internal/tuner/ts_inspector.go:319-326 | a PAT on the wire moves the program PID and counts; one without programs does neither |
| TsWire.PmtCarried | internal/tuner/ts_inspector.go:327-334 | a program map on the wire sets the PCR PID and the types of the streams it lists |
| SpliceWriter.MakeShim | internal/tuner/gateway_stream_helpers.go:40-52 | the 188 bytes of the discontinuity packet |
| SpliceWriter.Writer.Write | internal/tuner/gateway_stream_helpers.go:93-105 | whole packets leave the buffer as they come; what is out is `Output` of the packets done; a failed write leaves a resumable state |
| SpliceWriter.Writer.WritePacket | internal/tuner/gateway_stream_helpers.go:54-91 | one packet, with the shim its PID may want; exactly when the destination fails it fails, keeping the packet |
| SpliceWriter.Writer.FlushRemainder | internal/tuner/gateway_stream_helpers.go:107-121 | the buffer goes out as it stands, also one left by a failed write; erasing shims then gives all input, and after an unfailed write the output is `Splice` of it |
| SpliceWriter.SpliceAll | internal/tuner/gateway_stream_helpers.go:93-121 | for any chunking the output depends only on the concatenated input; after a failure it is a prefix of it |
| SpliceWriter.EraseGivesInput | internal/tuner/gateway_stream_helpers.go:54-121 | erasing the injected packets gives the input back |
| SpliceWriter.ModeMeaning | internal/tuner/gateway_stream_helpers.go:62-84 | the writer is active exactly while every packet began with a sync byte and fewer than 16 PIDs came |
| SpliceWriter.ShimPlacement | internal/tuner/gateway_stream_helpers.go:67-79 | a shim stands directly before a packet exactly when it is the first of its (non-null) PID, sync holds and fewer than 16 PIDs came before |
| SpliceWriter.ShimsAreSeen | internal/tuner/gateway_stream_helpers.go:67-79 | at most one shim a PID, at most 16, none for null packets; the shimmed PIDs are the seen PIDs |
| SpliceWriter.WrittenIsPrefix | internal/tuner/gateway_stream_helpers.go:93-105 | at every moment what is out is a prefix of what the input, and any continuation of it, calls for |
| SpliceInspected.SplicedInspection | internal/tuner/ts_inspector.go:276-321 | for any input, aligned or not: an inspector of the output ends as one of the raw input, plus one packet and one discontinuity for each shimmed PID |
| SpliceInspected.SplicedSummary | internal/tuner/ts_inspector.go:276-321 | same errors, duplicates, tables and PIDs; discontinuities and packets grow by the number of shims, at most 16 |
| StartDetector.ContainsIdr | internal/tuner/gateway_stream_helpers.go:137-155 | found exactly when 00 00 01 and a byte with low five bits 5 occur |
| StartDetector.LongStartCodeAddsNothing | internal/tuner/gateway_stream_helpers.go:148-152 | whatever the four-byte start code finds, the three-byte one finds |
| StartDetector.IdrAcrossSeam | internal/tuner/gateway_stream_helpers.go:205-216 | four bytes of carry are enough: an IDR in a + p is in a, in p, or in the last four bytes of a and p |
| StartDetector.UpdateCarry | internal/tuner/gateway_stream_helpers.go:225-243 | the carry is the last four bytes of carry and payload, also for payloads under four bytes |
| StartDetector.CheckAligned | internal/tuner/gateway_stream_helpers.go:172-183 | aligned exactly when sync bytes stand at off, off + 188 and off + 376 |
| StartDetector.PayloadOf | internal/tuner/gateway_stream_helpers.go:184-204 | the payload slice, empty where the source skips the packet |
| StartDetector.LookAt | internal/tuner/gateway_stream_helpers.go:205-243 | after each payload HasIDR holds exactly when the concatenation of all payloads so far has an IDR |
| StartDetector.LooksLikeGoodTsStart | internal/tuner/gateway_stream_helpers.go:157-250 | the result describes exactly the packets scanned, and the scan stops at the first packet that makes it content |
| AdaptiveWriter.Writer.Write | internal/tuner/gateway_stream_helpers.go:285-296 | for any sizes and latencies: the bytes written are accounted for, and success leaves less than targetSize buffered; a write that reaches targetSize and meets no trouble is delivered whole in one timed flush |
| AdaptiveWriter.Writer.FlushToClient | internal/tuner/gateway_stream_helpers.go:298-339 | a flush empties the buffer, unless the last reply met took nothing or failed; exactly a flush of something that does not fail is timed, and moves the policy |
| AdaptiveWriter.Writer.Flush | internal/tuner/gateway_stream_helpers.go:341 | the same on demand; a first reply that fails leaves the buffer as it was |
| AdaptiveWriter.Writer.Adapt | internal/tuner/gateway_stream_helpers.go:315-337 | one timed flush moves targetSize and fastCount as `Adjust` says |
| AdaptiveWriter.RunOfFlushes | internal/tuner/gateway_stream_helpers.go:315-337 | targetSize is always a power of two from 64 KiB to 2 MiB; n slow flushes climb n doublings, n fast ones fall one per three, up to the ends |
| AdaptiveWriter.EachFlush | internal/tuner/gateway_stream_helpers.go:315-337 | after any mix of flushes: a slow one doubles targetSize, every third fast one in a row halves it, any other leaves it |
| AdaptiveWriter.Conservation | internal/tuner/gateway_stream_helpers.go:298-314 | bytes delivered followed by bytes buffered equal bytes written, exactly when no failing write call had taken bytes |
| AdaptiveWriter.TakenTwice | internal/tuner/gateway_stream_helpers.go:303-314 | a client that takes a byte and reports a failure receives it twice |
| SingleFlight.InvStep | internal/materializer/cache.go:26-115 | every step of every thread, whatever file system, probe, network and scheduler do, keeps the invariant, in both variants |
| SingleFlight.OneOwner | internal/materializer/cache.go:47-80 | at most one thread per asset is between registration and the close of its channel |
| SingleFlight.OwnerStep | internal/materializer/cache.go:71-80 | an owner made its channel, which is open; while registered it is the one in inFlight; no channel is closed twice |
| SingleFlight.FlightStep | internal/materializer/cache.go:52-80 | every entry of inFlight has its registered owner |
| SingleFlight.WaitStep | internal/materializer/cache.go:53-70 | a channel waited for is closed, or its maker is on the way to closing it |
| SingleFlight.PathStep | internal/materializer/cache.go:99-114 | partial paths hold unpublished files of their asset, final paths finished and published ones |
| SingleFlight.WriterStep | internal/materializer/download.go:48-80 | whoever has the file open has the one at its own partial path, and what it has stored is the whole file, so that it asks from, and writes at, the end; one about to rename has finished it |
| SingleFlight.PrefixStep | internal/materializer/download.go:48-80 | files of plain upstream assets hold a prefix of the resource: from the one writer at its end, the truncation by os.Create and a server that answers from the offset asked for |
| DownloadRun.FileHoldsPieces | internal/materializer/download.go:49-76 | at every moment of a download, whatever other threads do, the offset asked from is what this download has stored, and the file holds exactly that |
| DownloadRun.NextPieceEnabled | internal/materializer/download.go:55-76 | with an honest server, the next piece the range loop fetches in `Download` is asked for at that offset and can be stored in the protocol |
| SingleFlight.PromiseStep | internal/materializer/cache.go:62-70 | whoever is given the path finds a file there; who is given it is stated in Outcomes |
| SingleFlightRuns.RunInv | internal/materializer/cache.go:26-115 | the invariant holds at every moment of every run from any leftover files |
| SingleFlightRuns.SafetyOverRuns | internal/materializer/cache.go:47-80 | at every moment: no double close; inFlight holds an asset exactly while a thread is registered for it; one owner an asset; waiters on open channels have live owners |
| SingleFlightRuns.ClosedOnce | internal/materializer/cache.go:78 | over a whole run each done channel is closed at most once |
| SingleFlightRuns.FinalChanges | internal/materializer/cache.go:108-114 | a final path changes only by its owner's rename of a finished partial |
| SingleFlightRuns.PublishedForever | internal/materializer/cache.go:108-114 | a published file is never written again, and its path never goes away |
| SingleFlightRuns.PathIsGood | internal/materializer/directfile.go:71-79 | whoever was given the path finds there, then and ever after, a finished download of its asset |
| SecondDownload.RegistersIff | internal/materializer/cache.go:35-72 | in every run: a thread registers, at its turn under the lock, exactly when nothing is in flight for its asset; it gets there only if its own stat found no non-empty final file |
| SecondDownload.FoundIsDone | internal/materializer/cache.go:35-37 | a thread whose stat finds a non-empty final file is given the path at once and stays there |
| SecondDownload.LateComer | internal/materializer/cache.go:47-72 | a thread waiting for the free lock registers in two steps if nothing is in flight, whatever has been published |
| SecondDownload.StatBeforeLock | internal/materializer/cache.go:35-47 | for any asset and data, a run in which a thread registers for an asset that another has published, non-empty, since its stat |
| SecondDownload.EmptyFileAgain | internal/materializer/cache.go:35 | a run in which a thread looks after an empty file was published, and registers all the same |
| SingleFlightRuns.NoDeadlock | internal/materializer/cache.go:54-61 | while a thread has not returned some thread can move, without any cancelled wait |
| SingleFlightRuns.EveryThreadReturns | internal/materializer/directfile.go:42-69 | in every run every thread takes at most 19 steps besides the pieces of its download |
| Outcomes.ReturnIsDecided | internal/materializer/cache.go:26-115 | over every run: what a thread returns has been decided by one of its own moves: no URL, the file there, a failed or unfit probe, the end of its context, the second look, a failed or successful download or rename |
| Outcomes.DecidedIsReturned | internal/materializer/cache.go:26-115 | and what such a move decides is what the thread returns, whatever happens between |
| Outcomes.ErrorIsLastNoted | internal/materializer/cache.go:80-105 | the noted error of an asset is the one noted last |
| Outcomes.NotedFailed | internal/materializer/cache.go:86-105 | an error is noted only by the cache, after the download of the thread itself failed with it |
| Outcomes.WaiterIsGiven | internal/materializer/cache.go:55-70 | a thread that waited uncancelled and returns at move j returns the path exactly when the asset has a non-empty final file at moment j; else the noted error as read after waking, if there is one; else, and always for the direct variant, not ready |
| Outcomes.PublishedIsFinal | internal/materializer/cache.go:95-115 | a non-empty download is at the final path when its rename is done, and its channel is still open |
| Outcomes.FinalStays | internal/materializer/cache.go:35-37 | a non-empty final file is there for good unless an empty one is put in its place |
| Outcomes.WaiterIsServed | internal/materializer/cache.go:55-64 | if the maker of its channel has published a non-empty file, an uncancelled waiter is given the path, unless an empty file is put in its place before it looks |
| Outcomes.EmptyFileOver | internal/materializer/cache.go:35-64 | the exception happens: a run in which such a waiter is not given the path |
| Download.DownloadRange | internal/materializer/download.go:48-82 | the loop stores exactly the pieces, sends exactly the requests and ends with exactly the error of `FetchFrom` |
| Download.DownloadFull | internal/materializer/download.go:88-105 | the status is looked at before the file is created; otherwise the file holds what was copied |
| Download.DownloadToFile | internal/materializer/download.go:20-46 | success exactly when every step went well; the file holds the ranges or the whole reply; an error before any request leaves it alone |
| Download.RangesContiguous | internal/materializer/download.go:56-62 | each range begins where the stored bytes end, has at most 1 MiB and stays within the size; only the last reply may be empty |
| Download.AlwaysAPrefix | internal/materializer/download.go:71-80 | with a server that answers from the requested offset on, the file is a prefix of the resource after every piece, whatever fails |
| Download.PieceKeepsPrefix | internal/materializer/download.go:71-76 | so the next piece keeps the prefix: what the single-flight writer assumes |
| Download.CompleteIff | internal/materializer/download.go:76-81 | a range download without error is complete exactly when its last reply was not empty |
| Download.EmptyReplyEnds | internal/materializer/download.go:76-81 | a server whose first reply is empty: no error and an empty file |
| Download.WholeResource | internal/materializer/download.go:55-81 | with the right size the file is the resource exactly when no reply was empty |
| Download.GoodServerDelivers | internal/materializer/download.go:55-80 | a server that answers every range with some of its bytes delivers the whole resource without error |
| Download.ErrorIsLast | internal/materializer/download.go:61-76 | only the last reply can have gone wrong, by not coming, its status or its copy, and its fault is the error of the download |
| Download.PrefixIff | internal/materializer/download.go:55-80 | with any server: the file is a prefix of the resource exactly when every reply that brought bytes brought those at the start of its range |
| Download.WholeFileMidway | internal/materializer/download.go:65-76 | a server that ignores the range of a later request leaves a file that is no prefix, without error |
| ProgressiveRead.ReadsAgreeWithResource | internal/vodfs/file.go:93-154 | over every interleaving of downloads and reads, what a read serves is the matching slice of the resource, even if the partial was truncated or renamed between stat, open and read |
| ProgressiveRead.MaterializedIsThere | internal/vodfs/file.go:85-101 | after Materialize the stat and the open find the file; an empty answer means the offset is at or past its end |
| ProgressiveRead.FindsFinal | internal/vodfs/file.go:137-147 | a read alone finds the final file first, and is served all that was asked for and is there |
| ProgressiveRead.FindsPartial | internal/vodfs/file.go:137-147 | if the final file has nothing at the offset, the partial one |
| ProgressiveRead.FindsNothingYet | internal/vodfs/file.go:130-152 | if neither has, it sleeps and looks again until its deadline or its context sends it to Materialize, whose path it reads and whose failure is an empty answer |
| ProgressiveRead.ReadsWhatItOpened | internal/vodfs/file.go:93-113 | whatever threads and other reads do in between: a read whose stat, open and ReadAt come at moments i, o and j is served exactly the bytes ReadAt finds at moment j in the file opened at o; it gives up exactly when some were wanted and none found |
| ProgressiveRead.FinalIsServed | internal/vodfs/file.go:93-113 | of a final file with more than off bytes exactly bytes[off..Min(off + want, size)] are served, at any interleaving; if another download replaced the file before the open, its bytes up to the size seen |
| ProgressiveRead.NextKeeps | internal/vodfs/file.go:116-154 | every step of a read or of a download keeps what the open files and served bytes are known to be |
| HlsRelay.HlsMediaLines | internal/tuner/gateway_hls.go:153-164 | the trimmed lines that are neither blank nor comments, up to the first line of 64 KiB |
| HlsRelay.MediaMeans | internal/tuner/gateway_hls.go:153-164 | a URL is a media line exactly when it is a trimmed line that is neither blank nor a comment |
| HlsRelay.Relay.Follow | internal/tuner/gateway_relay.go:569-584 | a nested playlist replaces the current one, or its failure is passed over or ends the loop |
| HlsRelay.Relay.Attempt | internal/tuner/gateway_relay.go:588-653 | a segment counts as seen whatever becomes of it; what each reply does to the loop and its counters |
| HlsRelay.Relay.Walk | internal/tuner/gateway_relay.go:567-657 | the walk ends at the first line that is blocked, refused by the client, failed without a client to keep, or leads to another playlist; the fresh URLs up to there are attempted in order; headerSent, lastProgress and progress are those of the lines reached |
| HlsRelay.Relay.Iterate | internal/tuner/gateway_relay.go:537-690 | the loop goes on if and only if the context is alive, no line ended the walk, the response had begun where there was nothing to play or the refresh failed, the 12 s were not over where they are looked at, and a failed refresh was not the end of the context; each of the four errors exactly when its reason holds; then text, url, seen, headerSent and lastProgress are those of `NextStanding` |
| HlsRelay.Relay.Run | internal/tuner/gateway_relay.go:537-690 | rounds that all go on, and only they, leave the loop running, with one pass each; every pass works on the text the one before it left |
| HlsExactlyOnce.SeenIsPlaylist | internal/tuner/gateway_relay.go:546-557 | after a full pass `seen` is the segment set of the playlist |
| HlsExactlyOnce.AttemptIff | internal/tuner/gateway_relay.go:585-588 | between full passes a segment is attempted exactly when it is newly listed; one that left and came back is fetched again |
| HlsExactlyOnce.NotAgainWhileListed | internal/tuner/gateway_relay.go:553-588 | a segment is not attempted again while every playlist lists it, full passes or not, failed fetch or not |
| HlsExactlyOnce.NothingSkipped | internal/tuner/gateway_relay.go:568-588 | after a full pass every listed segment has been attempted |
| HlsExactlyOnce.FailedRefreshAddsNone | internal/tuner/gateway_relay.go:670-687 | after a failed refresh the next pass attempts nothing |
| HlsExactlyOnce.AttemptsAreStretch | internal/tuner/gateway_relay.go:546-588 | on forward-moving overlapping windows the attempts of n passes are one stretch of the master list, in order, each once |
| HlsExactlyOnce.ExactlyOnce | internal/tuner/gateway_relay.go:537-690 | the same over whole runs of the loop, up to the last window's end unless the last pass was cut short |
| HlsExactlyOnce.RunLive | internal/tuner/gateway_relay.go:537-690 | run from its start on such windows, the loop itself has attempted one stretch of the master list, in order, each once |
| SessionLease.LeaseMeans | internal/tuner/plex_session_reaper.go:261-281 | the record says when the session appeared and last moved, its furthest offset and latest stamp; activity and renewal never part |
| SessionLease.LeaseInOrder | internal/tuner/plex_session_reaper.go:261-281 | lastActivity == lastRenewLease and firstSeen <= lastActivity <= now |
| SessionLease.StopMeans | internal/tuner/plex_session_reaper.go:287-291 | lastStopAttempt is the time of the last attempt |
| SessionLease.DueIff | internal/tuner/plex_session_reaper.go:283-291 | an attempt is made exactly when the session is ready and none was made in the last 10 seconds |
| SessionLease.AttemptsApart | internal/tuner/plex_session_reaper.go:288 | attempts on a session are at least 10 s apart |
| SessionLease.ReadyIff | internal/tuner/plex_session_reaper.go:279-287 | ready exactly when still for the smaller positive threshold, or tracked for the hard lease |
| SessionLease.NeverEarly | internal/tuner/plex_session_reaper.go:279-291 | no attempt before that |
| SessionLease.AttemptInTime | internal/tuner/plex_session_reaper.go:287-291 | with a threshold of 10 s or more, a session still since x, watched for the threshold, has had an attempt after x |
| SessionLease.AttemptInTimeIff | internal/tuner/plex_session_reaper.go:287-291 | for any threshold and hard lease: whenever a still session is overdue it has had an attempt since x exactly when none was made in the 10 s before and up to x |
| SessionLease.ThrottleDelays | internal/tuner/plex_session_reaper.go:288 | a trail with a threshold of one second that, still for twice that, has had no attempt since its move |
| SessionReaper.Reaper.TakeRow | internal/tuner/plex_session_reaper.go:249-313 | the new record of the row's session and the attempt it brings |
| SessionReaper.Reaper.ScanAndReap | internal/tuner/plex_session_reaper.go:232-322 | every record is the one of its session's trail of observations; tracked keys are those listed; a failed listing changes nothing |
| SessionReaper.RecordsInOrder | internal/tuner/plex_session_reaper.go:251-281 | the order of the times in every record at every moment of a run |
| SessionReaper.AttemptMeans | internal/tuner/plex_session_reaper.go:287-291 | an attempt of a scan is a due observation the scan added to the session's trail |
| SessionReaper.AttemptsApartOverRuns | internal/tuner/plex_session_reaper.go:288-291 | over a run, attempts on a continuously listed session are at least 10 s apart |
| SessionReaper.OncePerScan | internal/tuner/plex_session_reaper.go:287-291 | one scan attempts a session at most once, however often Plex lists it |
| SessionReaper.DueIsAttempted | internal/tuner/plex_session_reaper.go:287-291 | conversely, a due observation that a scan adds is an attempt of that scan |
| SessionReaper.AttemptedIffDue | internal/tuner/plex_session_reaper.go:232-322 | the attempts on a session since it appeared are exactly the due observations of its trail |
| SessionReaper.FirstScanAt | internal/tuner/plex_session_reaper.go:151-166 | scans with gaps of at most P meet any time at most P late |
| SessionReaper.StillIsAttempted | internal/tuner/plex_session_reaper.go:232-322 | over whole runs: while scans succeed, list the session and come with gaps of at most P, a session still since x gets an attempt after x, within threshold plus P, for a threshold of 10 s or more |
| SessionReaper.StillIsAttemptedIff | internal/tuner/plex_session_reaper.go:232-322 | over whole runs, for any threshold and hard lease: by any scan at which it is overdue, a session still since x has been attempted since x exactly when no attempt fell in the 10 s before that scan and up to x |
| SessionReaper.InTimeIff | internal/tuner/plex_session_reaper.go:232-322 | with gaps of at most P: it is attempted after x and within threshold plus P exactly when no attempt fell in the 10 s before the last scan within that deadline and up to x |
| SessionReaper.ThrottleMissesDeadline | internal/tuner/plex_session_reaper.go:288 | a run with scans every second and a threshold of one second in which a still session is not attempted within threshold plus one gap |
| GhostHunter.Hunter.TakeListing | internal/tuner/ghost_hunter.go:133-180 | records and last rows are those of the same trails as the reaper's |
| GhostHunter.Hunter.Watch | internal/tuner/ghost_hunter.go:122-190 | the first round that does not go on decides: a failed listing, the window over, or the context ended |
| GhostHunter.OneEnd | internal/tuner/ghost_hunter.go:122-190 | so a run of rounds has one outcome |
| GhostHunter.Hunter.Observe | internal/tuner/ghost_hunter.go:122-248 | the report has exactly one line for each session still listed, the one its trail gives |
| GhostHunter.SameRecord | internal/tuner/ghost_hunter.go:143-173 | the second copy of the record equals the reaper's but for the stop times |
| GhostHunter.StaleIffReady | internal/tuner/ghost_hunter.go:197-213 | stale exactly when a reaper with the same scans finds idle, renew or hard ready at the last one; it attempts the stop unless throttled |
| EthernetCrc.ChecksumMirrors | internal/hdhomerun/packet.go:90-92 | both ways: the Ethernet CRC of a message is the inverted mirror image of the MPEG-2 CRC of the mirrored message |
| EthernetCrc.ChecksumDetectsBurst | internal/hdhomerun/packet.go:125-129 | damage within 4 consecutive bytes changes the checksum |
| EthernetCrc.CheckValue | internal/hdhomerun/packet.go:90-92 | the digits 1 to 9 have the published check value of the IEEE 802.3 CRC |
| HdhrPacket.AcceptsIff | internal/hdhomerun/packet.go:74-136 | Unmarshal accepts p from data exactly when p has at most 65531 payload bytes and data begin with Marshal(p) |
| HdhrPacket.RoundTripIff | internal/hdhomerun/packet.go:74-136 | Unmarshal(Marshal(p) and anything) gives p back exactly up to 65531 bytes of payload |
| HdhrPacket.PanicIff | internal/hdhomerun/packet.go:106-125 | the 16-bit sum breaks the slice bounds exactly for data long enough for a length field over 65531 |
| HdhrPacket.DamageNoticed | internal/hdhomerun/packet.go:121-129 | damage within 4 consecutive bytes of an accepted packet's type or payload is a CRC mismatch |
| HdhrTlv.MarshalTlvs | internal/hdhomerun/packet.go:190-222 | the items printed one after the other |
| HdhrTlv.UnmarshalTlvs | internal/hdhomerun/packet.go:146-187 | terminates on every input, in bounds, with `Parse` |
| HdhrTlv.Join7IsOr | internal/hdhomerun/packet.go:159-169 | the two-byte length, its overlapping bit included, in 16-bit arithmetic |
| HdhrTlv.TlvRoundTripIff | internal/hdhomerun/packet.go:146-222 | items come back exactly when each value is as long as it says and at most 16383 bytes |
| HdhrTlv.ParsePrintParse | internal/hdhomerun/packet.go:146-222 | parse, print, parse equals parse on every input that parses, overlong lengths included |
| HdhrTlv.FindTlv | internal/hdhomerun/packet.go:225-232 | the first item with the tag, or none |
| HdhrTlv.SetReqArrives | internal/hdhomerun/packet.go:287-292 | a SET request sent and received gives its name and value |
| HdhrTlv.GetSetRpyArrives | internal/hdhomerun/packet.go:295-323 | a reply gives its error message, or its name and its value if any |
| HdhrTlv.DiscoverRpyArrives | internal/hdhomerun/packet.go:247-276 | a discovery reply gives its device type and id, clamped tuner count and URLs |
| HdhrTlv.GetReqLosesName | internal/hdhomerun/packet.go:325-333 | a GET request never carries its name: what the parser makes of it for every name |
| M3uParser.ParseExtinf | internal/indexer/m3u.go:118-158 | terminates on every line, with `Extinf` |
| M3uParser.TakeAttr | internal/indexer/m3u.go:127-155 | one attribute off the front of a line; what is left is shorter |
| M3uParser.EmitOne | internal/indexer/m3u.go:61-93 | the channel of a complete entry, with the fallbacks for its name, number and id |
| M3uParser.ParseM3uBody | internal/indexer/m3u.go:53-114 | the line loop computes `Parse` |
| M3uParser.ParseIsChannels | internal/indexer/m3u.go:53-114 | whatever the text: one channel for each EXTINF line with a stream line before the next one, in order, with all those stream lines; missing names and numbers come from its place among the channels |
| M3uParser.ChannelsUsable | internal/indexer/m3u.go:61-93 | every channel read has an id, a number, a name and a stream; its id is its guide id if it has one, else its number |
| M3uServe.Serve | internal/tuner/m3u.go:19-71 | the text served is `Playlist` |
| M3uServe.ExtinfBack | internal/indexer/m3u.go:118-158 | a printed EXTINF line parses to its id, escaped name and display name |
| M3uServe.EntryFeeds | internal/indexer/m3u.go:94-111 | reading one printed entry adds exactly its channel |
| M3uServe.PlaylistBack | internal/tuner/m3u.go:48-70 | parsing the served playlist gives the same channels, in order, with printed ids, names and URLs, whenever the printed lines are readable |
| M3uServe.ChannelReadable | internal/tuner/m3u.go:48-70 | which channels, base URLs and escapings are printed readably |
| M3uServe.ChannelsBack | internal/tuner/m3u.go:19-71 | so the served playlist of such channels gives every one of them back |
| M3uServe.CatalogBack | internal/tuner/m3u.go:25-72 | in terms of the catalog: channel i comes back as the i-th, its id in the stream URL, with its guide id or else its number, and its name with commas as blanks |
| StreamRoute.EntryIsChannel | internal/tuner/m3u.go:33-39 | what goes into the playlist: each channel in its place or, pruned, each with a guide id |
| StreamRoute.Route | internal/tuner/gateway.go:74-112 | the channel a request path names: by id, else by place, else by guide number |
| StreamRoute.LeadsBackIff | internal/tuner/gateway.go:84-107 | for every channel of every list: the stream URL printed for it leads back to it exactly when it is the first with its id or, printed otherwise, no id and no place shadows it and it is the first with its number |
| StreamRoute.EveryUrlLeadsBack | internal/tuner/gateway.go:84-107 | in a list whose ids are distinct, not empty and without blanks around them every printed URL leads back to its channel |
| StreamRoute.AtoiOfItoa | internal/tuner/gateway.go:91-96 | a printed place is read as that place |
| StreamRoute.SameIdMisleads | internal/tuner/gateway.go:85-90 | of two channels with one id the second one's URL leads to the first |
| StreamRoute.NumberReadAsPlace | internal/tuner/gateway.go:91-96 | a channel printed by its guide number whose URL leads to another one's place |
| EpgLink.BuildIndex | internal/epglink/epglink.go:164-184 | the two indexes; the name index holds one id if one distinct id carries the name, else the ambiguous mark |
| EpgLink.NameIndexIff | internal/epglink/epglink.go:165-184 | a name maps to an id exactly when that is the one distinct id that carries it, in any order of the channels |
| EpgLink.MatchLiveChannels | internal/epglink/epglink.go:163-242 | one row a channel, each `Tiered`: the own id if an XMLTV channel has it, the last such; else the alias of the name, whoever carries the name; else the one id that carries the name; ambiguous exactly when more than one does; and the matched count |
| EpgLink.MatchIsTiered | internal/epglink/epglink.go:191-224 | the same of the match of any one channel |
| EpgLink.RepairMeans | internal/epglink/epglink.go:322-341 | a repair touches guide id and link flag alone, exactly when the row names an id other than the channel's |
| EpgLink.ApplyDeterministicRepairs | internal/epglink/epglink.go:310-343 | every channel repaired by its row in place, and the three counts |
| EpgLink.OwnRow | internal/epglink/epglink.go:315-321 | with unique channel ids each channel meets its own row |
| EpgLink.ChannelSettles | internal/epglink/epglink.go:319-341 | a channel's third round changes nothing |
| EpgLink.RepairConverges | internal/epglink/epglink.go:310-343 | match-then-repair reaches a fixed point within two rounds: the third applies and repairs nothing |
| EpgLink.TwoRoundsNeeded | internal/epglink/epglink.go:168-171 | one round is not always enough: two ids that differ in case |
| EpgLink.SecondRoundIff | internal/epglink/epglink.go:319-341 | the second round changes a channel exactly when the first gave it an id that the last XMLTV channel with that id spells otherwise |
| EpgLayers.UnresolvedLiveChannels | cmd/iptv-tunerr/cmd_catalog.go:437-446 | the channels not yet protected, in order |
| EpgLayers.FirstSourceDecides | cmd/iptv-tunerr/cmd_catalog.go:482-497 | the deciding row of a channel is that of the first source, in order, with a match for it |
| EpgLayers.ApplyRuntimeRepairs | cmd/iptv-tunerr/cmd_catalog.go:482-497 | the first source that matches a channel decides its repair |
| EpgLayers.BuildMatchReport | internal/tuner/guide_health.go:78-134 | one row a channel, under its own id; with unique channel ids the first matching source's, else the first source's |
| EpgLayers.RepairFollowsReport | internal/tuner/guide_health.go:92-134 | catalog repair and health report of the same channels agree on who is matched and with which id |
| EpgLayers.ReportAfterRepair | cmd/iptv-tunerr/cmd_catalog.go:482-497 | the report on the repaired catalog matches the same channels, with the same ids up to case and blanks |
| EpgLayers.ReportSameIdIff | cmd/iptv-tunerr/cmd_catalog.go:482-497 | it finds the very id the repair found exactly when the repair changed nothing, or the first source with that id, up to the deciding one, spells it so, or none has it |
| EpgLayers.ReportSpellsOtherwise | internal/tuner/guide_health.go:92-115 | two sources that spell an id differently: the repair finds one spelling, the report then the other |
| TunerSlots.Gateway.TryAcquire | internal/tuner/gateway.go:144-155 | granted exactly below the limit in force |
| TunerSlots.Gateway.LearnUpstreamConcurrencyLimit | internal/tuner/gateway_policy.go:22-38 | what is learned, and when nothing is |
| TunerSlots.Gateway.EffectiveTunerLimit | internal/tuner/gateway_policy.go:40-46 | the smaller of the configured and the learned limit |
| TunerSlots.Gateway.GiveBack | internal/tuner/gateway.go:163-166 | one slot less in use |
| TunerSlots.RunInv | internal/tuner/gateway.go:144-168 | at every moment of every interleaving inUse is the number of holders, at most the configured limit; a learned limit is within 1..configured |
| TunerSlots.LearnedIsSmallest | internal/tuner/gateway_policy.go:22-38 | what has been learned is the smallest limit within the configured one named so far, nothing before the first |
| TunerSlots.LimitShrinks | internal/tuner/gateway_policy.go:31-46 | a learned limit only decreases, and so does the limit in force |
| TunerSlots.GrantIff | internal/tuner/gateway.go:144-153 | a request is granted exactly when fewer requests hold slots than the limit in force |
| TunerSlots.Balance | internal/tuner/gateway.go:153-166 | slots in use change by grants minus releases |
| TunerSlots.NoGrantUntilReleased | internal/tuner/gateway.go:144-166 | after the limit shrank nothing is granted until enough releases |

## Left out

- TsInspector.Inspector.Observe: does not state `syncLosses`, which depends on how the input is cut into calls; the field is updated as in the source.
- TsInspector.Inspector.ObservePacket: the per-PID records are values in a map field, so two names for one record cannot alias; 16-bit PIDs are numbers, and counters and ticks are unbounded.
- SpliceWriter.Writer.Write: the destination takes a write whole or fails, as the response writer and the writers in front of it do.
- AdaptiveWriter.Writer.FlushToClient: a client that takes nothing and reports no error for ever would keep the source looping; the modelled client answers from a finite script and takes everything after it.
- SingleFlight.InvStep: asset ids are those on which path sanitising is injective, as inFlight is keyed by id and files by path; HLS content written by ffmpeg is arbitrary bytes.
- SingleFlight.PrefixStep: the server of a plain upstream asset answers with bytes that stand at the offset asked for (`SingleFlight.Answers`, which `Download.Honest` servers do by `DownloadRun.NextPieceEnabled`); a lying server is outside the claim.
- ProgressiveRead.ReadsAgreeWithResource: speaks of assets that are plain upstream files; HLS assets are not written as a prefix.
- Download.DownloadRange: io.Copy is one step that stores some bytes and ends well or not; the context only makes requests fail.
- HlsRelay.Relay.Iterate: sentBytes and sentSegments, which only the log and the choice of the splice writer read, are stated line by line in `Attempt`; the fetch of a segment with the writers it goes through is one reply.
- ProgressiveRead.FinalIsServed: a ReadAt that gets as far as it is asked to is assumed here; one that stops earlier is in `ReadsWhatItOpened`.
- HlsRelay.HlsMediaLines: a line's length is counted in characters, and text is a sequence of characters without an encoding.
- HlsExactlyOnce.ExactlyOnce: the URLs of the master list are distinct and none names a playlist.
- SessionReaper.Reaper.ScanAndReap: offsets are real numbers and times whole nanoseconds of a clock that the runs require to go forward.
- GhostHunter.Hunter.Observe: the report keeps each session's row, the three readiness flags and whether it was stopped; ages as text, notes and runbook hints are not part of it.
- M3uServe.PlaylistBack: url.QueryEscape and the http(s) test are arbitrary functions, about which only the printed lines' readability is assumed.
- StreamRoute.Route: the path is the one printed; percent-encoding on the way is not modelled, and numbers that do not fit an int are unbounded ones beyond any list.
- EpgLink.MatchLiveChannels: lower-casing and name normalisation are arbitrary functions; per-method counts and the final sort of the rows are not modelled.
- EpgLink.RepairConverges: channel ids are unique, as rows are keyed by them.
- EpgLayers.BuildMatchReport: which row a channel gets is stated for unique channel ids, on which the source's map of rows depends; with repeated ids only that the row bears the channel's id. The report cache is not modelled.
- TunerSlots.Gateway.LearnUpstreamConcurrencyLimit: the limit is given; reading it out of a response body is not modelled.
- HTTP, FUSE, SSDP, UDP and TCP servers, ffmpeg and ffprobe processes, SQLite, Plex and Emby calls: their answers are parameters or free choices.
- The ffmpeg startup gate: it drops bytes past its limit, so there is no conservation to state.
- internal/hdhomerun/control.go: it does not feed consumed bytes back to the parser, so there is no clean contract.
- Log text, wall-clock formatting, name heuristics, channel scores, configuration and command lines: only single-branch facts.
