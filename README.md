# mtracecap in Dafny

mtracecap captures packets from several libtrace sources at once. It merges
them into one stream ordered by ERF timestamp and writes that stream through
an output manager, `MTC_Output`. The output manager cuts the stream into
segments, by size and by time. Segment files have sequenced, timestamped
names, and their counter persists across runs.

This project models three parts of the program:

- the merge loop of `main`;
- the set-up that precedes the loop, and the shut-down that follows it;
- the output manager's segment state machine, with its leveled logger.

Modules, following the program's files:

| module | file | models |
|---|---|---|
| `Wrappers` | wrappers.dfy | `Option`, and `Result` (whose error stands for a `panic`) |
| `Posix` | posix.dfy | `struct timeval` and `struct tm` |
| `Libtrace` | libtrace.dfy | what libtrace hands the loop: packets (ERF stamp, timeval, capture length), `trace_event` answers, compression codecs; the library itself is an oracle |
| `Numerals` | numerals.dfy | printf's `%lu`, `%0Nd` and `%Nd` of non-negative numbers, and `strtoul(s, &end, 10)` |
| `MtcLog` | mtc_log.dfy | `MTC_Log`: the level clamp, `verbose()`, the emit filter and `panic` |
| `SeqNum` | seqnum.dfy | the sequence counter: parse (`init_seqnum`), save, wrap at `SEQNUM_MAX`, and segment file names |
| `Pcap` | pcap.dfy | the 24-byte empty pcap header `null_pcap` |
| `MtcOutput` | mtc_output.dfy | the classes `MTC_Input` and `MTC_Output` |
| `Merge` | merge.dfy | the merge loop as values: one source's poll, one pass over the sources, the earliest-packet scan, and the counts the loop keeps |
| `Mtracecap` | mtracecap.dfy | `main`: option arithmetic, the compression mapping, set-up, the loop (`Round`, `Run`) and shut-down |

How the model represents the program:

- **Output files.** The libtrace output is a ghost history `segments:
  seq<Segment>`. Each segment records its name, its counter value, its stamp,
  the packets written into it, and whether the empty-pcap placeholder was
  written when it closed. `Stream(segments)` is everything written, in order.
- **Output manager state.** `MTC_Output` is the class `Output`. `Snap()` is
  its state as a value, `OutState`. Each state-changing method is proved
  equal to a function on that value: `WriteSpec`, `RotateSpec`, `OpenSpec`,
  `CloseSpec`, `StartSpec` and `LoadSpec`. The invariant `Inv` is proved
  about those functions. `Inv` says:
  - the totals count the stream's packets and disorders;
  - the open segment's counters agree with its history entry;
  - the counter fits its 8-digit field.
- **Sources.** `MTC_Input` is the class `Input`. The set-up builds an
  `array<Input>`, which the output manager shares through `inputs`. `View`
  presents the sources to the loop as `Merge.Source` values.
  - A source's capture handle is its script of events.
  - An exhausted script answers SLEEP.
- **Environment.** Clocks, calendar conversion, the watchfile probe,
  libtrace's drop statistics and the success of each step that sets up a
  segment's file and libtrace output are parameters:
  - `World` holds what one output operation reads;
  - `Tick` holds what one loop round reads;
  - the sequence file is a string, with `None` meaning it cannot be opened.
- **Fatal paths.** A `panic` or `exit(1)` is a value: a `false` or
  `Refused` result, `Exited`, `Fatal`, an `Err`, or `MtcLog.Exit`. A
  segment that cannot be set up (its file does not open, or libtrace will
  not create, configure or start its output) makes the output methods
  return `false`; `OpenFails` says when. A round then ends in `Exited`, and
  so can the final rotation.

Where the model decides something the source leaves open:

- **`opt_verbose`.** `main` guards the final report with `opt_verbose`, the
  count of `-v` flags. The model guards it with the logger's `verbose()`,
  and `VerboseFlag` shows the two agree.
- **`opt_rotatesec`.** This is `time_t`, and the loop's time test uses it
  signed. `CaptureAsMain`, which `Execute` calls after set-up, passes the
  loop `RotateSeconds(o.rotateSec)`, strtoul's value reinterpreted as
  signed, and `MaxWait(o.maxWaitMs)`. `set_rotatesec` keeps the unsigned
  value in the configuration.
- **Segment counts.** Each source's URI, drop count at the segment's start
  and packets in the segment are `DetailsOf`, a value beside `View`.
  `Tally`, `Reset` and `RoundDetails`/`RunDetails` say how the loop and the
  verbose reports change them.

## Model

| member | source | states |
|---|---|---|
| Mtracecap.MaxWait | mtracecap.cc:377-379 | `-w` milliseconds become microseconds below 10^6, and the two fields together denote exactly ms milliseconds; the budget is used up at once exactly when ms is 0 |
| Mtracecap.SegmentBytesExact | mtracecap.cc:359-361 | below 2^44 MB the product 1048576 × MB is exact and non-zero for a non-zero size |
| Mtracecap.SegmentBytesWraps | mtracecap.cc:359-361 | the unsigned long product wraps to 0, which disables size rotation, exactly when the `-S` value is a multiple of 2^44 |
| Mtracecap.RotateSeconds | mtracecap.cc:184-186 | strtoul's value stored in `time_t`: non-zero iff the argument is, negative iff it is at least 2^63, and equal to it modulo 2^64 |
| Mtracecap.CompressionNames | mtracecap.cc:262-275 | gzip/zlib → ZLIB, bzip2 → BZ2, lzo → LZO, xz → LZMA, none → NONE, whatever the level; lz4 and the empty name are unknown types (panic) |
| Mtracecap.CompressionByPrefix | mtracecap.cc:262-272 | a recognised type name keeps its codec whatever characters follow it, since strncmp compares only the prefix |
| Mtracecap.TypeWithoutLevel | mtracecap.cc:351-354 | a type given without a level never reaches set_compression |
| Mtracecap.LevelWithoutType | mtracecap.cc:255-257 | a level without a type compresses with gzip at that level |
| Mtracecap.ConfiguredFromInitial | mtracecap.cc:348-372 | on the constructor's configuration the setters put every given option into its own member and leave the defaults of the others, with `useutc` always overwritten |
| Mtracecap.ApplySizeOptions | mtracecap.cc:351-361 | the new configuration is set_compression, set_watchfile, set_segmentsize applied in order, each only when its option was given |
| Mtracecap.ApplyNamingOptions | mtracecap.cc:362-372 | the new configuration is set_rotatesec, set_extension, set_useutc, set_pipeout applied in order |
| Mtracecap.Configure | mtracecap.cc:348-372 | succeeds iff no sequence file is given or it holds a counter; then the state is the loaded state with the configured options and the invariant still holds |
| Mtracecap.Arm | mtracecap.cc:348-373 | Configure followed by set_inputs: the same result, with the output manager sharing exactly the input array |
| Mtracecap.Started | mtracecap.cc:326-334 | the started sources are active, hold nothing, have taken nothing and are all counted active |
| Mtracecap.OpenInput | mtracecap.cc:308-335 | a successfully started source is fresh, active, without packet, with its URI and its drop count at start |
| Mtracecap.OpenNext | mtracecap.cc:308-335 | one more started source is appended: fresh, distinct from the others, active and empty, with its URI, its drop count at start and no segment packets |
| Mtracecap.OpenInputs | mtracecap.cc:300-335 | None iff some input fails to start; otherwise a fresh array of distinct sources, one per URI, just started |
| Mtracecap.FirstFailure | mtracecap.cc:308-315 | the first input that fails to start, all before it having started; None iff every input starts |
| Mtracecap.SetupRefusalCases | mtracecap.cc:244-350 | set-up reaches the loop iff the argument count, compression type, ':' in the output URI, every input and the sequence file are all acceptable; input 0 is the one reported exactly when it fails and the earlier checks pass |
| Mtracecap.NewOutput | mtracecap.cc:252-288 | None iff the output URI has no ':'; otherwise a fresh logger at the clamped level and an output manager in its initial state with the URI split at the first ':' (`Constructed`) |
| Mtracecap.Build | mtracecap.cc:252-335 | after usage and compression pass: refuses iff the output URI has no ':' or an input fails to start, naming the first; otherwise the constructed output manager and the started sources |
| Mtracecap.StartInputs | mtracecap.cc:300-335 | refuses exactly when some input fails to start, naming the first; otherwise the given output manager with one fresh, just-started source per URI |
| Mtracecap.Prepare | mtracecap.cc:244-335 | refuses exactly as the checks up to the input loop decide, and why; otherwise the logger, the output manager in its constructed state and the sources just started, each with its URI, its drop count at start and a segment count of 0 |
| Mtracecap.Setup | mtracecap.cc:244-373 | refuses exactly as main's checks decide, in main's order; otherwise the sources just started (URIs, drops at start, no segment packets) and shared with the output manager, whose state is the constructed state armed with the options and the loaded counter (`ArmedFor`) |
| Mtracecap.ArmedFor | mtracecap.cc:348-373 | the state set-up leaves watches exactly the watchfile given by `-W` |
| Mtracecap.ConfiguredWatch | mtracecap.cc:356-358 | from a configuration without a watchfile, the setters leave exactly the one the options give |
| Mtracecap.CaptureAsMain | mtracecap.cc:377-546 | capture run with the loop parameters main derives, `RotateSeconds(-r)` and `MaxWait(-w)`, on the state and sources set-up leaves: fatal iff the loop exits or the final rotation fails; otherwise the final state, the sources closed, the report iff `-v` was given, and the URIs and segment counts the loop and report leave |
| Mtracecap.Execute | mtracecap.cc:244-546 | main end to end: refuses exactly as set-up decides, doing nothing further; otherwise the set-up state armed as `ArmedFor` says, run through the loop and shut-down as `CaptureAsMain` states |
| Mtracecap.TraceEvent | mtracecap.cc:410 | trace_event answers the next scripted event and consumes it |
| Mtracecap.Take | mtracecap.cc:471-487 | an accepted packet is buffered, counted in total_packets_ and segment_packets_, and becomes prev_ts_; a decrease of prev_ts_ is only reported |
| Mtracecap.PollInput | mtracecap.cc:408-501 | polling an active, empty source is exactly `Merge.Poll`, also for the segment count; a disorder is reported iff the poll buffers a packet stamped before the previous one |
| Mtracecap.VisitInput | mtracecap.cc:396-501 | one iteration of the for-loop changes only source i, as `Merge.Visit` says of its view, or reports the fatal event; every URI and drop count is kept and a segment count grows by the packet its source took (`Tally`) |
| Mtracecap.VisitCounts | mtracecap.cc:401-405 | visiting source i updates the active count by its change and the running minimum by a strict `<` |
| Mtracecap.PollStep | mtracecap.cc:396-504 | one iteration keeps the scan state: the pass so far, the running minimum, the active count, and the segment counts as the tally of what the sources took |
| Mtracecap.PollAll | mtracecap.cc:392-504 | the for-loop computes `Merge.Pass`, then `Merge.Select` of the result and the number of active sources; each source keeps its URI and drop count and counts the packet it took into its segment count |
| Mtracecap.RotateIfDue | mtracecap.cc:389-391 | when the interval is due the rotation leaves nothing open and restamps last_rotated_; otherwise nothing changes; the stream and configuration are kept |
| Mtracecap.DeliverKeeps | mtracecap.cc:505-524 | a delivery that does not end the process keeps the invariant, the configuration, the active count and the sources settled; each source is unchanged or has its packet cleared, and a cleared packet is a written one |
| Mtracecap.RotateThenWrite | mtracecap.cc:517-522 | rotating on the packet's clock and then writing it appends exactly that packet to the stream |
| Mtracecap.ReleaseKeeps | mtracecap.cc:524 | clearing the selected packet_ keeps the sources settled and counts one more packet passed on |
| Mtracecap.DeliverWrites | mtracecap.cc:505-524 | nothing is written and nothing exits when no candidate stamp is below the start value; otherwise the packet with the least ERF stamp, from the lowest index among ties, is selected; the process ends iff the rotation on its clock or its write cannot set up a segment, and otherwise exactly that packet is written and only its source changes |
| Mtracecap.RoundKeeps | mtracecap.cc:386-525 | a round keeps the invariant and configuration, no source is reactivated, packets are conserved, and a source that held a packet is not polled |
| Mtracecap.RoundExits | mtracecap.cc:386-525 | an unknown event always ends the process; when every segment set-up of the round succeeds nothing else does; a due wall-clock rotation with nothing open ends it whenever libtrace cannot create the output |
| Mtracecap.RoundCounts | mtracecap.cc:386-524 | after a round that goes on no URI changes and each source's segment count grows by exactly the packets it took, with its drop count kept, or, with verbose logging, restarts at 0 with libtrace's drop count |
| Mtracecap.RotateOnTime | mtracecap.cc:389-391 | the method is fatal iff the due rotation cannot set up a segment, otherwise performs `RotateIfDue`; no source changes, neither its packet state nor its URI and segment counts |
| Mtracecap.WriteOut | mtracecap.cc:522 | write_packet is fatal iff `WriteFails`, otherwise changes the output manager as `WriteSpec` says and keeps its configuration; no source's packet state changes; every source's segment counts restart, drops from libtrace's count, exactly when the packet crosses the size limit and the logger is verbose, and otherwise stay |
| Mtracecap.WriteSelected | mtracecap.cc:514-524 | rotate if due on the packet's clock, write the packet, then clear only the selected source's packet; fatal iff the rotation or the write cannot set up a segment; the segment counts as `DeliverDetails`: restarted only when the write crosses the size limit with verbose logging |
| Mtracecap.Release | mtracecap.cc:524 | clearing packet_ of the selected source changes only that source's view, and only its packet; URIs and segment counts are kept |
| Mtracecap.DeliverPick | mtracecap.cc:505-524 | the method performs `Deliver`: fatal iff it exits, otherwise its state and sources, with the active count kept, and the segment counts as `DeliveryDetails` |
| Mtracecap.PollDeliver | mtracecap.cc:392-524 | the poll and the delivery of one round: fatal when the pass fails; otherwise fatal iff `Deliver` exits, and else its state and sources, with the segment counts tallied by the pass and then as `DeliveryDetails` |
| Mtracecap.Round | mtracecap.cc:387-524 | one loop body computes `RoundSpec`: fatal iff it exits (an unknown event, or a rotation or write that cannot set up a segment), otherwise the new state, the sources, active_inputs as the number of active sources, and the sources' URIs and segment counts as `RoundDetails` |
| Mtracecap.NextRound | mtracecap.cc:386-525 | one round of the while loop with a source active and no signal: fatal only when the loop exits; otherwise the rest of the loop from the new state computes what the whole loop computes |
| Mtracecap.Rounds | mtracecap.cc:386-525 | the while loop stops only when the rounds run out, no source is active or a signal has arrived; fatal only when the loop exits, and otherwise the loop from where it stopped computes what it computes from the start |
| Mtracecap.RunKeeps | mtracecap.cc:386-525 | the loop keeps every round's invariants; once no source is active, no source holds a packet |
| Mtracecap.RunCounts | mtracecap.cc:386-525 | after the loop no URI changes, each source's segment count is at most the packets it took since, and exactly that, with its drop count kept, when logging is not verbose |
| Mtracecap.Run | mtracecap.cc:386-525 | the while loop computes `RunSpec` and stops only when the rounds run out, no source is active or a signal has arrived; the sources' URIs and segment counts are `RunDetails`, and the logger's level is kept |
| Mtracecap.Stopped | mtracecap.cc:539-546 | the closed sources are all inactive and otherwise unchanged |
| Mtracecap.CloseInputs | mtracecap.cc:539-546 | each source is reported with its total packets and current drops, then marked inactive; URIs and segment counts are kept |
| Mtracecap.VerboseFlag | mtracecap.cc:531 | for a count of `-v` flags, `if (opt_verbose)` agrees with the logger's verbose() |
| Mtracecap.DumpStats | mtracecap.cc:531-534 | the report exists iff verbose; the totals are the stream's packet and disorder counts; when verbose every source's segment count restarts at 0 and its drop count is libtrace's, otherwise both stay; nothing else of the sources changes |
| Mtracecap.Finish | mtracecap.cc:526-546 | after the loop: the report of the loop's totals, restarting the segment counts when verbose; a final rotation, fatal iff it cannot set up a segment, that otherwise leaves nothing open and keeps the invariant; then every source closed, with its total and drops reported |
| Mtracecap.FinalRotation | mtracecap.cc:536-537 | fatal iff `RotateFails`; otherwise the output manager changes as `RotateSpec` says on the wall clock; no source changes, neither its packet state nor its URI and segment counts |
| Mtracecap.CaptureWritesAll | mtracecap.cc:386-546 | from set-up's empty history, when the loop ends with no source active, no source holds a packet and the written stream has every packet the sources took |
| Mtracecap.StoppedCounts | mtracecap.cc:539-546 | closing the sources changes neither what they took nor what they passed on |
| Mtracecap.Capture | mtracecap.cc:386-546 | main from the loop to its return: fatal iff a round exits or the final rotation cannot set up a segment; otherwise the final rotation of the loop's state, the loop's sources closed, and their URIs and segment counts those the loop leaves, restarted by the verbose report |
| Merge.Poll | mtracecap.cc:408-501 | polling buffers at most one packet, counts exactly the one it buffers and remembers its stamp; it consumes at least one event, unless the script is exhausted and the source stays as it was |
| Merge.PollConsumes | mtracecap.cc:410-471 | polling consumes the script from the front, and a buffered packet is the last event consumed, a PACKET with a usable layer-3 header |
| Merge.PassTo | mtracecap.cc:396-504 | the pass over the first n sources leaves the later sources untouched |
| Merge.MinToIsMinimum | mtracecap.cc:396-405 | the running minimum is a candidate's least ERF stamp, with the lowest index among ties, or none when every candidate carries the start value |
| Merge.SelectIsMinimum | mtracecap.cc:393-477 | the selected index holds the least ERF stamp of every active, buffered source, with ties going to the lowest index; there is none exactly when every such stamp is 0xffffffffffffffff |
| Merge.SentinelNeverSelected | mtracecap.cc:393-405 | a packet stamped 0xffffffffffffffff is never selected |
| Merge.PassKeeps | mtracecap.cc:396-407 | a pass leaves inactive and buffered sources as they were, reactivates none and keeps the sources settled |
| Merge.VisitBalance | mtracecap.cc:471-479 | polling keeps what a source has passed on: a packet it counts it also holds |
| Merge.PassCounts | mtracecap.cc:490-496 | a pass loses no packet and never raises the active count |
| Merge.PassTotals | mtracecap.cc:471-479 | a pass adds to a source's total exactly the packet it makes the source take |
| Merge.ReleaseCounts | mtracecap.cc:524 | releasing the selected packet counts it as passed on and keeps the active count |
| Merge.NoneActive | mtracecap.cc:383-386 | active_inputs is 0 exactly when every source is inactive |
| Merge.BalanceWhenEmpty | mtracecap.cc:545 | sources holding no packet have passed on everything they took |
| MtcLog.Clamp | mtc_log.hh:38-45 | below PANIC gives PANIC, above DEBUG gives DEBUG, and levels in range are kept |
| MtcLog.Log.constructor | mtc_log.hh:35-36 | a new logger reports panics only |
| MtcLog.Log.SetLogLevel | mtc_log.hh:38-45 | the stored level is the clamped request |
| MtcLog.Log.Line | mtc_log.hh:74-78 | a message is emitted iff its level is at most the logger's, prefixed by its level's string |
| MtcLog.Log.Panic | mtc_log.hh:50-56 | panic writes "ERROR: " and the message, then exits with status 1 |
| MtcLog.ClampKeepsLevels | mtc_log.hh:38-45 | a stored level is stored unchanged |
| MtcLog.ClampMonotone | mtc_log.hh:38-45 | a higher request never stores a lower level |
| MtcLog.VerboseShowsWarnings | mtc_log.hh:47-63 | verbose() holds iff warnings are emitted |
| MtcLog.DebugOnlyAtDebug | mtc_log.hh:65-78 | debug text appears only at DEBUG; panic text always appears |
| MtcOutput.LaterMeansAfter | mtc_output.cc:45-48 | on canonical timevals `operator>` is the order of the instants |
| MtcOutput.Input.constructor | mtc_output.hh:26-35 | a new source is inactive, holds no packet, and all its counters are 0 |
| MtcOutput.InitialInv | mtc_output.cc:51-78 | the constructor's state satisfies the invariant |
| MtcOutput.LoadKeepsInv | mtc_output.cc:112-153 | a loaded counter keeps the invariant; with a file configured, loading succeeds iff the content parses |
| MtcOutput.ConfigKeepsInv | mtc_output.hh:62-70 | the setters keep the invariant |
| MtcOutput.CloseKeepsInv | mtc_output.cc:185-201 | closing keeps the stream and leaves nothing open; the placeholder is written exactly when the format is pcap, a segment is open and no packet was written into it |
| MtcOutput.StartKeepsInv | mtc_output.cc:265-338 | a new segment starts empty with the current counter value, the counter advances with wrap, and the earlier history is kept |
| MtcOutput.OpenKeepsInv | mtc_output.cc:238-339 | open_trace closes any open segment, then adds exactly one empty segment; totals are kept |
| MtcOutput.WriteKeepsInv | mtc_output.cc:203-228 | write_packet appends the packet to the stream, counts a disorder iff the previous stamp of its segment is later, and with a size limit keeps the counted size within it |
| MtcOutput.WriteIntoOpen | mtc_output.cc:209-227 | a packet within the limit joins the open segment |
| MtcOutput.WriteIntoFresh | mtc_output.cc:205-227 | the packet that opens a segment, by first write or by crossing the limit, is the new segment's only packet, and its length is not counted |
| MtcOutput.RotateKeepsInv | mtc_output.cc:230-236 | rotate_trace always ends with nothing open; with nothing open before, it adds exactly one empty segment, a placeholder iff pcap |
| MtcOutput.SpecsKeepConfig | mtc_output.cc:203-236 | writing and rotating never change the configuration; write_packet changes last_rotated_ only when it closes an open segment |
| MtcOutput.ColonAt | mtc_output.cc:90-99 | the index of the first ':' in the URI, or None when there is none |
| MtcOutput.SplitUri | mtc_output.cc:80-99 | the scan splits the URI at its first ':' into a format without ':' and the rest; a URI without ':' panics |
| MtcOutput.Output.constructor | mtc_output.cc:51-105 | the fresh output manager is in its initial state, which satisfies the invariant, with `is_pcap_` iff the format is "pcapfile" and no sources |
| MtcOutput.Output.Signal | mtc_output.hh:61 | signal() sets only signalled_ |
| MtcOutput.Output.SetCompression | mtc_output.cc:381-385 | sets only the codec and the level |
| MtcOutput.Output.SetUseUtc | mtc_output.hh:63 | sets only useutc_ |
| MtcOutput.Output.SetWatchfile | mtc_output.hh:64 | sets only watchfile_ |
| MtcOutput.Output.SetSeqnumFile | mtc_output.hh:65 | records the file, then loads the counter as init_seqnum does; false is its panic |
| MtcOutput.Output.SetSegmentSize | mtc_output.hh:66 | sets only segmentsize_ |
| MtcOutput.Output.SetRotateSec | mtc_output.hh:67 | sets only rotatesec_ |
| MtcOutput.Output.SetInputs | mtc_output.hh:68 | shares the source array and changes nothing else |
| MtcOutput.Output.SetPipeout | mtc_output.hh:69 | marks the output as piped |
| MtcOutput.Output.SetExtension | mtc_output.hh:70 | sets only extension_ |
| MtcOutput.Output.InitSeqnum | mtc_output.cc:112-153 | without a file nothing changes; otherwise the counter and content are loaded as `ParseSeqnum` says, or it panics |
| MtcOutput.Output.SaveSeqnum | mtc_output.cc:155-175 | the file's content becomes the counter in decimal with a newline, when a file is configured |
| MtcOutput.Output.ResetSegmentStats | mtc_output.hh:79 | zeroes the segment packets, disorders and size, and nothing else |
| MtcOutput.Output.SleepOnWatchfile | mtc_output.cc:341-379 | 0 without a watchfile or once signalled; otherwise the number of failed probes before the first success |
| MtcOutput.Output.DumpSegStats | mtc_output.cc:387-402 | reports the segment and each source's packets and drops since the segment began, then restarts each source's counts |
| MtcOutput.Output.DumpTotStats | mtc_output.cc:404-408 | the totals are the written stream's packet and disorder counts |
| MtcOutput.Output.CloseTrace | mtc_output.cc:185-201 | the new state is `CloseSpec` of the old |
| MtcOutput.Output.OpenTrace | mtc_output.cc:238-339 | a panic or exit iff `StartFails` (the file does not open, or libtrace's output cannot be created, configured or started), otherwise the new state is `OpenSpec`; the sources' segment counts restart only when an open segment closes and the logger is verbose |
| MtcOutput.Output.StartSegment | mtc_output.cc:265-338 | a panic or exit iff `StartFails`, otherwise the new state is `StartSpec`: named, saved, counter advanced, counters reset, stamped |
| MtcOutput.Output.SetUp | mtc_output.cc:289-331 | the file opens unless it is stdout, and the output is created, given the configured compression level and type, and started; false iff a step fails |
| MtcOutput.Output.WritePacket | mtc_output.cc:203-228 | ends the process iff it has to open a segment that cannot be set up, otherwise the new state is `WriteSpec`; source counts restart only on a size crossing when verbose |
| MtcOutput.Output.PrepareSegment | mtc_output.cc:205-218 | the first half of write_packet, as `PrepareSpec`, fatal iff `WriteFails` |
| MtcOutput.Output.RecordPacket | mtc_output.cc:219-227 | the second half of write_packet, as `RecordSpec` |
| MtcOutput.Output.RotateTrace | mtc_output.cc:230-236 | ends the process iff nothing is open and the new segment cannot be set up, otherwise the new state is `RotateSpec`; the sources' counts are untouched |
| MtcOutput.FirstPacketInOrder | mtc_output.cc:197-200 | the first packet of a segment, compared with the zeroed last_ts_, is no disorder |
| MtcOutput.InOrderNoDisorders | mtc_output.cc:219-222 | packets written in non-decreasing time order record no disorder |
| MtcOutput.OneStepBack | mtc_output.cc:219-222 | a single step back in time counts exactly one disorder |
| SeqNum.Next | mtc_output.cc:148-149 | the incremented counter wraps to 0 past SEQNUM_MAX and always fits the field |
| SeqNum.ReadPrefix | mtc_output.cc:128 | at most 127 bytes of the file are read |
| SeqNum.ParseSeqnum | mtc_output.cc:112-153 | an unopenable file panics, empty content gives 0; other content is accepted iff it ends in a newline, holds no NUL and strtoul stops at a newline, and then loads as the successor of strtoul's value, within the field |
| SeqNum.ParseNumberLine | mtc_output.cc:136-149 | a decimal number and a newline, with perhaps more lines after, load as the number's wrapped successor |
| SeqNum.SaveThenLoad | mtc_output.cc:155-175 | what save_seqnum writes, init_seqnum reads back as the next counter value |
| SeqNum.UnterminatedIsCorrupt | mtc_output.cc:139-141 | content read without a final newline is corrupt |
| SeqNum.AdvanceModulo | mtc_output.cc:333-335 | k openings advance the counter by k modulo SEQNUM_MAX + 1 |
| SeqNum.NoReuseWithinCycle | mtc_output.cc:333-335 | no counter value repeats within one cycle of openings |
| SeqNum.SeqFieldExact | mtc_output.hh:47-48 | every counter value renders as exactly 8 digits that read back as the value |
| SeqNum.DateTimeLength | mtc_output.cc:279-282 | the date-time part is 15 characters for calendar fields in range |
| SeqNum.FileNameLayout | mtc_output.cc:279-283 | the name is the base path and "/", then 16 characters (the stamp and "-"), then the 8 counter digits, then the extension |
| SeqNum.FileNamesDistinct | mtc_output.cc:279-283 | names under one base and extension with distinct counters never collide |
| SeqNum.FixedName | mtc_output.cc:285 | strncpy leaves a prefix of the output name of at most 1023 characters |
| Numerals.StrToUl | mtc_output.cc:143 | strtoul's value fits 64 bits, a non-zero end follows a digit, and an end of 0 comes with the value 0 |
| Numerals.StrToUlDecimal | mtc_output.cc:143-144 | strtoul reads back what `%lu` printed and stops at the following non-digit |
| Numerals.DecimalValue | mtc_output.cc:169 | the digits `%lu` prints denote the number |
| Numerals.ZeroPaddedExact | mtc_output.hh:47 | `%08lu` of a number below 10^8 is 8 digits that denote it |
| Pcap.DecodeEncode | mtc_output.cc:39-43 | reading back the little-endian header gives the same fields |
| Pcap.EncodeDecode | mtc_output.cc:39-43 | every 24 bytes are the encoding of the header they decode to |
| Pcap.NullPcapIsEmptyHeader | mtc_output.cc:39-43 | null_pcap is the libpcap header with magic a1b2c3d4, version 2.4, zone 0, sigfigs 0, snaplen 262144 and link type 1 |

## Left out

- Command-line parsing (`getopt_long`, `usage`, `trace_help`, the 0..9 range check of `-z`) is not modelled. Set-up starts from an `Options` value and the argument list that remain after parsing.
- Snap length, the BPF filter and `trace_set_event_realtime` are per-source libtrace configuration with no effect on the model's state. A filter that fails to configure is one way `starts[k]` can be false.
- The privilege drop (`--relinquish-privileges`), the signal handlers and `trace_interrupt` are process control and are not modelled. A signal is the `signalled` flag of a `Tick`, read at the loop test.
- main's `signalled` is never passed to `MTC_Output::signal`. The output manager's own flag stays false, so a watchfile wait does not end on a signal. `Output.Signal` is modelled, but main never calls it.
- `insert_pipe` (socketpair, fork, execvp) and the argument vector of `--pipeout` are not modelled. This includes the `++c` that should be `++cc` at mtracecap.cc:232. Piping is the boolean `piping`, so `pipeout_[0]` on a null `pipeout_` (mtc_output.cc:300) is not reproduced.
- File descriptors, `open`/`read`/`dup2`, `gettimeofday`, `gmtime`/`localtime` and `select` are parameters (`World`, `Tick`, the `disk` content, the IOWAIT event's wait outcome and remaining budget). Whether a segment's file opens and libtrace creates, configures and starts its output is `World.opening`. How the kernel shrinks the wait budget is an oracle value. `errno` and the text of `trace_perror_output` are not modelled.
- Failed writes to a segment are not modelled. Neither is fatal in the source: when close_trace's `write` of `null_pcap` to stdout comes up short it only logs a warning (mtc_output.cc:188-192), and main ignores the result of `trace_write_packet` that write_packet returns (mtc_output.cc:227, mtracecap.cc:522). The `segments` history (`Seal`'s `placeholder` and `RecordSpec`'s appended packet) is what the program handed to the writer, not what reached the file; `Output.WritePacket`'s `ok` stands only for "the process goes on".
- A sequence file that cannot be reopened for saving is not modelled. save_seqnum then writes to an invalid descriptor and carries on, and the model always stores the saved text.
- The unreachable `rlen < 0` test on a `size_t` is not modelled. A read error is not distinguished from a file that cannot be opened.
- An overflow of the 1024-byte name buffer by `sprintf` is not modelled. `SeqNum.FileName` is the full name.
- The ERF-to-timeval conversion is left uninterpreted. A packet carries both stamps, with no relation assumed between them.
- Log text formatting (`vfprintf`) and the floating-point seconds of the per-source disorder warning are not modelled. That warning is the `disorder` result of `Take`.
- `time_t` and `long` overflow in `last_rotated().tv_sec + opt_rotatesec` and in timeval fields is not modelled. Time arithmetic is on unbounded integers.
- The packet, disorder and size counters are unbounded `nat`s. In the source they are 64-bit: `total_packets_`, `segment_packets_`, `total_disorders_` and `segment_disorders_` of `MTC_Output` (mtc_output.hh:108-111), `current_segsize_` (mtc_output.hh:105, whose `+= caplen` at mtc_output.cc:211 wraps), and `total_packets_` and `segment_packets_` of `MTC_Input` (mtc_output.hh:41-42). The model (`OutState`, `Output`, `Input`, `Merge.Source`) does not reproduce their wrap-around after 2^64 packets or bytes.
- `Mtracecap.Run` is bounded by its sequence of ticks. It models any finite prefix of the loop, and nothing bounds the real loop.
- The `--i` retry on packets without a usable layer-3 header ends in the model because each retry consumes a scripted event. Nothing in the code bounds it.
- The reuse of the packet buffer `p` across rounds, and its destruction, are memory management and are not modelled.
- Set-up creates the logger just before the output manager. main creates it after the argument check and before the compression check, which only changes which object prints the compression panic.
- The watchfile wait is assumed to end: every output operation requires `Output.Ready`, that is, a probe that eventually finds the file (or no watchfile); `Execute` asks the same of its environment through `Answers`. Without one the program sleeps forever, which the model does not represent.
- The `#if 0` blocks (the select on SLEEP, the detached close thread) are dead code and are not modelled.
- `Merge.SelectIsMinimum` holds for all ERF stamps, but selection leaves out a packet stamped 0xffffffffffffffff. `Merge.SentinelNeverSelected` states that case, and `Mtracecap.DeliverWrites` says what a round then writes.
