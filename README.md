# barn-lights UDP sender, modelled in Dafny

This project models the sender side of the barn-lights LED pipeline. The pipeline has these stages:

- **Renderer process.** An external renderer writes NDJSON frames to its stdout. The renderer-process wrapper turns each `rgb8` line into a `FrameIngest` event and logs every other line.
- **Assembler.** For every configured side (`left`, `right`), the assembler checks each section of each run against the side's layout. It then copies the section bytes into zero-filled run buffers of three bytes per LED. It emits one `FrameAssembled` event per side that succeeds and writes that frame into the mailbox.
- **Mailbox.** The mailbox holds at most one frame per side; the most recent frame wins. It counts frames sent and frames dropped by an overwrite.
- **UDP sender.** On every timer tick, the UDP sender takes a side's frame and sends one datagram per run. Each datagram is a 4-byte big-endian frame id followed by the run's bytes, sent to `portBase + run_index`. The sender can also send a one-byte reboot signal to `portBase + 100`.
- **Telemetry.** Telemetry counts ingested and built frames per side and charges every run one packet per frame sent. It also aggregates error messages between reports.
- **Configuration.** The layout validators (`load-layout.mjs`, `layout.ts`) and the configuration loader (`load-config.mjs`) decide which files are accepted, and with which message a file is rejected.
- **Command line.** The command-line entry points (`cli.mjs`, `cli.ts`, `cli.js`) parse `--config` and `--log-level`, choose the log level and map failures to exit codes.

Each source file has one module:

- **Common** (`common.dfy`): the shared vocabulary, which includes the unsigned 32-bit conversion (`>>> 0`) and decimal printing.
- **Mailbox** (`mailbox.dfy`):
  - a `Slot` class and a `Mailbox` class whose methods update their fields;
  - a value model (`SlotState`, `WriteSlot`, `TakeSlot`) for the properties that hold over any sequence of operations.
- **Assembler** (`assembler.dfy`):
  - pure specification functions (`SectionBytes`, `RunBuffer`, `AssembleRuns`, `AssembleSide`, `BuiltFrames`);
  - the imperative code proved against them. `FillRun` allocates an `array<byte>` and copies sections in at an advancing offset, `BuildRuns` loops over runs, and the `Assembler` class's `HandleFrame` loops over sides and writes to the mailbox.
- **UdpSender** (`udp_sender.dfy`): the packet encoding and its round trip, and a class that holds the sockets, timers and an outbox of datagrams.
- **RendererProcess** (`renderer_process.dfy`): the line classifier, the exit message, and a class for the child process.
- **Telemetry** (`telemetry.dfy`):
  - the per-side statistics, with an accounting invariant;
  - the error tally in insertion order;
  - a class whose handlers and report keep that invariant.
- **Layout** (`layout.dfy`): both layout validators, with their loops.
- **LoadConfig** (`load_config.dfy`): the configuration checks in order, with the side-entries loop.
- **LogLevel** (`log_level.dfy`): level names and the logger's threshold.
- **Cli** (`cli.dfy`):
  - the flag scanner and its loop;
  - start-up up to the logger;
  - the exit codes;
  - the fatal-error and signal handlers.

Reading files, `JSON.parse`, base64 decoding, the child process, sockets and timers are abstract. Their results arrive as parameters, for example:

- a parsed layout is a `LayoutJson` whose fields are `None` where the JSON value is missing or of the wrong type;
- a section payload carries its already-decoded bytes;
- which layout paths exist is given as two sets.

The UDP packet has a 4-byte header, the frame id only, because `src/udp-sender/index.mjs:81-83` writes exactly that.

## Model

| member | source | states |
|---|---|---|
| Common.ToUint32 | src/assembler/index.mjs:93 | `frame >>> 0` is in [0, 2^32), equals the input modulo 2^32, and leaves an in-range number unchanged |
| Common.NatToString | src/telemetry/index.mjs:181 | the decimal text of a count is non-empty and made of digits only |
| Common.NatToStringRoundTrip | src/telemetry/index.mjs:181 | reading the printed digits back gives the number |
| Common.NatToStringInjective | src/telemetry/index.mjs:181 | different counts print differently |
| Mailbox.WriteThenTake | src/mailbox/index.mjs:11-27 | a take after a write returns that frame, empties the slot and counts one frame sent |
| Mailbox.TwoWritesDropOne | src/mailbox/index.mjs:11-17 | a write over a waiting frame counts one overwrite drop, and the later frame is the one taken |
| Mailbox.WriteToEmptyCountsNothing | src/mailbox/index.mjs:11-17 | a write into an empty slot changes no counter |
| Mailbox.TakeEmpty | src/mailbox/index.mjs:19-27 | taking from an empty slot returns nothing and changes nothing |
| Mailbox.TakeTwiceIsEmpty | src/mailbox/index.mjs:19-27 | a second take in a row returns nothing and changes nothing |
| Mailbox.Conservation | src/mailbox/index.mjs:11-27 | over any sequence of writes and takes, sent + overwritten + waiting grows by exactly the number of writes |
| Mailbox.FreshMailboxConservation | src/mailbox/index.mjs:4-27 | from a fresh slot, every frame written is sent, dropped by an overwrite, or still waiting |
| Mailbox.CountersMonotone | src/mailbox/index.mjs:11-27 | neither counter ever decreases |
| Mailbox.Slot.constructor | src/mailbox/index.mjs:6-7 | a new slot is empty with both counters at 0 |
| Mailbox.Mailbox.constructor | src/mailbox/index.mjs:4-9 | two distinct fresh empty slots, left and right |
| Mailbox.Mailbox.Write | src/mailbox/index.mjs:11-17 | the side's slot becomes `WriteSlot` of its old state; the other side is unchanged; sent + dropped + waiting still equals the writes |
| Mailbox.Mailbox.Take | src/mailbox/index.mjs:19-27 | returns the waiting frame and leaves the slot as `TakeSlot` says; the other side is unchanged |
| Mailbox.Mailbox.GetStats | src/mailbox/index.mjs:29-32 | the snapshot is the side's two counters, and together they never exceed the writes made |
| Assembler.Assembler.ConfigError | src/assembler/index.mjs:20-25 | no error exactly when every configured side has a runs array |
| Assembler.Assembler.constructor | src/assembler/index.mjs:14-25 | keeps the side entries and the optional mailbox; nothing emitted or logged yet |
| Assembler.Assembler.HandleFrame | src/assembler/index.mjs:42-102 | on every frame no side makes throw (`AllFit`), emits exactly `BuiltFrames` and logs exactly `Diagnostics` of the configured sides in order, and each mailbox slot ends as if those frames were written in that order; a negative section count is a logged length mismatch |
| Assembler.Assembler.HandleEntry | src/assembler/index.mjs:44-100 | one pass of the side loop extends the emitted frames, log lines and mailbox writes by that side's outcome |
| Assembler.Assembler.Publish | src/assembler/index.mjs:62-99 | a dropped side adds exactly its error line (missing section or length mismatch); a built side is emitted once and written to the mailbox slot named by the assembled frame's `side` (the configured side, else the entry's key); an absent side changes nothing |
| Assembler.BuildSide | src/assembler/index.mjs:48-95 | when the side does not throw (`SideFits`), the outcome is `AssembleSide`: skipped when the frame lacks the side, else dropped with the first failure or built from all run buffers |
| Assembler.BuildRuns | src/assembler/index.mjs:57-88 | when no run the loop reaches throws (`RunsFit`), the run loop returns `AssembleRuns`: all run buffers in layout order, or the first failure |
| Assembler.FillRun | src/assembler/index.mjs:58-87 | when the run does not throw (`RunFits`: sections array present, run count not negative, no usable prefix of sections past the buffer), the buffer loop returns `RunBuffer`: `led_count * 3` bytes holding the sections' bytes in order, zero-filled after, or the first missing or mis-sized section, a negative section count being mis-sized |
| Assembler.CopyInto | src/assembler/index.mjs:79 | `runBuffer.set(bytes, offset)` replaces exactly `[offset, offset + len)` with the bytes and keeps the rest |
| Assembler.SectionBytesStep | src/assembler/index.mjs:61-81 | one section further, the bytes grow by that section's bytes, or the whole run fails with that section's error |
| Assembler.RunBufferOfSections | src/assembler/index.mjs:58-87 | a run's buffer is its section bytes followed by zeros up to three bytes per LED, or the sections' error |
| Assembler.SectionBytesLength | src/assembler/index.mjs:70-80 | successful section bytes are three per LED of the sections |
| Assembler.SectionBytesOkIff | src/assembler/index.mjs:61-81 | a run's sections assemble exactly when every section is present and decodes to three bytes per LED |
| Assembler.SectionBytesPlacement | src/assembler/index.mjs:79-80 | section k's bytes sit at offset 3 × (sum of the earlier counts) |
| Assembler.SectionBytesFirstError | src/assembler/index.mjs:61-77 | on failure the error names the first failing section; every earlier one was usable |
| Assembler.SectionBytesPrefixError | src/assembler/index.mjs:64-76 | once a prefix of the sections fails, the whole run fails the same way (the `break`) |
| Assembler.AssembleRunsPrefixError | src/assembler/index.mjs:83-85 | once a prefix of the runs fails, the whole side fails the same way |
| Assembler.RunBufferShape | src/assembler/index.mjs:58-87 | a built run buffer has three bytes per LED and the run's index; it is exactly the section bytes when the counts add up |
| Assembler.AssembleRunsSpec | src/assembler/index.mjs:57-88 | when no reached run throws, a side assembles exactly when every section of every run is usable; it then has one buffer per run, in order: the run's own `RunBuffer` (its index, and its section bytes padded to 3 × `led_count`) |
| Assembler.AssembleRunsOkIff | src/assembler/index.mjs:57-88 | the first half of `AssembleRunsSpec`: success exactly when all sections of all runs are usable |
| Assembler.AssembleRunsShape | src/assembler/index.mjs:57-88 | the second half: one buffer per run, in order, equal to that run's `RunBuffer`, so with its index and size |
| Assembler.AssembleSideSpec | src/assembler/index.mjs:48-53 | a side is skipped exactly when the frame lacks it; a built frame has id `frame >>> 0`, the layout's side name or the key, and one buffer per run, equal to that run's `RunBuffer` over the side's payloads |
| Assembler.BuiltFramesSnoc | src/assembler/index.mjs:44 | the events and log lines of one more side append that side's outcome |
| Assembler.BuiltFramesPerSide | src/assembler/index.mjs:44-101 | sides do not interfere: every side that assembles on its own is emitted, nothing else is, and at most one frame per side |
| Assembler.BuiltFramesComplete | src/assembler/index.mjs:90-96 | every side that assembles is emitted |
| Assembler.BuiltFramesSound | src/assembler/index.mjs:90-96 | every emitted frame is some side's assembled frame; at most one per side |
| Assembler.WriteBothAppend | src/assembler/index.mjs:97-99 | writing two batches of frames to the mailbox is writing their concatenation |
| Assembler.WriteAllAppend | src/assembler/index.mjs:97-99 | the same for one slot |
| UdpSender.EncodeBE32 | src/udp-sender/index.mjs:81-82 | `writeUInt32BE` yields four bytes |
| UdpSender.DecodeBE32 | src/udp-sender/index.mjs:82 | four big-endian bytes denote a number below 2^32 |
| UdpSender.EncodeDecodeBE32 | src/udp-sender/index.mjs:81-82 | decoding an encoded header gives the frame id back |
| UdpSender.DecodeEncodeBE32 | src/udp-sender/index.mjs:81-82 | every 4-byte header is the encoding of exactly one number |
| UdpSender.PacketSpec | src/udp-sender/index.mjs:81-83 | a packet is the run data plus 4 bytes; its header decodes to `frame_id >>> 0`; the rest is the run data |
| UdpSender.FrameDatagramsSpec | src/udp-sender/index.mjs:80-99 | one datagram per run, in run order, to the side's IP and `portBase + run_index`, with the header and that run's bytes |
| UdpSender.RebootDatagram | src/udp-sender/index.mjs:55-57 | the reboot signal is one zero byte to `portBase + 100` at the side's IP |
| UdpSender.Lookup | src/udp-sender/index.mjs:50 | `config.sides?.[name]` is absent exactly when no entry has that name, and otherwise is that entry's configuration |
| UdpSender.NamesLookup | src/udp-sender/index.mjs:25 | the configured names are exactly the names `Lookup` finds |
| UdpSender.UdpSender.constructor | src/udp-sender/index.mjs:13-20 | no sockets, no timers, nothing sent |
| UdpSender.UdpSender.Start | src/udp-sender/index.mjs:23-33 | every configured side gets an open socket and an active timer; other entries are kept; sockets stay all open or all closed, and every active timer has an open socket |
| UdpSender.UdpSender.Stop | src/udp-sender/index.mjs:36-43 | every timer is cleared; then it throws exactly when a socket is already closed, leaving the sockets as they were, and otherwise closes every socket; the maps keep their keys; the call is appended to the stop trace |
| UdpSender.UdpSender.ClearAll | src/udp-sender/index.mjs:37-39 | the timer loop clears every timer and keeps the keys |
| UdpSender.UdpSender.CloseAll | src/udp-sender/index.mjs:40-42 | the socket loop throws exactly when some socket is already closed, and otherwise closes them all |
| UdpSender.UdpSender.SendAvailable | src/udp-sender/index.mjs:75-100 | takes the side's frame (the slot ends empty, the other side untouched); with none waiting it sends nothing; otherwise it sends `FrameDatagrams` of the runs before the first refused port (`SentRuns`) and throws exactly when there is such a run |
| UdpSender.UdpSender.SendRebootSignal | src/udp-sender/index.mjs:49-67 | nothing for an unknown side or before `start`; a throw, with nothing sent, exactly when the port `portBase + 100` is outside 1..65535 or the socket is closed; otherwise exactly the reboot datagram |
| UdpSender.UdpSender.SendRuns | src/udp-sender/index.mjs:79-99 | the run loop sends exactly `FrameDatagrams` of the runs before the first refused port, and throws exactly when some run's port is refused |
| UdpSender.SentRuns | src/udp-sender/index.mjs:79-86 | the send loop gets through exactly the leading runs whose port `portBase + run_index` lies in 1..65535; the next run, if any, has a refused port |
| UdpSender.UdpSender.OnSendError | src/udp-sender/index.mjs:88-96 | the send error message goes to telemetry's tally when there is telemetry, otherwise to the error log, and is never thrown |
| RendererProcess.ClassifyLine | src/renderer-process/index.mjs:35-55 | a line is emitted exactly when it parses with format `rgb8`, as the parsed frame; the two rejections carry their messages |
| RendererProcess.IngestAppend | src/renderer-process/index.mjs:35-55 | a bad line never stops later lines: a stream's outcome is its parts' outcomes concatenated |
| RendererProcess.IngestSpec | src/renderer-process/index.mjs:35-55 | every line yields exactly one frame or one log line; every emitted frame is `rgb8` and parsed from some line |
| RendererProcess.ExitError | src/renderer-process/index.mjs:59-64 | an error exactly when the exit code is not 0 (a null code included); its message starts with "Renderer exited with code " |
| RendererProcess.ExitMessageSignal | src/renderer-process/index.mjs:61 | with a non-empty signal, the message is the prefix, the printed code, " and signal " and the signal |
| RendererProcess.ExitMessage | src/renderer-process/index.mjs:61 | without a signal, the message is the prefix and the printed code |
| RendererProcess.CodeTextInjective | src/renderer-process/index.mjs:61 | different codes, or a code and `null`, print differently |
| RendererProcess.NotNull | src/renderer-process/index.mjs:61 | a printed number is never `null` |
| RendererProcess.ExitErrorNamesCode | src/renderer-process/index.mjs:59-64 | the exit message determines the exit code, whether a signal is named, and which |
| RendererProcess.RendererProcess.constructor | src/renderer-process/index.mjs:11-19 | no child yet; nothing emitted, logged or killed |
| RendererProcess.RendererProcess.Start | src/renderer-process/index.mjs:22-30 | spawns the command with its arguments, passing `cwd` only when one is configured |
| RendererProcess.RendererProcess.OnLine | src/renderer-process/index.mjs:35-55 | adds the line's frame to the emitted frames or its message to the log, as `Ingest` says |
| RendererProcess.RendererProcess.OnExit | src/renderer-process/index.mjs:59-64 | emits `ExitError` for every exit other than code 0, and nothing otherwise |
| RendererProcess.RendererProcess.OnChildError | src/renderer-process/index.mjs:67-69 | the child's error is passed on unchanged |
| RendererProcess.RendererProcess.Stop | src/renderer-process/index.mjs:75-79 | kills the child if there is one, otherwise does nothing; the call is appended to the stop trace |
| Telemetry.PacketSizesSpec | src/telemetry/index.mjs:24-28 | `run_packet_sizes` has exactly the layout's run indices; a run's entry is 4 + 3 × `led_count` unless a later run reuses its index |
| Telemetry.ReportedValid | src/telemetry/index.mjs:116-151 | a report keeps the accounting invariant: every run has been charged exactly the mailbox's `frames_sent` packets of its size, and the build drops are ingested minus built |
| Telemetry.FreshStatsValid | src/telemetry/index.mjs:21-45 | a side's initial statistics satisfy the accounting invariant |
| Telemetry.RecordSpec | src/telemetry/index.mjs:82-86 | recording raises that message's count by one (from 0 when new), leaves the others alone and keeps the tally well formed |
| Telemetry.RecordAllCounts | src/telemetry/index.mjs:82-86 | from an empty tally, each message is listed once and counted as often as it was recorded |
| Telemetry.OccurrencesAbsent | src/telemetry/index.mjs:84 | a message never recorded has count 0 |
| Telemetry.ErrorLinesSpec | src/telemetry/index.mjs:179-184 | a report logs one "msg (Nx)" line per distinct message, in insertion order |
| Telemetry.TwoAndOneReport | test/telemetry-errors.test.mjs:22-27 | two "test error"s and one "another error" are logged as "test error (2x)" and "another error (1x)" |
| Telemetry.ErrorKey | src/telemetry/index.mjs:83 | the key is the string itself, else the error's non-empty message, else its string form |
| Telemetry.Telemetry.constructor | src/telemetry/index.mjs:12-46 | every configured side starts with fresh statistics; no errors, no interval |
| Telemetry.Telemetry.FreshSides | src/telemetry/index.mjs:20-45 | the constructor's loop gives every configured side its fresh statistics, and nothing else, each satisfying the invariant |
| Telemetry.Telemetry.SizeRuns | src/telemetry/index.mjs:24-28 | the inner loop computes `PacketSizes` |
| Telemetry.Telemetry.OnFrameIngest | src/telemetry/index.mjs:53-60 | each configured side present in the frame counts one more ingested frame; nothing else changes |
| Telemetry.Telemetry.CountIngest | src/telemetry/index.mjs:54-59 | the loop adds one ingested frame to exactly the configured sides that are present |
| Telemetry.Telemetry.ChargeRuns | src/telemetry/index.mjs:126-133 | every sized run is charged `delta` packets and `delta` × its size in bytes |
| Telemetry.Telemetry.OnFrameAssembled | src/telemetry/index.mjs:68-75 | a configured side counts one more built frame and records its frame id; an unknown side changes nothing |
| Telemetry.Telemetry.RecordError | src/telemetry/index.mjs:82-86 | the tally records `ErrorKey` of the error |
| Telemetry.Telemetry.Start | src/telemetry/index.mjs:89-96 | a second start does nothing; a first start reports once (every side `Reported` against the mailbox counters, so packets again equal `frames_sent`; the error tally logged and cleared) and creates one interval |
| Telemetry.Telemetry.Stop | src/telemetry/index.mjs:99-106 | clears the interval if there is one (no interval is created), then reports: every side is `Reported` against the mailbox counters and the error tally is logged and cleared |
| Telemetry.Telemetry.Report | src/telemetry/index.mjs:109-185 | every side is brought up to date with the mailbox's counters (`Reported`); each aggregated message is logged once; the tally is cleared |
| Telemetry.Telemetry.ReportSides | src/telemetry/index.mjs:116-165 | the side loop applies `Reported` to every configured side with that side's mailbox counters |
| Telemetry.Telemetry.ReportAll | src/telemetry/index.mjs:116-151 | the loop over configured sides leaves every side `Reported`, keeping the invariant |
| Telemetry.Telemetry.ReportOne | src/telemetry/index.mjs:117-151 | one side's update is `Reported` and keeps the invariant |
| Telemetry.Telemetry.LogErrors | src/telemetry/index.mjs:179-184 | logs `ErrorLines` of the tally |
| Telemetry.Telemetry.ErrorReport | src/telemetry/index.mjs:180-182 | the message loop produces `ErrorLines` |
| Layout.IndicesSnoc | src/config/load-layout.mjs:43 | `runIndices.add`: one more run adds its index |
| Layout.RunsCheckOkIff | src/config/load-layout.mjs:36-50 | the runs pass exactly when indices are distinct and every section sum matches; the total is then the sum of the run counts |
| Layout.RunsCheckFirstError | src/config/load-layout.mjs:39-48 | a failure belongs to the first offending run: every earlier run is fine, and this one repeats an index (checked first) or has a mismatched sum |
| Layout.RunsCheckPrefixError | src/config/load-layout.mjs:40-48 | once a prefix of the runs fails, the whole list fails the same way |
| Layout.ValidateLayoutSpec | src/config/load-layout.mjs:20-58 | accepted exactly with a runs array, a numeric port base, a four-octet IP, distinct indices and matching sums; returned unchanged; each earlier check's message wins |
| Layout.ValidateLayoutTsSpec | src/config/layout.ts:21-47 | the older validator accepts exactly a runs array with distinct indices and matching sums, and gives the same result on everything the newer one accepts |
| Layout.Warnings | src/config/load-layout.mjs:52-56 | one warning exactly when `total_leds` differs from the sum of the run counts |
| Layout.CheckRuns | src/config/load-layout.mjs:36-50 | the run loop, with its index set and running total, computes `RunsCheck` |
| Layout.LoadLayout | src/config/load-layout.mjs:16-58 | the result is `ValidateLayout`; the warnings are `Warnings` of an accepted layout, none otherwise |
| Layout.LoadLayoutTs | src/config/layout.ts:17-48 | the result is `ValidateLayoutTs`, with the same warnings |
| Layout.LoadLayouts | src/config/layout.ts:57-62 | left first, then right; the first failure is the result; no warnings when the left layout fails, the left layout's warnings when only the right one fails, and on success both layouts and both sets of warnings |
| Layout.AcceptedLayoutFits | src/config/layout.ts:34-37 | an accepted layout whose runs all have sections with non-negative counts satisfies the assembler's `RunFits` for every run on every frame |
| Layout.NegativeSectionOverruns | src/config/layout.ts:34-37 | the counts 5 and -2 in a run of 3 are accepted, yet a frame with the first section's 15 bytes overruns the 9-byte buffer |
| LoadConfig.Locate | src/config/load-config.mjs:27-33 | the configuration directory first, then the working directory, otherwise not found |
| LoadConfig.SidesCheckSpec | src/config/load-config.mjs:23-34 | the sides pass exactly when every layout is a string found in one of the two places; otherwise the first failing side's message |
| LoadConfig.SidesCheckPrefix | src/config/load-config.mjs:24-32 | once a prefix of the sides fails, the whole list fails the same way |
| LoadConfig.CheckConfigSpec | src/config/load-config.mjs:8-49 | accepted exactly with a non-empty command, an argument array, passing sides, telemetry with a positive integer interval and an absent, empty or valid level; returned unchanged |
| LoadConfig.LoadConfig | src/config/load-config.mjs:8-49 | the loader with its side loop computes `CheckConfig` |
| LogLevel.ParseLevel | src/cli.mjs:40-41 | a level is found only for its own name |
| LogLevel.ValidateLogLevelSpec | src/config/load-config.mjs:4-6 | validation accepts exactly the four level names, and a level's name parses back to it |
| LogLevel.ShouldLogSpec | src/cli.mjs:39-51 | a logger prints its own level and every more severe one, nothing less severe, and raising the threshold only adds messages |
| LogLevel.ShouldLogInvalid | src/cli.js:35-39 | with a level that names nothing, the threshold is undefined and nothing prints |
| Cli.ParseArgs | src/cli.mjs:9-20 | the index-skipping loop computes `Scan` from position 0 |
| Cli.ScanShift | src/cli.mjs:11-18 | scanning past a prefix is scanning what follows it |
| Cli.FlagConsumesValue | src/cli.ts:25-29 | a flag followed by a value sets its field to that value, which is consumed and never read as a flag |
| Cli.LaterFlagWins | src/cli.js:8-11 | a later occurrence of a flag overrides an earlier one |
| Cli.OtherArgumentsIgnored | src/cli.mjs:11-18 | other arguments, and a flag in the last position, are skipped |
| Cli.ScanValuesFollowFlags | src/cli.mjs:11-18 | every reported value is the argument right after its flag |
| Cli.CliCheckConfigSpec | src/cli.mjs:26-37 | the command-line loader accepts exactly configurations with telemetry and an absent, empty or valid level; returns them unchanged; accepts everything the full loader accepts |
| Cli.EffectiveLevelPrecedence | src/cli.mjs:59 | the flag beats the configured level, which beats `info`; the result is never empty |
| Cli.StartSpec | src/cli.mjs:53-62 | start-up succeeds exactly when the file reads, passes the check and the effective level is valid; it then uses the flag's path or the default, and that level |
| Cli.FlagLevelDecides | src/cli.ts:67-73 | with a valid configuration, `--log-level x` starts exactly when x is a level, and otherwise fails with "Invalid log level: x" |
| Cli.MainResult | src/cli.ts:65-81 | exit 0 exactly on start-up and 1 exactly on failure, with the message on stderr; on success the "Loaded configuration" line exactly when the level shows `info` |
| Cli.OnRendererError | src/cli.mjs:86-91 | prints the message and stops the sender (all timers cleared). The stop trace the two `stop` methods append to is then exactly sender, renderer, with all sockets closed, the child killed and exit code 2. If a socket was already closed, the sender's `stop` throws, the renderer is left alone and the exit code is 1 |
| Cli.Shutdown | src/cli.mjs:96-100 | the stop trace is exactly sender, renderer, with exit code 0. If a socket was already closed, the sender's `stop` throws, the renderer is left alone and the exit code is 1 |

## Left out

- Reading files, `JSON.parse`, `path.resolve` and `fs.existsSync` are abstract. A parse result is a typed record, and which relative layout paths exist is given as two sets, one for the configuration's directory and one for the working directory.
- Base64 decoding (`Buffer.from(..., 'base64')`) is abstract: a section payload carries its decoded bytes.
- JSON values of an unexpected type are not modelled beyond "missing or wrong type", which each record field represents as `None`. Examples are a `sides` value that is an array and a number where a string is expected. The exception is `telemetry.log_level`, whose `None` means absent only: a non-string `log_level` is not represented. The source rejects a truthy one with "Invalid telemetry.log_level: " and its string form (for `5`, src/config/load-config.mjs:44-45 and src/cli.mjs:33-34), and treats a falsy one (`0`, `false`, `null`) as absent. Counts and run indices are integers. A `run_index` or `led_count` that is not an integer is not represented, and neither is a section without `led_count`, which load-layout.mjs always rejects through its NaN sum.
- A side name other than `left` or `right` is excluded by typing; the mailbox would crash on one. A falsy side configuration inside `config.sides` is not represented. The assembler's constructor already rejects it (src/assembler/index.mjs:21-23), with a TypeError for `null` and the missing-runs error otherwise, so the `continue` at src/assembler/index.mjs:45-47 is never reached.
- Assembler.FillRun: its precondition `RunFits` excludes exactly the runs on which the source throws, and those throws are not modelled. The source throws for a negative run count (RangeError from `new Uint8Array`) and for a run without a sections array (TypeError). It also throws for a section that passes its length check but ends past the run buffer (RangeError from `Uint8Array.set`). A negative section count is not excluded: it never matches a decoded length, so it is a logged length mismatch.
- Assembler.Assembler.HandleFrame, Assembler.BuildSide and Assembler.BuildRuns require the same condition of every run the loops reach on the given frame, for the same reason. An exception escaping `#handleFrame` is not modelled. `Layout.AcceptedLayoutFits` shows that an accepted layout whose sections carry non-negative counts meets it on every frame. `Layout.NegativeSectionOverruns` shows an accepted layout that does not.
- UdpSender.UdpSender.Start: a repeated `start` replaces the map entries, while the source leaves the earlier sockets open and their intervals running. The model does not capture those leaked sockets and timers.
- Cli.OnRendererError and Cli.Shutdown: when `stop` throws, the model returns exit code 1 for the uncaught exception. Node's printing of the stack trace is not modelled.
- A non-integral `frame` number under `>>> 0` is not modelled: frame numbers are integers.
- Telemetry's floating-point rates (`pps`, `bytes_per_sec`), timestamps (`last_send_ts`) and the 5-second throttled warnings are left out because they depend on the clock and on floating point. So are the printed statistics table and the trailing blank line.
- Telemetry's interval period and the sender's 1 ms tick are left out: timers are modelled as active or cleared, and a tick is a call to `SendAvailable`.
- Sockets are open or closed, and `socket.send` appends to an outbox. Its synchronous throws are modelled as a `thrown` result: a port outside 1..65535 (`ERR_SOCKET_BAD_PORT`) and a closed socket. What happens to an exception thrown out of a timer tick is not modelled. Asynchronous send failures are modelled only as a separate callback, `OnSendError`.
- The child process is abstract. Its stdout lines, exit and error events arrive as method calls, and `kill` is recorded.
- `EventEmitter` wiring is left out. This covers `bindFrameEmitter`, `bindRenderer`, `bindAssembler`, and the `instanceof` checks that make binding a non-emitter a no-op. Each handler is a method instead.
- In `cli.mjs`, the layout loading for sides that name a `layout` (lines 66-78) is left out. So is the construction of the components (lines 80-84), and also the registration of the handlers (lines 93-102) apart from the two handlers themselves. `cli.mjs` passes the logger where `UdpSender` expects telemetry, so send errors go to its own logger. `OnSendError` covers that case with no telemetry.
- Console output other than the lines named in the model is left out.
- `src/mailbox/index.ts` has the same behaviour as `src/mailbox/index.mjs` and is modelled once. `cli.mjs`, `cli.ts` and `cli.js` share the flag parser, the checks and the logger, which are likewise modelled once. Their `main` functions differ only in what follows the logger: `cli.mjs` keeps running, while `cli.ts` and `cli.js` return the exit code.
