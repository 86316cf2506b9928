# FluffOS networking and external-process packages, modelled in Dafny

This project models the core of the FluffOS driver's packages for
networking and external processes. It also models the Python build
monitor that ships with the driver. Each core source file is one Dafny
module:

- `BuildMonitor` (`tools/fluffos_build_monitor.py`): the build monitor. It scans a build log for
  progress percentages, errors and warnings, and it follows the build's stall and completion
  state.
- WebSocket framing (`src/packages/websocket/ws_frame.cc`), split across five modules:
  - `WsFrame`: frame headers and frames, and their encoding.
  - `WsParser`: the incremental parser state machine.
  - `WsBuilder`: the frame builder.
  - `WsStream`: fragment reassembly.
  - `WsUtils`: UTF-8 validation and fragmenting.
  - `WsFrameLemmas` proves the round trip of frame encoding and parsing.
- `MqttMessage` (`src/packages/mqtt/mqtt_message.cc`): MQTT messages, topic filters and the
  per-QoS outgoing message queue.
- `MqttClient` (`src/packages/zmqtt/`): the MQTT client's configuration check, connection state
  machine, packet identifiers and outgoing queue.
- `HttpServer` (`src/packages/http/http_server.cc`): request-line and header parsing, URL
  decoding and the HTTP limits.
- REST support:
  - `Rest` (`src/packages/rest/rest.cc`): route patterns, paths and query strings.
  - `RestAuth` (`src/packages/rest/rest_auth.cc`): Base64, Basic authentication and bearer tokens.
  - `RestRouter` (`src/packages/http/rest/rest_router.cc`): the route table and matching.
  - `RestValidation` (`src/packages/http/rest/rest_validation.cc`): request validation.
  - `RestHandler` (`src/packages/sockets/rest_handler.cc`): the per-socket route registry,
    query parsing and JSON escaping.
- Socket options:
  - `SocketOptionValidator` (`socket_option_validator.cc`): per-option metadata, range and format
    checks, dependencies and conflicts, and the validation cache.
  - `SocketOptionManager` (`socket_option_manager.cc`): the per-socket option store, socket modes
    and option inheritance.
  - `SocketErrorHandler` (`socket_error_handler.cc`): error records, counters, recovery strategies
    and the error history.
- External processes:
  - `EventNotifier` (`src/packages/external/event_notifier.cc`): the socket-to-eventfd table.
  - `FileMonitor` (`file_monitor.cc`): inotify watches, event decoding and per-socket event queues.
  - `CommandExecutor` (`command_executor.cc`): command and path security checks, argument escaping
    and command-line splitting.
  - `ProcessSecurity` (`process_manager.cc`): the checks made before a process is spawned.
- GraphQL:
  - `GraphqlServer` (`src/packages/graphql/graphql.cc`): query depth and complexity limits,
    request parsing, the request handler and the per-socket server configuration.
  - `GraphQLSubscriptions` (`graphql_subscription_manager.cc`): the subscription tables.
- `GrpcChannels` (`src/packages/grpc/grpc_channel_manager.cc`): channel creation and closing,
  target-address validation, the backend lists and channel statistics.

Helper modules:

- `Wrappers`: the Option and Result types.
- `Text`: ASCII character and string helpers. It also holds the "a, then later b" search that
  stands in for the regular expressions.
- `Seqs`: sequence helpers.
- `Bytes`: bytes and big-endian numbers.
- `SocketOptions`: the option numbers and socket modes shared by the socket modules.

Conventions:

- Objects whose fields the source updates in place are classes whose methods state their new
  state through a specification function. Lemmas about that function carry the properties.
- Loops are methods proved against a recursive specification function.
- Clocks, random values, file-system queries, operating-system calls and callbacks into the
  driver become parameters. When a call is made on the driver's side, the model records the
  call instead of making it.
- Integer widths are written out wherever the source depends on them: 16-bit packet
  identifiers, 64-bit frame lengths, signed `char`, and the 32-bit `int` that option numbers
  and integer option values are narrowed to.

## Model

| member | source | states |
|---|---|---|
| BuildMonitor.MarkerIsActivity | tools/fluffos_build_monitor.py:95-116 | a `[42%]` marker is read as 42 and counts as build activity |
| BuildMonitor.SilentOutputIdle | tools/fluffos_build_monitor.py:95-109 | an empty chunk of output is not build activity: it holds no progress marker and matches none of the activity patterns |
| BuildMonitor.NoBracketNoMarkers | tools/fluffos_build_monitor.py:114 | output without '[' holds no `[NN%]` progress marker |
| BuildMonitor.ExtractProgress | tools/fluffos_build_monitor.py:111-132 | with markers present the result is one of them and no smaller than any; without markers it is at most the larger of the current progress and 100, and falls below the current progress only to the "built target" milestone 100 |
| BuildMonitor.CompletionsAreNew | tools/fluffos_build_monitor.py:134-146 | every newly completed package is a focus package, was not built before, has its "Built target package_" line, and is reported once |
| BuildMonitor.CompletionsComplete | tools/fluffos_build_monitor.py:139-144 | a focus package whose completion line appears ends up built, either before or now |
| BuildMonitor.Decide | tools/fluffos_build_monitor.py:178-208 | a kept line is reported with its own text; a new error is one not recorded before and carries the line's criticality; a new warning is not recorded before |
| BuildMonitor.Analyse | tools/fluffos_build_monitor.py:150-194 | each line of the chunk is stripped and classified (noise, critical, package-related, warning) in order |
| BuildMonitor.ErrorRule | tools/fluffos_build_monitor.py:183-202 | noise lines are dropped; a new non-noise line becomes an error iff it is critical, or package-related and a warning |
| BuildMonitor.NeverAWarning | tools/fluffos_build_monitor.py:196-208 | the warning branch is unreachable: every package-related warning already takes the error branch |
| BuildMonitor.FilterDropsNoise | tools/fluffos_build_monitor.py:178-210 | the filter never reports an empty or noise line, and never reports a warning |
| BuildMonitor.FilterUniqueNoDup | tools/fluffos_build_monitor.py:196-208 | the corrected filter reports no message twice and none already recorded |
| BuildMonitor.RepeatedLineReportedTwice | tools/fluffos_build_monitor.py:196-202 | as written, a critical line repeated in one chunk is reported twice |
| BuildMonitor.ErrorLineWitness | tools/fluffos_build_monitor.py:155-176 | "error: x" is critical and is not noise |
| BuildMonitor.DeriveStateWhileRunning | tools/fluffos_build_monitor.py:222-236 | while running, a critical error means FAILED; otherwise the progress bands 30/50/80/100 choose the state |
| BuildMonitor.DeriveStateWhenDone | tools/fluffos_build_monitor.py:214-220 | a finished build is COMPLETED or FAILED, and FAILED only with errors and progress below 100 |
| BuildMonitor.AfterWait | tools/fluffos_build_monitor.py:334-343 | the interval index stays within the six wait intervals |
| BuildMonitor.IdleCycles | tools/fluffos_build_monitor.py:297-343 | any number of idle check-and-wait cycles keeps the interval index in range |
| BuildMonitor.IdleCyclesIndex | tools/fluffos_build_monitor.py:297-343 | from a fresh schedule, n idle cycles leave the index at n-2, capped at the slowest interval |
| BuildMonitor.ActivityResets | tools/fluffos_build_monitor.py:297-299 | one active check resets the schedule to the fastest interval and a zero idle count |
| BuildMonitor.StderrErrors | tools/fluffos_build_monitor.py:290-292 | stderr yields a critical error iff it is non-empty and mentions "error" in any case, and that error is stderr itself |
| BuildMonitor.Monitor.constructor | tools/fluffos_build_monitor.py:42-69 | a missing focus list falls back to http, rest and openapi; state STARTING, progress 0, nothing recorded, fastest interval |
| BuildMonitor.Monitor.ExtractPackageCompletions | tools/fluffos_build_monitor.py:134-146 | the returned packages are exactly the new completions and are appended to the built list |
| BuildMonitor.Monitor.FilterErrorsAndWarnings | tools/fluffos_build_monitor.py:148-210 | the loop returns what the as-written filter yields for the split, stripped, classified lines |
| BuildMonitor.Monitor.FilterErrorsAndWarningsUnique | tools/fluffos_build_monitor.py:148-210 | the corrected loop returns no duplicate and no already recorded error |
| BuildMonitor.Monitor.RecordSignals | tools/fluffos_build_monitor.py:312-314 | corrected: the found errors and warnings are appended to the recorded ones |
| BuildMonitor.Monitor.NoteStderr | tools/fluffos_build_monitor.py:290-292 | an stderr error is appended and sets FAILED; otherwise the state is kept |
| BuildMonitor.Monitor.NoteActivity | tools/fluffos_build_monitor.py:295-301 | activity resets the back-off, inactivity increments the idle count |
| BuildMonitor.Monitor.RaiseProgress | tools/fluffos_build_monitor.py:304-306 | the progress becomes the larger of the old progress and the extracted one, so it never decreases, not even after the "built target" milestone |
| BuildMonitor.Monitor.ObserveProgress | tools/fluffos_build_monitor.py:295-309 | the back-off follows the activity test, the progress only rises, and the new completions are appended to the built packages |
| BuildMonitor.Monitor.RecordErrors | tools/fluffos_build_monitor.py:290-314 | corrected: the stderr error and then the stdout errors and warnings that the corrected filter finds against everything recorded so far are appended; nothing recorded is lost |
| BuildMonitor.Monitor.ObserveOutput | tools/fluffos_build_monitor.py:288-317 | corrected: within the time limit the progress never decreases, the back-off follows the activity test, completions, the stderr error and the corrected filter's signals are appended, and the state is derived from the output, the new progress and the new errors |
| BuildMonitor.Monitor.CheckBuildStatus | tools/fluffos_build_monitor.py:267-332 | corrected: past the maximum duration only the state changes, to TIMEOUT; otherwise progress never decreases, built packages, errors and warnings only grow, and the state is derived from the output |
| BuildMonitor.Monitor.GetNextWaitInterval | tools/fluffos_build_monitor.py:334-343 | after more than two idle checks the index advances one step, capped; the wait returned is the interval at the index |
| Bytes.BigEndianRoundTrip | src/packages/websocket/ws_frame.cc:282-292 | reading back the big-endian bytes written for a value that fits gives the value |
| Bytes.ToBigEndianOfBigEndian | src/packages/websocket/ws_frame.cc:490-499 | writing back a value read from big-endian bytes gives the bytes |
| Bytes.XorTwice | src/packages/websocket/ws_frame.cc:294-308 | exclusive or with the same key twice is the identity |
| Bytes.XorBTwice | src/packages/websocket/ws_frame.cc:427-445 | masking a byte twice with the same key byte restores it |
| WsFrame.KeyBytesShifts | src/packages/websocket/ws_frame.cc:294-445 | the four mask bytes are the key's bytes, most significant first, as the shifts compute them |
| WsFrame.Mask | src/packages/websocket/ws_frame.cc:434-445 | masking keeps the length and xors byte i with key byte i mod 4 |
| WsFrame.MaskTwice | src/packages/websocket/ws_frame.cc:294-445 | unmasking with the key used to mask restores the payload (section 5.3 of RFC 6455) |
| WsFrame.Utf8Append | src/packages/websocket/ws_frame.cc:598-635 | two valid UTF-8 texts concatenate to a valid one |
| WsFrame.AsciiIsUtf8 | src/packages/websocket/ws_frame.cc:598-635 | bytes below 0x80 are always valid UTF-8 |
| WsFrame.BuildClosePayload | src/packages/websocket/ws_frame.cc:666-681 | code 0 gives an empty payload; otherwise the code and at most 123 reason bytes |
| WsFrame.CloseRoundTrip | src/packages/websocket/ws_frame.cc:637-681 | parsing a built close payload returns its code and reason (section 5.5.1 of RFC 6455) |
| WsFrame.CloseWithoutCode | src/packages/websocket/ws_frame.cc:637-681 | code 0 builds an empty payload, which parses as 1005 "no status" |
| WsFrame.HeaderSize | src/packages/websocket/ws_frame.cc:447-488 | the built header is exactly as long as `calculate_frame_overhead` (lines 865-877) says |
| WsFrame.EncodeFrame | src/packages/websocket/ws_frame.cc:392-417 | a refused payload gives no bytes; otherwise header plus payload of the computed overhead |
| WsFrame.LengthEncoding | src/packages/websocket/ws_frame.cc:447-488 | lengths below 126 use 7 bits, up to 65535 the 126 marker and 16 bits, otherwise 127 and 64 bits; the mask bit is the top bit |
| WsFrame.ValidateFrame | src/packages/websocket/ws_frame.cc:517-544 | a frame is valid iff its opcode is known, no reserved bit is set, a control frame is final and at most 125 bytes, and a text frame is UTF-8 |
| WsFrame.Take | src/packages/websocket/ws_frame.cc:93-97 | the bytes moved into the buffer fill it to the target or exhaust the input |
| WsFrame.ParseHeader | src/packages/websocket/ws_frame.cc:88-149 | on success the opcode is valid, a required mask is present and the stage advances; in the corrected step a control frame is also final and announces at most 125 bytes in its 7-bit length (section 5.5 of RFC 6455) |
| WsFrame.ParseExtendedLength | src/packages/websocket/ws_frame.cc:151-189 | the extended-length step keeps the state well formed and advances the stage on success |
| WsFrame.ParseMask | src/packages/websocket/ws_frame.cc:191-216 | the mask step keeps the state well formed and advances the stage on success |
| WsFrame.ParsePayload | src/packages/websocket/ws_frame.cc:218-254 | the payload step completes the frame once the whole payload is held, and otherwise takes all input |
| WsFrame.Step | src/packages/websocket/ws_frame.cc:32-67 | one loop iteration keeps the state well formed; a failed step never completes a frame |
| WsFrame.StepProgress | src/packages/websocket/ws_frame.cc:32-67 | a successful step consumes input or advances the stage, so the loop ends |
| WsFrame.Run | src/packages/websocket/ws_frame.cc:32-67 | parse succeeds iff the frame is complete |
| WsFrameLemmas.RunComplete | src/packages/websocket/ws_frame.cc:32-67 | parsing a complete frame stops at once |
| WsFrameLemmas.RunPayload | src/packages/websocket/ws_frame.cc:218-254 | with the whole payload at hand the payload stage completes the frame, unmasking it |
| WsFrameLemmas.RunMask | src/packages/websocket/ws_frame.cc:191-216 | with four key bytes at hand the mask stage reads the key and moves on |
| WsFrameLemmas.RunExtended | src/packages/websocket/ws_frame.cc:151-189 | a minimal extended length is read and the parser moves on |
| WsFrameLemmas.FirstByte | src/packages/websocket/ws_frame.cc:453-458 | the first byte carries FIN in its top bit and the opcode in its low nibble (read back by the parser at lines 104-109) |
| WsFrameLemmas.RunAfterLength | src/packages/websocket/ws_frame.cc:191-254 | after the length, the key (if any) and the payload complete the frame |
| WsFrameLemmas.HeaderStep | src/packages/websocket/ws_frame.cc:88-149 | the corrected header step reads two bytes and the fields they carry |
| WsFrameLemmas.RoundTripShort | src/packages/websocket/ws_frame.cc:32-488 | round trip for payloads below 126 bytes |
| WsFrameLemmas.RoundTripLong | src/packages/websocket/ws_frame.cc:32-488 | round trip for payloads of 126 bytes or more |
| WsFrameLemmas.ExtendedThenRest | src/packages/websocket/ws_frame.cc:151-254 | from after the header of a long frame to its end |
| WsFrameLemmas.RoundTrip | src/packages/websocket/ws_frame.cc:32-488 | the corrected parser reads back every built frame: it consumes exactly the encoding, whatever follows, and returns the opcode, FIN bit, key and payload |
| WsFrameLemmas.HeaderStepAsWritten | src/packages/websocket/ws_frame.cc:126-136 | as written, a 7-bit length leaves `bytes_needed_` at 2 |
| WsFrameLemmas.MaskedShortFrameIncomplete | src/packages/websocket/ws_frame.cc:126-216 | as written, no masked frame with a payload below 126 bytes is ever parsed |
| WsFrameLemmas.MaskStageStalls | src/packages/websocket/ws_frame.cc:191-216 | as written, the mask stage looks for the key two bytes too late and stalls |
| WsFrameLemmas.EmptyFrameIncomplete | src/packages/websocket/ws_frame.cc:32-254 | as written, an unmasked empty frame never completes when it ends the input; corrected, it does |
| WsFrameLemmas.LongPingAccepted | src/packages/websocket/ws_frame.cc:126-146 | as written, a ping announcing 200 bytes through the 16-bit length passes the header check; corrected, it is a protocol error |
| WsFrameLemmas.StepAbsorbs | src/packages/websocket/ws_frame.cc:32-67 | a corrected step that succeeds or waits has absorbed exactly the bytes it reports |
| WsFrameLemmas.ConsumedIsAbsorbed | src/packages/websocket/ws_frame.cc:32-67 | the corrected parser reports as consumed exactly the bytes taken into its state |
| WsFrameLemmas.IncompleteUndercounts | src/packages/websocket/ws_frame.cc:57-63 | as written, three buffered header bytes are reported as two, and the re-sent byte corrupts the length (the stream then advances by the reported count, lines 926-935) |
| WsParser.ReadBigEndian | src/packages/websocket/ws_frame.cc:282-292 | the shift loop reads the big-endian value of the bytes |
| WsParser.MaskBytes | src/packages/websocket/ws_frame.cc:294-308 | the unmask loop computes the masked payload |
| WsParser.FrameParser.constructor | src/packages/websocket/ws_frame.cc:22-28 | a new parser is fresh, with the given limits |
| WsParser.FrameParser.Parse | src/packages/websocket/ws_frame.cc:32-67 | result, consumed count and new state are those of the corrected state machine |
| WsParser.FrameParser.StepOnce | src/packages/websocket/ws_frame.cc:36-63 | one iteration performs the step of the current stage |
| WsParser.FrameParser.Fill | src/packages/websocket/ws_frame.cc:93-97 | bytes are appended to the buffer until it holds the target |
| WsParser.FrameParser.ParseHeader | src/packages/websocket/ws_frame.cc:88-149 | the header method performs the corrected header step |
| WsParser.FrameParser.ParseExtendedLength | src/packages/websocket/ws_frame.cc:151-189 | the method performs the extended-length step |
| WsParser.FrameParser.ParseMask | src/packages/websocket/ws_frame.cc:191-216 | the method performs the mask step |
| WsParser.FrameParser.ParsePayload | src/packages/websocket/ws_frame.cc:218-254 | the method performs the payload step |
| WsParser.FrameParser.HasCompleteFrame | src/packages/websocket/ws_frame.h:107 | true iff the frame is complete |
| WsParser.FrameParser.Reset | src/packages/websocket/ws_frame.cc:80-86 | the parser is fresh again, settings kept |
| WsParser.FrameParser.TakeFrame | src/packages/websocket/ws_frame.cc:74-78 | returns the current frame and resets the parser |
| WsBuilder.WriteBigEndian | src/packages/websocket/ws_frame.cc:490-499 | appends the value's bytes, most significant first |
| WsBuilder.MaskPayloadInPlace | src/packages/websocket/ws_frame.cc:434-445 | the array becomes the masked payload |
| WsBuilder.BuildHeader | src/packages/websocket/ws_frame.cc:447-488 | the header loop writes the header encoding |
| WsBuilder.FrameBuilder.constructor | src/packages/websocket/ws_frame.cc:314-319 | with automatic masking the generated key is kept, else 0 |
| WsBuilder.FrameBuilder.BuildFrame | src/packages/websocket/ws_frame.cc:392-417 | builds the frame encoding, empty for a refused payload |
| WsBuilder.FrameBuilder.BuildFrameOf | src/packages/websocket/ws_frame.cc:387-390 | builds the encoding of a frame's fields |
| WsBuilder.FrameBuilder.MaskingOf | src/packages/websocket/ws_frame.cc:323-336 | a frame is masked when asked for or when masking is automatic, with the given or the builder's key |
| WsBuilder.FrameBuilder.BuildTextFrame | src/packages/websocket/ws_frame.cc:323-329 | a text frame of the payload |
| WsBuilder.FrameBuilder.BuildBinaryFrame | src/packages/websocket/ws_frame.cc:331-336 | a binary frame of the payload |
| WsBuilder.FrameBuilder.BuildContinuationFrame | src/packages/websocket/ws_frame.cc:380-385 | a continuation frame of the payload |
| WsBuilder.FrameBuilder.BuildCloseFrame | src/packages/websocket/ws_frame.cc:338-356 | a final close frame carrying the close payload of the code and reason |
| WsBuilder.FrameBuilder.BuildPingFrame | src/packages/websocket/ws_frame.cc:358-367 | a final ping frame; a payload over 125 bytes gives nothing |
| WsBuilder.FrameBuilder.BuildPongFrame | src/packages/websocket/ws_frame.cc:369-378 | a final pong frame; a payload over 125 bytes gives nothing |
| WsStream.Cleared | src/packages/websocket/ws_frame.cc:945-948 | clearing drops pending fragments and the fragmented flag, and keeps the parser |
| WsStream.FragmentOrderKept | src/packages/websocket/ws_frame.cc:958-1012 | adding a fragment keeps the pending fragments in the order `validate_fragment_sequence` demands, a data opcode first and continuations after; a continuation with nothing pending, or a data frame while fragments are pending, is refused |
| WsStream.WithFragment | src/packages/websocket/ws_frame.cc:958-978 | an accepted fragment is appended and the total stays within the maximum message size; a refused one leaves or clears the pending list |
| WsStream.Reassembled | src/packages/websocket/ws_frame.cc:980-1002 | reassembly clears the pending fragments, or leaves an empty state as it is |
| WsStream.Deliver | src/packages/websocket/ws_frame.cc:908-925 | delivering a complete frame never touches the parser |
| WsStream.Advance | src/packages/websocket/ws_frame.cc:900-939 | corrected: one pass keeps the parser well formed and, unless it stops, consumes input |
| WsStream.Feed | src/packages/websocket/ws_frame.cc:900-939 | corrected: process_data keeps the parser well formed |
| WsStream.FeedPass | src/packages/websocket/ws_frame.cc:900-939 | corrected: process_data is one pass followed by process_data on the rest |
| WsStream.DeliverAll | src/packages/websocket/ws_frame.cc:908-925 | delivering whole frames in turn never touches the parser |
| WsStream.FeedEncodings | src/packages/websocket/ws_frame.cc:900-939 | corrected: feeding the encodings of frames delivers exactly what delivering the frames would |
| WsStream.EncodingNonEmpty | src/packages/websocket/ws_frame.cc:447-488 | a sendable frame encodes to at least its two header bytes |
| WsStream.WholeFramesPassThrough | src/packages/websocket/ws_frame.cc:908-925 | whole messages and control frames pass through unchanged |
| WsStream.SumLengthsOfFragments | src/packages/websocket/ws_frame.cc:950-956 | the announced lengths of fragments add up to their bytes |
| WsStream.FragmentPrefixFits | src/packages/websocket/ws_frame.cc:958-978 | every prefix of a message's fragments fits a stream that fits the message |
| WsStream.DeliverRemainingFragments | src/packages/websocket/ws_frame.cc:908-1002 | delivering the rest of a message's fragments yields the joined message and clears the pending list |
| WsStream.FragmentsReassembled | src/packages/websocket/ws_frame.cc:958-1002 | a fragmented message delivered to a reassembling stream arrives as one final frame holding the whole message (the message split as `fragment_message` does at lines 683-721) |
| WsStream.MessageArrivesWhole | src/packages/websocket/ws_frame.cc:900-1002 | corrected: end to end, the encoded fragments of a message fed to a fresh stream arrive as the whole message (the message split as `fragment_message` does at lines 683-721) |
| WsStream.FrameStream.constructor | src/packages/websocket/ws_frame.cc:892-896 | a fresh parser, nothing pending, the given limits |
| WsStream.FrameStream.ClearFragments | src/packages/websocket/ws_frame.cc:945-948 | the state becomes the cleared state |
| WsStream.FrameStream.GetFragmentedMessageSize | src/packages/websocket/ws_frame.cc:950-956 | the loop sums the pending fragments' lengths |
| WsStream.FrameStream.AddFragment | src/packages/websocket/ws_frame.cc:958-978 | the method makes the fragment update |
| WsStream.FrameStream.ReassembleFragments | src/packages/websocket/ws_frame.cc:980-1002 | the loop joins the pending payloads in order and clears them |
| WsStream.FrameStream.DeliverFrame | src/packages/websocket/ws_frame.cc:908-925 | the method handles one complete frame |
| WsStream.FrameStream.ProcessOnce | src/packages/websocket/ws_frame.cc:904-936 | corrected: the method makes one pass of the loop |
| WsStream.FrameStream.ProcessData | src/packages/websocket/ws_frame.cc:900-939 | corrected: the frames returned and the new state are those of process_data |
| WsUtils.IsValidUtf8 | src/packages/websocket/ws_frame.cc:598-635 | the loop accepts exactly the valid UTF-8 sequences |
| WsUtils.Utf8At | src/packages/websocket/ws_frame.cc:598-635 | a suffix is valid iff its lead byte's group is complete and the rest is valid |
| WsUtils.FragmentMessage | src/packages/websocket/ws_frame.cc:683-721 | the fragments carry the message in pieces of at most the limit, the first with the opcode, the rest continuations, only the last final |
| WsUtils.ReassembleMessage | src/packages/websocket/ws_frame.cc:723-762 | succeeds iff the fragment sequence is well formed, with the joined payloads |
| WsUtils.ReassembleFragments | src/packages/websocket/ws_frame.cc:683-762 | reassembling a message's fragments gives the message back |
| MqttMessage.Levels | src/packages/mqtt/mqtt_message.cc:344-356 | the levels contain no '/', and an empty text has no levels |
| MqttMessage.TopicMatches | src/packages/mqtt/mqtt_message.cc:336-385 | the matching loop decides the level-matching relation |
| MqttMessage.HashMatchesAll | src/packages/mqtt/mqtt_message.cc:340-342 | the filter "#" matches every topic |
| MqttMessage.TrailingHashMatchesBelow | src/packages/mqtt/mqtt_message.cc:364-382 | a trailing "#" level matches its parent level and everything below (section 4.7.1.2 of MQTT 3.1.1) |
| MqttMessage.PlusTakesOneLevel | src/packages/mqtt/mqtt_message.cc:366-369 | "+" matches iff there is a level for it and the rest matches |
| MqttMessage.PlainLevelsMatchIffEqual | src/packages/mqtt/mqtt_message.cc:360-384 | without wildcard levels, filter levels match exactly equal topic levels |
| MqttMessage.PlainFilterMatchesIffSameLevels | src/packages/mqtt/mqtt_message.cc:344-384 | a wildcard-free filter matches a topic iff their '/'-split levels are equal |
| MqttMessage.PublishTopicRule | src/packages/mqtt/mqtt_message.cc:387-394 | a publish topic is valid iff non-empty, at most 65535 characters and free of '+' and '#' |
| MqttMessage.SubscribeFilterRule | src/packages/mqtt/mqtt_message.cc:396-414 | a filter is valid iff non-empty, short enough, and every '#' is its last character and follows '/' or stands alone |
| MqttMessage.PublishTopicIsFilter | src/packages/mqtt/mqtt_message.cc:387-414 | a valid publish topic is a valid filter and matches itself (the filter check is `is_valid_topic_name` at lines 135-152) |
| MqttMessage.CharErrorNone | src/packages/mqtt/mqtt_message.cc:93-102 | the character scan finds nothing iff no '+', '#' or NUL follows |
| MqttMessage.TopicErrorIffInvalid | src/packages/mqtt/mqtt_message.cc:81-105 | validate_topic passes iff the topic is a valid publish topic without NUL |
| MqttMessage.MessageValidRule | src/packages/mqtt/mqtt_message.cc:67-129 | is_valid holds iff the topic is publishable, the QoS is 0 or 1 and the payload fits |
| MqttMessage.Message.constructor | src/packages/mqtt/mqtt_message.cc:17-23 | the QoS is stored as given; dup off, packet id 0, no error |
| MqttMessage.Message.SetQos | src/packages/mqtt/mqtt_message.cc:41-45 | values outside 0..2 are ignored |
| MqttMessage.Message.SetPayload | src/packages/mqtt/mqtt_message.cc:31-34 | a text payload |
| MqttMessage.Message.SetBinaryPayload | src/packages/mqtt/mqtt_message.cc:296-298 | a binary payload (through `set_payload`, lines 36-39) |
| MqttMessage.Message.ValidateTopic | src/packages/mqtt/mqtt_message.cc:81-105 | succeeds iff no topic error; on failure records that error |
| MqttMessage.Message.ValidateQos | src/packages/mqtt/mqtt_message.cc:107-120 | succeeds iff the QoS is 0 or 1; QoS 2 is refused as unsupported |
| MqttMessage.Message.ValidatePayload | src/packages/mqtt/mqtt_message.cc:122-129 | succeeds iff the payload is within 268435455 bytes |
| MqttMessage.Message.IsValid | src/packages/mqtt/mqtt_message.cc:67-75 | clears the error, then reports the first failing check |
| MqttMessage.HexChar | src/packages/mqtt/mqtt_message.cc:458 | each printed digit is a hex digit |
| MqttMessage.HexValueOfChar | src/packages/mqtt/mqtt_message.cc:458-475 | reading back a printed digit gives its value |
| MqttMessage.HexEncode | src/packages/mqtt/mqtt_message.cc:449-462 | two hex digits per byte |
| MqttMessage.BinaryToHex | src/packages/mqtt/mqtt_message.cc:449-462 | the loop writes the hex encoding |
| MqttMessage.HexToBinary | src/packages/mqtt/mqtt_message.cc:464-483 | succeeds iff the pair-by-pair decode does, with its bytes |
| MqttMessage.HexDecodeExtends | src/packages/mqtt/mqtt_message.cc:472-480 | a failing pair fails the whole decode |
| MqttMessage.HexRoundTrip | src/packages/mqtt/mqtt_message.cc:449-483 | decoding the hex of any bytes gives them back |
| MqttMessage.OddHexRejected | src/packages/mqtt/mqtt_message.cc:465-467 | odd-length text is refused |
| MqttMessage.NonHexAccepted | src/packages/mqtt/mqtt_message.cc:473-476 | the lenient `stoul` pair parse lets "0g" through as 0 and "-1" as 255 |
| MqttMessage.StrictHexAccepts | src/packages/mqtt/mqtt_message.cc:464-483 | a strict reference decoder accepts exactly even-length hex text |
| MqttMessage.StrictHexRoundTrip | src/packages/mqtt/mqtt_message.cc:449-483 | the strict decoder inverts the encoder |
| MqttMessage.Enqueued | src/packages/mqtt/mqtt_message.cc:538-547 | an accepted message goes to the end of the order; a refused one changes nothing; corrected, refusal iff the whole queue is full |
| MqttMessage.PriorityEnqueued | src/packages/mqtt/mqtt_message.cc:596-605 | refused iff the queue is full; otherwise ahead of every regular message, behind earlier priority ones |
| MqttMessage.Dequeued | src/packages/mqtt/mqtt_message.cc:549-567 | the first message in order, priority lane first; nothing from an empty queue |
| MqttMessage.BoundKept | src/packages/mqtt/mqtt_message.cc:538-605 | with the corrected enqueue no operation exceeds the bound |
| MqttMessage.EnqueueOverfills | src/packages/mqtt/mqtt_message.cc:541-599 | as written, a queue of size 1 holds two messages after a priority and a regular enqueue |
| MqttMessage.MessageQueue.constructor | src/packages/mqtt/mqtt_message.cc:532 | an empty queue with the given bound |
| MqttMessage.MessageQueue.Enqueue | src/packages/mqtt/mqtt_message.cc:538-547 | performs the corrected enqueue |
| MqttMessage.MessageQueue.EnqueuePriority | src/packages/mqtt/mqtt_message.cc:596-605 | performs the priority enqueue |
| MqttMessage.MessageQueue.Dequeue | src/packages/mqtt/mqtt_message.cc:549-567 | returns the next message, priority first |
| MqttMessage.MessageQueue.Size | src/packages/mqtt/mqtt_message.cc:569-572 | both lanes counted |
| MqttMessage.MessageQueue.Empty | src/packages/mqtt/mqtt_message.cc:574-577 | true iff both lanes are empty |
| MqttMessage.MessageQueue.Full | src/packages/mqtt/mqtt_message.cc:579-582 | true iff both lanes together reach the bound |
| MqttMessage.MessageQueue.Clear | src/packages/mqtt/mqtt_message.cc:584-594 | both lanes emptied |
| RestAuth.Value | src/packages/rest/rest_auth.cc:49-66 | the decode table gives every character a value in -1..63 |
| RestAuth.ValueOfDigit | src/packages/rest/rest_auth.cc:19-66 | the decode table inverts the encoding alphabet |
| RestAuth.Padding | src/packages/rest/rest_auth.cc:38-40 | the '=' padding brings the length to a multiple of four with fewer than four characters |
| RestAuth.PaddingGap | src/packages/rest/rest_auth.cc:38-40 | that padding is the only such count |
| RestAuth.Encode | src/packages/rest/rest_auth.cc:18-43 | the encoding has a length divisible by four |
| RestAuth.EncodeAt | src/packages/rest/rest_auth.cc:25-40 | each character is the digit of the matching six bits of the input, then '=' |
| RestAuth.EncodeAlphabet | src/packages/rest/rest_auth.cc:19-40 | only alphabet characters and '=' appear |
| RestAuth.EncodeLength | src/packages/rest/rest_auth.cc:18-43 | the length is four characters per started group of three bytes (section 4 of RFC 4648) |
| RestAuth.EmitDigits | src/packages/rest/rest_auth.cc:28-31 | the inner loop emits the pending six-bit digits and leaves fewer than six bits |
| RestAuth.Base64Encode | src/packages/rest/rest_auth.cc:18-43 | the bit-accumulator loop computes the group-by-group encoding |
| RestAuth.PadToQuad | src/packages/rest/rest_auth.cc:38-40 | the padding loop appends exactly the padding |
| RestAuth.DigitRun | src/packages/rest/rest_auth.cc:71-72 | decoding reads alphabet characters up to the first other one |
| RestAuth.Base64Decode | src/packages/rest/rest_auth.cc:48-82 | the bit-accumulator loop computes the reference decoding |
| RestAuth.TriOfQuad | src/packages/rest/rest_auth.cc:26-76 | four digits of three bytes decode back to those bytes |
| RestAuth.RoundTrip | src/packages/rest/rest_auth.cc:18-82 | decoding an encoding gives the input bytes back |
| RestAuth.StopsAtFirstInvalid | src/packages/rest/rest_auth.cc:72 | everything from the first non-alphabet character (padding included) is ignored |
| Rest.Step | src/packages/rest/rest.cc:35-52 | one character only extends the regex and the name list |
| Rest.PatternToRegex | src/packages/rest/rest.cc:29-57 | the regex starts with '^' and ends with '$', and the names passed in are kept as a prefix |
| Rest.RestPatternToRegex | src/packages/rest/rest.cc:29-57 | the character loop computes the translation |
| Rest.RunLiteral | src/packages/rest/rest.cc:44-51 | text outside parameters is copied with regex metacharacters backslash-escaped |
| Rest.RunParam | src/packages/rest/rest.cc:35-41 | a `{name}` adds `([^/]+)` to the regex and its name to the list |
| Rest.RunPieces | src/packages/rest/rest.cc:34-53 | a well-formed pattern adds the pieces' regexes in order and their names in order of appearance |
| Rest.PatternTranslation | src/packages/rest/rest.cc:29-57 | the regex of a well-formed pattern is '^', each piece's regex, '$'; the names are appended in order |
| Rest.EscapeRoundTrip | src/packages/rest/rest.cc:46-51 | removing the backslashes gives the literal text back |
| Rest.StrayCloseBrace | src/packages/rest/rest.cc:39-41 | a '}' with no '{' before it still appends a name, the empty one |
| Rest.StrayCloseBraceRepeatsName | src/packages/rest/rest.cc:39-41 | a second '}' after a parameter appends that parameter's name again |
| Rest.Decode20 | src/packages/rest/rest.cc:116-120 | replacing "%20" never lengthens the value |
| Rest.DecodeSpaces | src/packages/rest/rest.cc:116-120 | the find-and-replace loop turns every "%20" (scanning left to right) into a space |
| Rest.Decode20RoundTrip | src/packages/rest/rest.cc:116-120 | decoding undoes the encoding of spaces as "%20" in text without '%' |
| Rest.KeyOf | src/packages/rest/rest.cc:110-113 | a pair has a key iff it contains '=' |
| Rest.RestParseQueryString | src/packages/rest/rest.cc:99-136 | the pair loop computes the reference mapping |
| Rest.AddPairsKeys | src/packages/rest/rest.cc:109-133 | the keys are those of the pairs containing '=' |
| Rest.AddPairsLastWins | src/packages/rest/rest.cc:128-129 | the last pair with a key sets its value |
| Rest.AddPairsUntouched | src/packages/rest/rest.cc:110-111 | pairs without '=' leave the mapping unchanged |
| Rest.NoEqualsNoParams | src/packages/rest/rest.cc:102-111 | a query without '=' gives an empty mapping |
| RestRouter.ValidateRoutePattern | src/packages/http/rest/rest_router.cc:233-252 | holds iff the pattern starts with '/' and its braces balance without the count going negative |
| RestRouter.Normalize | src/packages/http/rest/rest_router.cc:258-267 | one trailing '/' is dropped unless the pattern is "/"; nothing else changes |
| RestRouter.NormalizeKeepsValid | src/packages/http/rest/rest_router.cc:29-267 | normalising a valid pattern keeps it valid |
| RestRouter.NormalizeRoot | src/packages/http/rest/rest_router.cc:258-267 | "/" stays "/" and "/api/users/" becomes "/api/users" |
| RestRouter.ExtractParameterNames | src/packages/http/rest/rest_router.cc:211-231 | the brace-to-brace scan computes the reference name list |
| RestRouter.TakeParam | src/packages/http/rest/rest_router.cc:216-228 | a `{name}` contributes its name, with a trailing '?' stripped, before the names after it |
| RestRouter.SkipLiteral | src/packages/http/rest/rest_router.cc:216-219 | text without braces contributes no names |
| RestRouter.NamesAgree | src/packages/http/rest/rest_router.cc:211-231 | on a well-formed pattern the names are those the REST package's regex translation collects, each with its optional marker stripped |
| RestRouter.RouteAdded | src/packages/http/rest/rest_router.cc:20-49 | an invalid method or pattern sets the error and changes no route; otherwise the id is taken from the counter, and a compiled route is appended with the normalised pattern and its names |
| RestRouter.AddFailureKeepsRoutes | src/packages/http/rest/rest_router.cc:24-45 | a refused route leaves the table unchanged; the id is consumed only once method and pattern are valid |
| RestRouter.AddKeepsIdsAscending | src/packages/http/rest/rest_router.cc:35-47 | route ids stay strictly increasing and below the next id |
| RestRouter.RemoveWhere | src/packages/http/rest/rest_router.cc:51-81 | the erase-if keeps exactly the unselected routes, in order |
| RestRouter.RemoveKeepsIdsAscending | src/packages/http/rest/rest_router.cc:51-81 | removal keeps ids strictly increasing |
| RestRouter.RouteRemovedById | src/packages/http/rest/rest_router.cc:51-64 | true iff a route has the id, which is then gone; otherwise only the error changes |
| RestRouter.RouteRemovedByPattern | src/packages/http/rest/rest_router.cc:66-81 | true iff a route has the method and normalised pattern; those are removed |
| RestRouter.Cleared | src/packages/http/rest/rest_router.cc:83-86 | no routes and the next id back to 1 |
| RestRouter.MiddlewareAdded | src/packages/http/rest/rest_router.cc:269-277 | an empty name or function is refused with an error; otherwise the name maps to the function |
| RestRouter.MiddlewareRemoved | src/packages/http/rest/rest_router.cc:279-288 | true iff the name was present, which is then gone |
| RestRouter.MiddlewareAddRemove | src/packages/http/rest/rest_router.cc:269-288 | adding a new middleware and removing it restores the router |
| RestRouter.FindRoute | src/packages/http/rest/rest_router.cc:438-450 | finds a route with the id, and nothing iff there is none |
| RestRouter.RestRouterObject.constructor | src/packages/http/rest/rest_router.cc:12-14 | an empty router whose next id is 1 |
| RestRouter.RestRouterObject.AddRoute | src/packages/http/rest/rest_router.cc:20-49 | performs `RouteAdded`, keeping ids ascending |
| RestRouter.RestRouterObject.RemoveRoute | src/packages/http/rest/rest_router.cc:51-64 | performs `RouteRemovedById` |
| RestRouter.RestRouterObject.RemoveRouteMatching | src/packages/http/rest/rest_router.cc:66-81 | performs `RouteRemovedByPattern` |
| RestRouter.RestRouterObject.ClearAllRoutes | src/packages/http/rest/rest_router.cc:83-86 | performs `Cleared` |
| RestRouter.RestRouterObject.AddMiddleware | src/packages/http/rest/rest_router.cc:269-277 | performs `MiddlewareAdded` |
| RestRouter.RestRouterObject.RemoveMiddleware | src/packages/http/rest/rest_router.cc:279-288 | performs `MiddlewareRemoved` |
| RestRouter.RestRouterObject.GetRouteInfo | src/packages/http/rest/rest_router.cc:438-450 | the route with the id, if any |
| RestValidation.CountedFrom | src/packages/http/rest/rest_validation.cc:73-111 | only braces and brackets reach the counters |
| RestValidation.LexConcat | src/packages/http/rest/rest_validation.cc:73-111 | the scan over two pieces is the scan of the second from the state the first leaves |
| RestValidation.QuotedIgnored | src/packages/http/rest/rest_validation.cc:86-93 | a quoted string contributes nothing to the verdict |
| RestValidation.EscapeIgnored | src/packages/http/rest/rest_validation.cc:76-84 | a backslash and the character after it contribute nothing |
| RestValidation.UnterminatedStringFails | src/packages/http/rest/rest_validation.cc:86-113 | text that ends inside a string fails |
| RestValidation.OverClosedStaysInvalid | src/packages/http/rest/rest_validation.cc:99-108 | once a count goes negative, no continuation makes the text valid |
| RestValidation.OverClosedPrefix | src/packages/http/rest/rest_validation.cc:99-108 | text with an over-closed prefix fails |
| RestValidation.SinglePairAccepted | src/packages/http/rest/rest_validation.cc:55-64 | a `key=value` with a non-empty key passes the query check |
| RestValidation.EmptyKeyRejected | src/packages/http/rest/rest_validation.cc:62-63 | a query whose first pair has an empty key fails |
| RestValidation.FirstMissing | src/packages/http/rest/rest_validation.cc:45-50 | the first parameter name absent from the parameters, or -1 iff all are present |
| RestValidation.RestValidator.constructor | src/packages/http/rest/rest_validation.cc:21 | basic validation level, no error |
| RestValidation.RestValidator.IsValidJson | src/packages/http/rest/rest_validation.cc:66-114 | the counter loop decides the balanced-outside-strings predicate, failing early on a negative count |
| RestValidation.RestValidator.ValidateRouteParameters | src/packages/http/rest/rest_validation.cc:42-53 | fails iff some route parameter is missing, naming the first missing one |
| RestValidation.RestValidator.ValidateJsonRequest | src/packages/http/rest/rest_validation.cc:23-40 | a content type without "application/json" or an unbalanced non-empty body is refused |
| RestValidation.RestValidator.SetValidationLevel | src/packages/http/rest/rest_validation.cc:116-118 | sets the level only |
| RestValidation.RestValidator.ClearError | src/packages/http/rest/rest_validation.cc:128-130 | clears the error only |
| RestHandler.IsValidJson | src/packages/sockets/rest_handler.cc:202-217 | holds iff the text is empty or its first and last characters are `{`/`}` or `[`/`]` |
| RestHandler.JsonBodyError | src/packages/sockets/rest_handler.cc:176-200 | an empty body passes; an oversized body and a body failing the shape check get their own messages |
| RestHandler.JsonShapeExamples | src/packages/sockets/rest_handler.cc:202-217 | "{}", "[]" and "" pass; "{]" and "x" fail |
| RestHandler.DetectContentType | src/packages/sockets/rest_handler.cc:219-241 | the lower-cased Content-Type is checked for json, then xml, form, text and multipart, in that order; no header gives unknown |
| RestHandler.ParseQueryParameters | src/packages/sockets/rest_handler.cc:153-174 | the pair loop adds the pairs of the query to the parameters and always succeeds |
| RestHandler.PairsAddedKeys | src/packages/sockets/rest_handler.cc:161-171 | the new keys are exactly those of pairs containing '=' |
| RestHandler.PairsAddedUntouched | src/packages/sockets/rest_handler.cc:162-163 | pairs without '=' are dropped |
| RestHandler.PairsAddedLastWins | src/packages/sockets/rest_handler.cc:169 | a later duplicate key overwrites an earlier one |
| RestHandler.QueryExample | src/packages/sockets/rest_handler.cc:161-171 | values are stored without percent-decoding |
| RestHandler.Escaped | src/packages/sockets/rest_handler.cc:426-441 | corrected: the escape of one character has no control characters and is the character itself iff it needs no escape |
| RestHandler.JsonEscaped | src/packages/sockets/rest_handler.cc:422-445 | corrected: no control character survives escaping, and nothing is shortened |
| RestHandler.EscapeJsonString | src/packages/sockets/rest_handler.cc:422-445 | the loop computes the corrected escape |
| RestHandler.EscapedAsWritten | src/packages/sockets/rest_handler.cc:435-436 | with signed `char` a byte of 128 or more is printed as "\uffff" followed by four more hex digits |
| RestHandler.JsonEscapedAsWritten | src/packages/sockets/rest_handler.cc:422-445 | on ASCII text the code as written agrees with the corrected escape |
| RestHandler.JsonEscapeRoundTrip | src/packages/sockets/rest_handler.cc:422-445 | a JSON reader recovers every character code from the corrected escape |
| RestHandler.HighByteMangledAsWritten | src/packages/sockets/rest_handler.cc:435-436 | as written, byte 0xC3 becomes "\uffffffc3", which a JSON reader reads as five other characters |
| RestHandler.NormalizeRoutePattern | src/packages/sockets/rest_handler.cc:310-324 | a leading '/' is ensured and one trailing '/' is dropped unless the result is "/" |
| RestHandler.NormalizeExamples | src/packages/sockets/rest_handler.cc:310-324 | "api/users/" becomes "/api/users"; "" and "/" become "/" |
| RestHandler.ParamNames | src/packages/sockets/rest_handler.cc:326-338 | the `{name}` names are non-empty and contain no '}' |
| RestHandler.ParamNamesExamples | src/packages/sockets/rest_handler.cc:326-338 | "/users/{id}" has the name "id"; an empty "{}" gives none |
| RestHandler.MaxId | src/packages/sockets/rest_handler.cc:243-268 | bounds every route id |
| RestHandler.RouteAddedAsWritten | src/packages/sockets/rest_handler.cc:243-268 | as written, a new route takes the id "number of routes + 1" |
| RestHandler.RouteAdded | src/packages/sockets/rest_handler.cc:243-268 | corrected: an invalid method or pattern, or a failed compile, is refused; otherwise a route with the normalised pattern, its names and a fresh id is appended |
| RestHandler.RouteAddedKeepsInvariant | src/packages/sockets/rest_handler.cc:243-268 | corrected: adding keeps route ids distinct |
| RestHandler.IndexOfId | src/packages/sockets/rest_handler.cc:597-609 | the first route with the id, or -1 iff none |
| RestHandler.IndexOfPattern | src/packages/sockets/rest_handler.cc:611-625 | the first route with the method and pattern, or -1 iff none |
| RestHandler.RouteRemovedById | src/packages/sockets/rest_handler.cc:597-609 | true iff a route with the id existed; exactly that route is removed |
| RestHandler.RouteRemovedByPattern | src/packages/sockets/rest_handler.cc:611-625 | true iff a route with the method and normalised pattern existed; one route is removed |
| RestHandler.RemovalKeepsWellFormed | src/packages/sockets/rest_handler.cc:597-625 | removal keeps every route well formed |
| RestHandler.DuplicateIdAsWritten | src/packages/sockets/rest_handler.cc:253 | add "/a", add "/b", remove 1, add "/c" gives two routes with id 2 |
| RestHandler.DistinctIdCorrected | src/packages/sockets/rest_handler.cc:253 | the same sequence gives distinct ids with the corrected assignment |
| RestHandler.ParamsOf | src/packages/sockets/rest_handler.cc:142-144 | the captured groups are stored under the route's parameter names |
| RestHandler.MatchIndex | src/packages/sockets/rest_handler.cc:128-151 | the first route whose method and pattern match, or -1 iff none |
| RestHandler.MatchOf | src/packages/sockets/rest_handler.cc:128-151 | no match iff no route matches; a match carries the route and its parameters |
| RestHandler.FirstMissing | src/packages/sockets/rest_handler.cc:452-459 | a parameter name missing from the path parameters, or none iff all are present |
| RestHandler.ParametersError | src/packages/sockets/rest_handler.cc:447-462 | no error iff validation is off or every route parameter is present; otherwise a missing one is named |
| RestHandler.MatchedParametersComplete | src/packages/sockets/rest_handler.cc:447-462 | the parameters of a matched route always pass validation (the route found as at lines 128-151) |
| RestHandler.WithCorsHeaders | src/packages/sockets/rest_handler.cc:412-420 | with CORS on the CORS headers are set and the rest kept; with CORS off nothing changes |
| RestHandler.Handler.constructor | src/packages/sockets/rest_handler.cc:17-45 | no routes, no middleware, CORS off, basic validation |
| RestHandler.Handler.AddRoute | src/packages/sockets/rest_handler.cc:243-268 | corrected: performs `RouteAdded`, recording the error on refusal |
| RestHandler.Handler.RemoveRoute | src/packages/sockets/rest_handler.cc:597-609 | corrected: performs `RouteRemovedById`; no route keeps the id |
| RestHandler.Handler.RemoveRouteByPattern | src/packages/sockets/rest_handler.cc:611-625 | performs `RouteRemovedByPattern` |
| RestHandler.Handler.ClearAllRoutes | src/packages/sockets/rest_handler.cc:627-629 | no routes, nothing else changed |
| RestHandler.Handler.FindMatchingRoute | src/packages/sockets/rest_handler.cc:128-151 | the loop finds `MatchOf` |
| RestHandler.Handler.ValidateRequestParameters | src/packages/sockets/rest_handler.cc:447-462 | fails iff `ParametersError` names a missing parameter, recording it |
| RestHandler.Handler.SetValidationLevel | src/packages/sockets/rest_handler.cc:447-451 | sets the level only |
| RestHandler.Handler.AddMiddleware | src/packages/sockets/rest_handler.cc:797-800 | the name maps to the function |
| RestHandler.Handler.RemoveMiddleware | src/packages/sockets/rest_handler.cc:802-804 | true iff the name was present; it is gone |
| RestHandler.Handler.MiddlewareChain | src/packages/sockets/rest_handler.cc:806-812 | lists exactly the registered names |
| RestHandler.Handler.EnableCors | src/packages/sockets/rest_handler.cc:771-778 | CORS on, nothing else changed |
| RestHandler.Handler.DisableCors | src/packages/sockets/rest_handler.cc:780-782 | CORS off, nothing else changed |
| HttpServer.PairValue | src/packages/http/http_server.cc:599-603 | a two-character `strtol` base-16 parse that consumes both characters gives a byte |
| HttpServer.DecodeStep | src/packages/http/http_server.cc:597-613 | at each position a complete escape becomes one byte, '+' becomes a space, anything else is copied |
| HttpServer.UrlDecode | src/packages/http/http_server.cc:593-616 | the index loop computes the reference decoding |
| HttpServer.HexDigit | src/packages/http/http_server.cc:580-586 | each printed digit is a hex digit with that value |
| HttpServer.Escaped | src/packages/http/http_server.cc:583-587 | alphanumerics and "-_.~" are copied; any other byte becomes '%' and two hex digits |
| HttpServer.UrlEncode | src/packages/http/http_server.cc:577-591 | the loop computes the reference encoding |
| HttpServer.EncodedAlphabet | src/packages/http/http_server.cc:577-591 | the encoding holds only unreserved characters, '%' and hex digits |
| HttpServer.ReservedNeverCopied | src/packages/http/http_server.cc:583-587 | a reserved character other than '%' never appears in the encoding |
| HttpServer.UrlRoundTrip | src/packages/http/http_server.cc:577-616 | decoding the encoding of any text gives the text back |
| HttpServer.SignedEscapeAccepted | src/packages/http/http_server.cc:601-603 | `strtol` lets a sign through: "%+5" decodes to byte 5 and "%-1" to byte 255 |
| HttpServer.Entity | src/packages/http/http_server.cc:623-630 | only '<', '>', '&', '"' and '\'' are replaced |
| HttpServer.HtmlEscape | src/packages/http/http_server.cc:618-634 | the loop computes the reference escape |
| HttpServer.HtmlEscapeSafe | src/packages/http/http_server.cc:618-634 | the output contains no '<', '>', '"' or '\'' |
| HttpServer.HtmlRoundTrip | src/packages/http/http_server.cc:618-634 | unescaping the five entities gives the input back |
| HttpServer.TrimBlankEnd | src/packages/http/http_server.cc:190-192 | trailing spaces and tabs are removed, and only those |
| HttpServer.TrimBlankStart | src/packages/http/http_server.cc:191 | leading spaces and tabs are removed, and only those |
| HttpServer.DigitRunEnd | src/packages/http/http_server.cc:207 | the digits `stoul` reads |
| HttpServer.SplitHeader | src/packages/http/http_server.cc:181-197 | a split header has a non-empty name of letters, digits, '-' and '_', and a value with no control character but tab and, char being signed, no byte from 0x80 up (the name and value checks are at lines 636-657) |
| HttpServer.StoreHeader | src/packages/http/http_server.cc:203-212 | the header is stored under its key; only content-length can fail, and only the length and keep-alive fields change besides |
| HttpServer.Stoul | src/packages/http/http_server.cc:207 | a converted length is always below 2^64, the range of `unsigned long` |
| HttpServer.StoulOfDigits | src/packages/http/http_server.cc:207 | a plain digit string reads as its decimal value when that is below 2^64, and fails (where `std::stoul` throws) otherwise |
| HttpServer.StoulOfNegated | src/packages/http/http_server.cc:207 | a '-' before such a digit string gives 2^64 minus its value, modulo 2^64 |
| HttpServer.StoulWithoutDigits | src/packages/http/http_server.cc:207 | the empty text and a lone sign fail, where `std::stoul` throws |
| HttpServer.ParseHeaderLine | src/packages/http/http_server.cc:180-215 | only headers, content length and keep-alive change |
| HttpServer.HeaderNamesLowerCased | src/packages/http/http_server.cc:199-203 | header names are stored lower-cased |
| HttpServer.BadHeaderLineRejected | src/packages/http/http_server.cc:181-197 | a line without ':' or with an invalid name is refused and changes nothing (the name check is at lines 636-646) |
| HttpServer.HeaderStored | src/packages/http/http_server.cc:180-215 | "Name: value" stores value under the lower-cased name |
| HttpServer.Words | src/packages/http/http_server.cc:152-157 | the words `>>` reads are non-empty |
| HttpServer.ParseUri | src/packages/http/http_server.cc:237-252 | refused iff the URI is empty or does not start with '/' |
| HttpServer.UriSplit | src/packages/http/http_server.cc:242-249 | the path is the decoded text before the first '?' and the query the raw text after it |
| HttpServer.ParseRequestLine | src/packages/http/http_server.cc:151-178 | success means a known method and version and a URI starting with '/' |
| HttpServer.ParseLinesFrom | src/packages/http/http_server.cc:87-105 | line parsing never touches the body or completion |
| HttpServer.FirstLineStep | src/packages/http/http_server.cc:89-98 | the first line is the request line; its failure stops with "Invalid HTTP request line" |
| HttpServer.HeaderLineStep | src/packages/http/http_server.cc:99-104 | later lines are headers; empty lines are skipped; a bad one stops parsing |
| HttpServer.ParseHeaderLines | src/packages/http/http_server.cc:87-105 | the line loop computes the reference parse |
| HttpServer.KeepAliveDefault | src/packages/http/http_server.cc:378-381 | without a Connection header, keep-alive holds iff the version is at least HTTP/1.1 |
| HttpServer.ParseBody | src/packages/http/http_server.cc:132-149 | with enough buffered bytes exactly `bytes_needed` of them become the body and are consumed; otherwise nothing changes |
| HttpServer.EmptyInputRejected | src/packages/http/http_server.cc:50-53 | empty input is refused and the buffer is unchanged |
| HttpServer.WaitsForBlankLine | src/packages/http/http_server.cc:74-78 | header parsing waits until "\r\n\r\n" is buffered |
| HttpServer.HeadersConsumed | src/packages/http/http_server.cc:107-129 | the header bytes and terminator are removed from the buffer; a request without a body is complete |
| HttpServer.BodyCompletes | src/packages/http/http_server.cc:138-145 | once `bytes_needed` bytes arrive the request completes with exactly those bytes as body |
| HttpServer.HttpHandler.constructor | src/packages/http/http_server.cc:18-43 | a fresh connection parsing headers with an empty buffer |
| HttpServer.HttpHandler.ParseBodyStep | src/packages/http/http_server.cc:132-149 | performs `ParseBody` |
| HttpServer.HttpHandler.ParseHeadersStep | src/packages/http/http_server.cc:73-130 | performs the header parse |
| HttpServer.HttpHandler.ProcessIncomingData | src/packages/http/http_server.cc:49-71 | performs the data step: size limit, then headers or body |
| HttpServer.HttpHandler.ResetRequestState | src/packages/http/http_server.cc:465-470 | a new request, parsing headers, nothing needed, an empty buffer |
| SocketOptionValidator.DefaultMetadata | src/packages/sockets/socket_option_validator.cc:666-864 | every entry is stored under its own option id; QoS is an integer option and peer verification a boolean one |
| SocketOptionValidator.ValidateInteger | src/packages/sockets/socket_option_validator.cc:202-277 | out-of-range values are refused with a suggestion; a QoS outside 0..2 and an invalid timeout are refused |
| SocketOptionValidator.ValidateString | src/packages/sockets/socket_option_validator.cc:279-400 | corrected: an accepted value is one of the listed values when a list exists; method, protocol, JWT-secret and client-id rules are enforced |
| SocketOptionValidator.ValidateBoolean | src/packages/sockets/socket_option_validator.cc:402-433 | refused iff peer verification is turned off in strict security mode, as a fatal security violation; asynchronous execution only warns |
| SocketOptionValidator.ValidateFloat | src/packages/sockets/socket_option_validator.cc:435-460 | accepted iff the option is known and the value is within its limits |
| SocketOptionValidator.ValidateContainer | src/packages/sockets/socket_option_validator.cc:462-513 | a mapping or array option is accepted iff a value is present |
| SocketOptionValidator.ValidateAccess | src/packages/sockets/socket_option_validator.cc:515-554 | with security on, accepted iff the option is known and the caller is trusted or has the option's and the category's level |
| SocketOptionValidator.FirstWhere | src/packages/sockets/socket_option_validator.cc:564-583 | the first listed option whose presence differs from what is wanted, or none iff all agree |
| SocketOptionValidator.ValidateDependencies | src/packages/sockets/socket_option_validator.cc:556-586 | accepted iff every required option is set and no conflicting one is, reporting the first offender |
| SocketOptionValidator.ValidateTyped | src/packages/sockets/socket_option_validator.cc:120-178 | corrected: the value must have the option's type and pass that type's check; mixed options always pass |
| SocketOptionValidator.ValidateInternal | src/packages/sockets/socket_option_validator.cc:86-200 | corrected: acceptance implies known option, access, socket mode, dependencies and the typed check all pass |
| SocketOptionValidator.QosOutOfRangeRejected | src/packages/sockets/socket_option_validator.cc:268-275 | a QoS whose 32-bit narrowing lies outside 0..2 is always refused |
| SocketOptionValidator.IntegerValueNarrowed | src/packages/sockets/socket_option_validator.cc:127 | an integer option's value is read into a 32-bit `int`, so values 2^32 apart validate alike |
| SocketOptionValidator.WideQosAccepted | src/packages/sockets/socket_option_validator.cc:127 | a QoS of 2^32 narrows to 0 and is accepted |
| SocketOptionValidator.StrictTlsVerifyPeer | src/packages/sockets/socket_option_validator.cc:408-418 | turning off peer verification in strict security mode is refused |
| SocketOptionValidator.HttpMethodAccepted | src/packages/sockets/socket_option_validator.cc:288-310 | with the length bounds ignored when zero, the method option accepts exactly the listed methods (the `HTTP_METHOD` case is at lines 340-353 and its metadata at lines 740-754) |
| SocketOptionValidator.HttpMethodRejectedAsWritten | src/packages/sockets/socket_option_validator.cc:288-296 | as written, the method metadata keeps the default length bounds 0..0, so "GET" is refused (the `HTTP_METHOD` metadata is at line 747) |
| SocketOptionValidator.UnsetBoundsRejectNonEmpty | src/packages/sockets/socket_option_validator.cc:288-296 | as written, string constraints whose length bounds were both left at 0 reject every non-empty string; the corrected length test rejects none |
| SocketOptionValidator.ValidateCachedAsWritten | src/packages/sockets/socket_option_validator.cc:63-84 | as written, the verdict is cached under a key that omits the value (the key is built at lines 607-614) |
| SocketOptionValidator.StaleVerdictAsWritten | src/packages/sockets/socket_option_validator.cc:63-84 | as written, a valid timeout's verdict is returned for a later invalid timeout (the key is built at lines 607-614) |
| SocketOptionValidator.Validator.constructor | src/packages/sockets/socket_option_validator.cc:19-24 | security on, the full metadata table, no trusted callers and an empty cache |
| SocketOptionValidator.Validator.Initialize | src/packages/sockets/socket_option_validator.cc:30-61 | sets security; installs the default category policy only when security is on |
| SocketOptionValidator.Validator.ValidateOption | src/packages/sockets/socket_option_validator.cc:63-84 | corrected: every answer, cached or not, equals a fresh validation; hits plus misses grow by one |
| SocketOptionValidator.Validator.SetSecurityEnabled | src/packages/sockets/socket_option_validator.h:247 | sets the flag only |
| SocketOptionValidator.Validator.AddTrustedCaller | src/packages/sockets/socket_option_validator.cc:660-662 | the caller becomes trusted |
| SocketOptionValidator.Validator.SetCategoryAccessPolicy | src/packages/sockets/socket_option_validator.h:249 | sets that category's level |
| SocketOptionValidator.Validator.RegisterOptionMetadata | src/packages/sockets/socket_option_validator.cc:866-868 | stores the metadata under its id |
| SocketOptionValidator.Validator.ClearValidationCache | src/packages/sockets/socket_option_validator.h:252 | empties the cache only |
| SocketOptionManager.Registration | src/packages/sockets/socket_option_manager.cc:393-456 | a registered option keeps its type, category, access and default; integer limits apply iff they differ |
| SocketOptionManager.DefaultDescriptors | src/packages/sockets/socket_option_manager.cc:32-391 | the table holds the options the core, HTTP, REST, WebSocket, MQTT, external, cache, database, TLS and internal registration functions register, and no others |
| SocketOptionManager.DefaultDescriptorsWellFormed | src/packages/sockets/socket_option_manager.cc:76-391 | every registered option is well formed, and its integer limits are ordered |
| SocketOptionManager.OptionType | src/packages/sockets/socket_option_manager.cc:549-552 | an unknown option has the mixed type |
| SocketOptionManager.OptionCategory | src/packages/sockets/socket_option_manager.cc:554-557 | an unknown option is in the core category |
| SocketOptionManager.AccessLevel | src/packages/sockets/socket_option_manager.cc:559-562 | an unknown option is public |
| SocketOptionManager.DefaultValue | src/packages/sockets/socket_option_manager.cc:915-925 | an unknown option defaults to undefined |
| SocketOptionManager.CallerAccess | src/packages/sockets/socket_option_manager.cc:812-828 | the driver is system, the socket owner is owner, anyone else public |
| SocketOptionManager.AccessOrder | src/packages/sockets/socket_option_manager.cc:805-810 | the driver may touch every non-read-only option; nobody may write a read-only one; public options are open to all; the owner may do whatever others may |
| SocketOptionManager.ValidateOptionValue | src/packages/sockets/socket_option_manager.cc:739-803 | accepted values have the option's type, integers lie within the limits, containers are present, mixed options always pass, unknown options are named |
| SocketOptionManager.Truncate | src/packages/sockets/socket_option_manager.cc:868-871 | a real is cut toward zero |
| SocketOptionManager.ConvertToType | src/packages/sockets/socket_option_manager.cc:846-913 | booleans become 0 or 1 (non-zero is 1), integers are kept, numbers become reals for float options, containers are untouched |
| SocketOptionManager.StoredValueTyped | src/packages/sockets/socket_option_manager.cc:458-491 | a validated value converts to a value of the option's type (the conversion is `convert_to_type`, lines 846-913) |
| SocketOptionManager.ModeFor | src/packages/sockets/socket_option_manager.cc:1042-1064 | exactly the seven protocol options switch on a mode |
| SocketOptionManager.ModesUpdated | src/packages/sockets/socket_option_manager.cc:1042-1064 | a protocol option switches its mode on; others change nothing |
| SocketOptionManager.SocketModeOf | src/packages/sockets/socket_option_manager.cc:1034-1040 | the stored socket mode number, or -1 |
| SocketOptionManager.OptionSet | src/packages/sockets/socket_option_manager.cc:458-491 | succeeds iff the option is known, a value is given, the caller may access it and it validates; the converted value is stored and modes updated; failure changes nothing |
| SocketOptionManager.SetOptionMeaning | src/packages/sockets/socket_option_manager.cc:458-491 | after a successful set the option holds a value of its type |
| SocketOptionManager.ProtocolSetsWebSocketMode | src/packages/sockets/socket_option_manager.cc:1042-1064 | setting the WebSocket protocol stores it and turns on WebSocket mode |
| SocketOptionManager.QosOutOfRangeRefused | src/packages/sockets/socket_option_manager.cc:927-947 | a QoS outside 0..2 is refused and nothing changes (the QoS bounds are registered at lines 176-196) |
| SocketOptionManager.OptionGot | src/packages/sockets/socket_option_manager.cc:493-519 | succeeds iff the option is known and accessible; gives the stored value or the default |
| SocketOptionManager.GetAfterSet | src/packages/sockets/socket_option_manager.cc:458-519 | reading after a successful set gives the converted value |
| SocketOptionManager.OptionRemoved | src/packages/sockets/socket_option_manager.cc:525-547 | true iff the option is known, accessible and set; it is then unset |
| SocketOptionManager.GetAfterRemove | src/packages/sockets/socket_option_manager.cc:493-547 | reading after a removal gives the default |
| SocketOptionManager.MappingChecked | src/packages/sockets/socket_option_manager.cc:581-590 | the first pass accepts iff every key is an option number with a valid value |
| SocketOptionManager.OptionsFromMapping | src/packages/sockets/socket_option_manager.cc:573-605 | no mapping, or one failing the first pass, changes nothing |
| SocketOptionManager.PoolSizeSet | src/packages/sockets/socket_option_manager.cc:220-229 | a database pool size is accepted iff it lies in 1..100, and then stored |
| SocketOptionManager.TlsFilesDriverOnly | src/packages/sockets/socket_option_manager.cc:247-259 | the TLS certificate and key files are system options: the driver may set them, no object may |
| SocketOptionManager.DeniedLaterEntryKeepsEarlier | src/packages/sockets/socket_option_manager.cc:592-602 | an entry refused in the second pass leaves the earlier entries set |
| SocketOptionManager.OptionManager.constructor | src/packages/sockets/socket_option_manager.cc:21-26 | the default descriptors and no options |
| SocketOptionManager.OptionManager.RegisterOption | src/packages/sockets/socket_option_manager.cc:393-411 | the descriptor is replaced; options unchanged |
| SocketOptionManager.OptionManager.SetOption | src/packages/sockets/socket_option_manager.cc:458-491 | performs `OptionSet`, recording its error |
| SocketOptionManager.OptionManager.GetOption | src/packages/sockets/socket_option_manager.cc:493-519 | performs `OptionGot`, recording its error |
| SocketOptionManager.OptionManager.RemoveOption | src/packages/sockets/socket_option_manager.cc:525-547 | performs `OptionRemoved` |
| SocketOptionManager.OptionManager.ClearAllOptions | src/packages/sockets/socket_option_manager.cc:650-658 | no options, descriptors kept |
| SocketOptionManager.OptionManager.SetOptionsFromMapping | src/packages/sockets/socket_option_manager.cc:573-605 | performs `OptionsFromMapping` |
| SocketErrorHandler.Classify | src/packages/sockets/socket_error_handler.cc:432-444 | codes 1000-1899 fall in the category of their hundreds; all others are internal |
| SocketErrorHandler.DetermineSeverity | src/packages/sockets/socket_error_handler.cc:446-478 | fatal, critical and warning codes are exactly the listed ones; everything else is an error |
| SocketErrorHandler.SuggestRecovery | src/packages/sockets/socket_error_handler.cc:480-517 | retry is suggested exactly for the timeout, connection-failure and DNS codes |
| SocketErrorHandler.Suggestion | src/packages/sockets/socket_error_handler.cc:654-677 | every code has a non-empty suggestion |
| SocketErrorHandler.NewError | src/packages/sockets/socket_error_handler.cc:58-71 | a reported error carries its code's category, severity, recovery and suggestion, the message, context and time |
| SocketErrorHandler.Bump | src/packages/sockets/socket_error_handler.cc:534-540 | one counter goes up by one, the others stay |
| SocketErrorHandler.Updated | src/packages/sockets/socket_error_handler.cc:534-540 | the total and the code, category and severity counters each go up by one |
| SocketErrorHandler.Aggregated | src/packages/sockets/socket_error_handler.cc:542-552 | a new code is stored; a repeated one counts another occurrence and takes the new time |
| SocketErrorHandler.Cached | src/packages/sockets/socket_error_handler.cc:86-90 | the error is appended and the oldest dropped when over the cache size |
| SocketErrorHandler.Recent | src/packages/sockets/socket_error_handler.cc:318-332 | all errors for a limit of 0 or one covering them; otherwise the last `limit` |
| SocketErrorHandler.RunHandler | src/packages/sockets/socket_error_handler.cc:562-603 | the default timeout handler succeeds, the others fail; a custom handler gives its own verdict |
| SocketErrorHandler.Backoff | src/packages/sockets/socket_error_handler.cc:311 | a delay after a doubling never exceeds 30 seconds |
| SocketErrorHandler.BackoffClosedForm | src/packages/sockets/socket_error_handler.cc:294-311 | the k-th delay is the base doubled k times, capped at 30 seconds |
| SocketErrorHandler.BackoffGrows | src/packages/sockets/socket_error_handler.cc:311 | delays never shrink |
| SocketErrorHandler.RetriedMeaning | src/packages/sockets/socket_error_handler.cc:292-316 | success iff some attempt up to the maximum succeeds; the retry count is the first such attempt |
| SocketErrorHandler.RetryOperation | src/packages/sockets/socket_error_handler.cc:292-316 | the attempt loop computes the reference retry, with the delays it waits |
| SocketErrorHandler.RecoveryAttempted | src/packages/sockets/socket_error_handler.cc:255-290 | counts an attempt; without a handler only fallback succeeds and none, reconnect and the rest fail |
| SocketErrorHandler.ErrorHandled | src/packages/sockets/socket_error_handler.cc:222-253 | recovery off fails; info and debug succeed untouched; an attempted error returns its earlier outcome; otherwise the outcome is recorded on the error |
| SocketErrorHandler.HandleTwice | src/packages/sockets/socket_error_handler.cc:233-236 | handling a handled error again changes nothing |
| SocketErrorHandler.ErrorReported | src/packages/sockets/socket_error_handler.cc:58-98 | reporting counts the error once and creates it with its classification |
| SocketErrorHandler.Recorded | src/packages/sockets/socket_error_handler.cc:73-90 | statistics, aggregation (when on) and the recent-error cache are updated |
| SocketErrorHandler.ReportKeepsCacheBound | src/packages/sockets/socket_error_handler.cc:86-90 | the cache never exceeds its size |
| SocketErrorHandler.ReportKeepsAggregationCounts | src/packages/sockets/socket_error_handler.cc:542-552 | aggregated entries keep their occurrence counts consistent |
| SocketErrorHandler.ConnectionFailedIsCritical | src/packages/sockets/socket_error_handler.cc:432-478 | a connection failure is a critical connection error with a suggestion |
| SocketErrorHandler.ValidationCode | src/packages/sockets/socket_error_handler.cc:106-133 | validation failures map to validation codes, except security violations, which map to insufficient privileges |
| SocketErrorHandler.ValidationErrorReported | src/packages/sockets/socket_error_handler.cc:100-156 | the reported error keeps the validator's suggestion, severity and socket |
| SocketErrorHandler.SystemCode | src/packages/sockets/socket_error_handler.cc:158-190 | known errno values get their own codes, EMFILE and ENFILE the descriptor limit; others are a failed system call |
| SocketErrorHandler.SystemErrorReported | src/packages/sockets/socket_error_handler.cc:158-208 | the message is "<operation> failed: <description>", with the errno and socket kept |
| SocketErrorHandler.ProtocolErrorReported | src/packages/sockets/socket_error_handler.cc:210-220 | the details become message and technical details; the context is "protocol_error" |
| SocketErrorHandler.ErrorHandler.constructor | src/packages/sockets/socket_error_handler.cc:17-34 | default configuration, zero statistics, the default handlers |
| SocketErrorHandler.ErrorHandler.Initialize | src/packages/sockets/socket_error_handler.cc:40-56 | installs the configuration; a non-negative cache size resets the statistics and succeeds; a negative one fails after the configuration is stored, keeping the statistics |
| SocketErrorHandler.ErrorHandler.SetState | src/packages/sockets/socket_error_handler.h:268-276 | stores a whole handler state: configuration, statistics, recent errors, aggregation and handlers |
| SocketErrorHandler.ErrorHandler.ReportError | src/packages/sockets/socket_error_handler.cc:58-98 | performs `ErrorReported` |
| SocketErrorHandler.ErrorHandler.ReportValidationError | src/packages/sockets/socket_error_handler.cc:100-156 | performs `ValidationErrorReported` |
| SocketErrorHandler.ErrorHandler.ReportSystemError | src/packages/sockets/socket_error_handler.cc:158-208 | performs `SystemErrorReported` |
| SocketErrorHandler.ErrorHandler.ReportProtocolError | src/packages/sockets/socket_error_handler.cc:210-220 | performs `ProtocolErrorReported` |
| SocketErrorHandler.ErrorHandler.HandleError | src/packages/sockets/socket_error_handler.cc:222-253 | performs `ErrorHandled` |
| SocketErrorHandler.ErrorHandler.GetRecentErrors | src/packages/sockets/socket_error_handler.cc:318-332 | the copy loop returns `Recent` |
| SocketErrorHandler.ErrorHandler.ClearErrorCache | src/packages/sockets/socket_error_handler.cc:338-341 | empties the recent errors and the aggregation only |
| SocketErrorHandler.ErrorHandler.ResetStatistics | src/packages/sockets/socket_error_handler.cc:343-345 | zeroes the statistics only |
| SocketErrorHandler.ErrorHandler.RegisterRecoveryHandler | src/packages/sockets/socket_error_handler.cc:347-350 | installs the handler for the code only |
| EventNotifier.ParseEventType | src/packages/external/event_notifier.cc:457-465 | a known name parses to the type with that name; anything else to "process ready" |
| EventNotifier.EventTypeNameRoundTrip | src/packages/external/event_notifier.cc:445-465 | parsing a type's name gives the type back |
| EventNotifier.EventTypeNamesDistinct | src/packages/external/event_notifier.cc:445-455 | different types have different names |
| EventNotifier.OptimalTimeout | src/packages/external/event_notifier.cc:483-491 | 100 ms iff nothing is pending, 1 ms iff ten or more are, else 10 ms |
| EventNotifier.OptimalTimeoutShrinks | src/packages/external/event_notifier.cc:483-491 | more pending events never lengthen the timeout |
| EventNotifier.ToU64 | src/packages/external/event_notifier.cc:370-373 | the exit code is stored as an unsigned 64-bit value, unchanged when non-negative |
| EventNotifier.Enqueued | src/packages/external/event_notifier.cc:259-267 | the event is appended; the oldest one is dropped first when the queue is at its maximum |
| EventNotifier.EnqueuedBounded | src/packages/external/event_notifier.cc:259-267 | within the maximum, the queue keeps the newest events up to the maximum |
| EventNotifier.LoweredMaximumNotRestored | src/packages/external/event_notifier.cc:261-264 | a queue already two over a lowered maximum stays over it, since only one event is dropped per signal |
| EventNotifier.Notifier.IsInitialized | src/packages/external/event_notifier.h:72 | true iff an eventfd is held |
| EventNotifier.Notifier.HasPendingEvents | src/packages/external/event_notifier.cc:183-185 | true iff events are queued |
| EventNotifier.Notifier.constructor | src/packages/external/event_notifier.cc:34-37 | no eventfd, nothing registered or queued, the default maximum |
| EventNotifier.Notifier.Initialize | src/packages/external/event_notifier.cc:43-66 | idempotent once initialised; a failed eventfd leaves everything; otherwise a clean state |
| EventNotifier.Notifier.Shutdown | src/packages/external/event_notifier.cc:68-82 | closes the eventfd and drops registrations and events |
| EventNotifier.Notifier.SignalEvent | src/packages/external/event_notifier.cc:84-106 | refused when uninitialised; otherwise the event is queued and the result is the eventfd write's |
| EventNotifier.Notifier.SignalSocketEvent | src/packages/external/event_notifier.cc:108-143 | refused for an unregistered socket; otherwise as `SignalEvent` with the socket |
| EventNotifier.Notifier.GetPendingEvents | src/packages/external/event_notifier.cc:169-181 | returns all queued events in order, empties the queue and counts them as processed |
| EventNotifier.Notifier.RegisterSocket | src/packages/external/event_notifier.cc:187-195 | a non-negative descriptor is added; a negative one is refused |
| EventNotifier.Notifier.UnregisterSocket | src/packages/external/event_notifier.cc:197-210 | the socket and its queued events are removed |
| EventNotifier.Notifier.UnregisterAllSockets | src/packages/external/event_notifier.cc:212-216 | no sockets and no events remain |
| EventNotifier.Notifier.EnableFileEventIntegration | src/packages/external/event_notifier.cc:218-222 | sets the flag and succeeds |
| EventNotifier.Notifier.SetMaxPendingEvents | src/packages/external/event_notifier.h:92 | sets the maximum without trimming the queue |
| EventNotifier.Notifier.CleanupOldEvents | src/packages/external/event_notifier.cc:269-280 | removes events older than 60 seconds, keeping the order of the rest |
| EventNotifier.UnregisterKeepsOthers | src/packages/external/event_notifier.cc:197-210 | unregistering one socket drops exactly its events and keeps every other socket's |
| EventNotifier.SignalLeavesOthers | src/packages/external/event_notifier.cc:259-267 | an event for one socket leaves another socket's queued events, when nothing is dropped |
| EventNotifier.SocketQueued | src/packages/external/event_notifier.cc:394-404 | the event is last and a socket never holds more than 100 events |
| EventNotifier.SocketQueuedKeepsNewest | src/packages/external/event_notifier.cc:394-404 | a socket keeps its newest 100 events |
| EventNotifier.FirstOf | src/packages/external/event_notifier.cc:425-433 | the first event of the drained batch for a socket |
| EventNotifier.DeliveryStep | src/packages/external/event_notifier.cc:419-437 | each drained event keeps the per-socket delivery invariant |
| EventNotifier.AsyncEventManager.constructor | src/packages/external/event_notifier.cc:28 | no per-socket events, over the process-wide notifier |
| EventNotifier.AsyncEventManager.QueueSocketEvent | src/packages/external/event_notifier.cc:394-404 | performs `SocketQueued` on the socket's list |
| EventNotifier.AsyncEventManager.HandleAsyncOption | src/packages/external/event_notifier.cc:305-319 | initialises the notifier on demand; enabling registers the socket, disabling unregisters it |
| EventNotifier.AsyncEventManager.CleanupSocketEvents | src/packages/external/event_notifier.cc:321-329 | the socket's events and registration are removed |
| EventNotifier.AsyncEventManager.DeliverAsyncEvents | src/packages/external/event_notifier.cc:331-342 | the first event of a batch is queued for the socket |
| EventNotifier.AsyncEventManager.SignalProcessExited | src/packages/external/event_notifier.cc:370-373 | queues an exit event carrying the code when the socket is registered with a running notifier, reporting the eventfd write; otherwise nothing is queued; other notifier fields are kept |
| EventNotifier.AsyncEventManager.SignalProcessError | src/packages/external/event_notifier.cc:354-368 | the error event with its message is queued on the socket's list, registered or not; the notifier queues it (without the message) only for a registered socket with a running notifier; other fields are kept |
| EventNotifier.AsyncEventManager.SignalFileChanged | src/packages/external/event_notifier.cc:375-392 | nothing changes before the notifier is initialised; after, the change event with its path is queued on the socket's list and, for a registered socket, on the notifier; other fields are kept |
| EventNotifier.AsyncEventManager.ProcessAsyncEvents | src/packages/external/event_notifier.cc:411-439 | once signalled, all pending events are drained and each socket receives the first of its batch |
| EventNotifier.AsyncEventManager.ExternalWaitForEvents | src/packages/external/event_notifier.cc:532-549 | -1 when uninitialised; otherwise drains all events and gives 1 iff one was for this socket |
| EventNotifier.AsyncEventManager.ExternalGetAsyncEvents | src/packages/external/event_notifier.cc:551-569 | returns this socket's pending events in order and drains all sockets' events |
| EventNotifier.AsyncEventManager.ExternalEnableAsyncNotifications | src/packages/external/event_notifier.cc:571-584 | 1 on success, -1 otherwise; the notifier is started on demand, an enabled socket is registered, a disabled one is unregistered and its pending events are dropped; other fields are kept |
| GraphQLSubscriptions.FirstContained | src/packages/graphql/graphql_subscription_manager.cc:284-289 | the first listed pattern the query contains, or none iff it contains none |
| GraphQLSubscriptions.SkipSpaces | src/packages/graphql/graphql_subscription_manager.cc:292 | `\s*` skips exactly the blanks |
| GraphQLSubscriptions.WordRun | src/packages/graphql/graphql_subscription_manager.cc:292 | `\w+` takes the longest run of word characters |
| GraphQLSubscriptions.FieldAt | src/packages/graphql/graphql_subscription_manager.cc:292-298 | a field found at a position follows "subscription" there and is a non-empty word |
| GraphQLSubscriptions.FieldFrom | src/packages/graphql/graphql_subscription_manager.cc:292-298 | the leftmost field found is a non-empty word |
| GraphQLSubscriptions.NoFieldWithoutKeyword | src/packages/graphql/graphql_subscription_manager.cc:292-298 | without "subscription" in the text no field is found |
| GraphQLSubscriptions.ExtractEventType | src/packages/graphql/graphql_subscription_manager.cc:271-303 | never empty; the first contained pattern wins; otherwise a field name or "subscription" |
| GraphQLSubscriptions.DefaultEventTypeWhenNothingMatches | src/packages/graphql/graphql_subscription_manager.cc:300-302 | with no pattern and no "subscription" keyword the type is "subscription" |
| GraphQLSubscriptions.Unlisted | src/packages/graphql/graphql_subscription_manager.cc:80-104 | the id leaves its list, and a list left empty is dropped |
| GraphQLSubscriptions.Created | src/packages/graphql/graphql_subscription_manager.cc:32-66 | the subscription is stored with its socket and extracted type, and its id appended to both lists |
| GraphQLSubscriptions.CreatedValid | src/packages/graphql/graphql_subscription_manager.cc:32-66 | creating a fresh id keeps the three tables consistent |
| GraphQLSubscriptions.Removed | src/packages/graphql/graphql_subscription_manager.cc:68-112 | false and nothing changed iff the id is unknown; otherwise it is gone |
| GraphQLSubscriptions.RemovedValid | src/packages/graphql/graphql_subscription_manager.cc:68-112 | removal keeps the tables consistent and the id in no list |
| GraphQLSubscriptions.RemovedSubsListed | src/packages/graphql/graphql_subscription_manager.cc:68-112 | every remaining subscription is still listed |
| GraphQLSubscriptions.Registered | src/packages/graphql/graphql_subscription_manager.cc:200-207 | the socket gets a list; an existing one is kept |
| GraphQLSubscriptions.RegisteredTwice | src/packages/graphql/graphql_subscription_manager.cc:200-207 | registering is idempotent, makes the socket active and keeps consistency |
| GraphQLSubscriptions.SubscribedSocketActive | src/packages/graphql/graphql_subscription_manager.cc:219-223 | a socket with a subscription is active |
| GraphQLSubscriptions.Broadcast | src/packages/graphql/graphql_subscription_manager.cc:135-168 | a message for the subscription iff it exists; nothing changes |
| GraphQLSubscriptions.RemovedEach | src/packages/graphql/graphql_subscription_manager.cc:114-133 | exactly the listed subscriptions are removed |
| GraphQLSubscriptions.RemovedEachValid | src/packages/graphql/graphql_subscription_manager.cc:114-133 | removing a list keeps the tables consistent |
| GraphQLSubscriptions.RemovedAllOfSocket | src/packages/graphql/graphql_subscription_manager.cc:114-133 | all of the socket's subscriptions go and every other socket's stay |
| GraphQLSubscriptions.SubscriptionManager.constructor | src/packages/graphql/graphql_subscription_manager.cc:19-21 | empty, consistent tables |
| GraphQLSubscriptions.SubscriptionManager.SetIndex | src/packages/graphql/graphql.h:267-269 | stores all three tables at once: subscriptions by id, ids by socket and ids by event |
| GraphQLSubscriptions.SubscriptionManager.CreateSubscription | src/packages/graphql/graphql_subscription_manager.cc:32-66 | performs `Created`, returning the id |
| GraphQLSubscriptions.SubscriptionManager.RemoveSubscription | src/packages/graphql/graphql_subscription_manager.cc:68-112 | performs `Removed` |
| GraphQLSubscriptions.SubscriptionManager.RemoveAllSubscriptions | src/packages/graphql/graphql_subscription_manager.cc:114-133 | the loop removes the socket's listed subscriptions |
| GraphQLSubscriptions.SubscriptionManager.BroadcastToSubscription | src/packages/graphql/graphql_subscription_manager.cc:135-168 | performs `Broadcast` |
| GraphQLSubscriptions.SubscriptionManager.BroadcastToType | src/packages/graphql/graphql_subscription_manager.cc:170-189 | one message per subscription of the type, in list order; nothing changes |
| GraphQLSubscriptions.SubscriptionManager.RegisterConnection | src/packages/graphql/graphql_subscription_manager.cc:200-207 | performs `Registered` |
| GraphQLSubscriptions.SubscriptionManager.UnregisterConnection | src/packages/graphql/graphql_subscription_manager.cc:209-217 | removes the socket's subscriptions and its entry |
| GraphQLSubscriptions.SubscriptionManager.IsConnectionActive | src/packages/graphql/graphql_subscription_manager.cc:219-223 | true iff the socket has an entry |
| GraphQLSubscriptions.SubscriptionManager.GetSubscriptionCount | src/packages/graphql/graphql_subscription_manager.cc:225-227 | the number of subscriptions |
| GraphQLSubscriptions.SubscriptionManager.GetConnectionCount | src/packages/graphql/graphql_subscription_manager.cc:229-231 | the number of sockets with an entry |
| GraphQLSubscriptions.SubscriptionManager.CleanupExpiredSubscriptions | src/packages/graphql/graphql_subscription_manager.cc:305-329 | exactly the unexpired subscriptions remain and the tables stay consistent |
| GraphQLSubscriptions.UnregisteredClean | src/packages/graphql/graphql_subscription_manager.cc:209-217 | afterwards the socket is inactive, has no subscriptions, and other sockets' remain |
| GraphQLSubscriptions.SubscriptionStats | src/packages/graphql/graphql_subscription_manager.cc:233-246 | the totals and one count per event type |
| CommandExecutor.IsValidCommand | src/packages/external/command_executor.cc:480-492 | valid iff non-empty and free of every shell metacharacter in the list |
| CommandExecutor.NoneFound | src/packages/external/command_executor.cc:485-489 | the `find` loop fails for no listed character iff the text contains none of them |
| CommandExecutor.ValidateCommandSecurity | src/packages/external/command_executor.cc:556-572 | accepted iff the command is on the allow list (when there is one), not blocked, and valid |
| CommandExecutor.RestrictedContextAllowsListed | src/packages/external/command_executor.cc:599-615 | the restricted context accepts only its seven listed commands |
| CommandExecutor.ValidateCommandRequest | src/packages/external/command_executor.cc:283-307 | accepted iff the command is non-empty, the socket non-negative, the timeout in 1..3600 and the security check passes |
| CommandExecutor.IsSafePath | src/packages/external/command_executor.cc:574-597 | no "../" or "..\\"; absolute paths only under the safe prefixes; the empty path is refused; other relative paths pass |
| CommandExecutor.HasSafePrefix | src/packages/external/command_executor.cc:587-593 | true iff the path starts with one of the prefixes |
| CommandExecutor.ResolveRelativePath | src/packages/external/command_executor.cc:617-630 | absolute or empty paths are returned as is; a relative one follows the base, with a '/' between them unless the base is empty or already ends in one |
| CommandExecutor.EscapedAppend | src/packages/external/command_executor.cc:545-551 | escaping works piece by piece |
| CommandExecutor.EscapedTwice | src/packages/external/command_executor.cc:545-551 | a further pass for a character that is not a backslash escapes that character too |
| CommandExecutor.UnescapeEscaped | src/packages/external/command_executor.cc:533-554 | dropping each escaping backslash gives the text back |
| CommandExecutor.BackslashLastDoubles | src/packages/external/command_executor.cc:537-543 | why the backslash pass comes first: run last, it would escape the backslashes the other passes added |
| CommandExecutor.ReplaceAll | src/packages/external/command_executor.cc:546-550 | the find-and-replace loop escapes every occurrence of one character |
| CommandExecutor.EscapeArgument | src/packages/external/command_executor.cc:533-554 | the passes run in the listed order |
| CommandExecutor.EscapeArgumentMeaning | src/packages/external/command_executor.cc:533-554 | the result puts one backslash before every backslash, quote, apostrophe, backquote and '$', and unescaping inverts it |
| CommandExecutor.WordLength | src/packages/external/command_executor.cc:526 | `>>` reads up to the next blank |
| CommandExecutor.Words | src/packages/external/command_executor.cc:521-531 | the words are non-empty and contain no blanks |
| CommandExecutor.ParseCommandLine | src/packages/external/command_executor.cc:521-531 | the extraction loop computes the words |
| CommandExecutor.WordsOfJoined | src/packages/external/command_executor.cc:521-531 | splitting words joined by single spaces gives them back |
| FileMonitor.IsSafePath | src/packages/external/file_monitor.cc:541-555 | safe iff absolute, with no ".." and no "//" |
| FileMonitor.IsPathAllowed | src/packages/external/file_monitor.cc:484-497 | allowed iff the path starts with none of the blocked system paths |
| FileMonitor.NoBlockedPrefix | src/packages/external/file_monitor.cc:490-494 | the blocked-path loop refuses exactly the paths that start with a listed prefix |
| FileMonitor.MonitoredPathsAreSafe | src/packages/external/file_monitor.cc:478-497 | every path the manager agrees to watch is absolute, has no "..", and lies outside /proc and /etc/shadow |
| FileMonitor.WithoutTrailingSlashes | src/packages/external/file_monitor.cc:561-568 | the result is a prefix of the path that ends in no '/' unless it is "/" itself, and is empty only for the empty path |
| FileMonitor.NormalizePath | src/packages/external/file_monitor.cc:561-568 | the pop-back loop strips exactly the trailing slashes |
| FileMonitor.NormalizeIdempotent | src/packages/external/file_monitor.cc:561-568 | normalizing twice is normalizing once, and only slashes were removed |
| FileMonitor.MaskRoundTrip | src/packages/external/file_monitor.cc:503-539 | converting event bits to an inotify mask and back keeps the eight event bits |
| FileMonitor.ConvertInotifyEvent | src/packages/external/file_monitor.cc:311-324 | IN_CREATE wins over every other bit; a mask with none of the known bits reads as MODIFIED |
| FileMonitor.SingleEventRoundTrip | src/packages/external/file_monitor.cc:311-520 | an event type's own mask converts back to that type |
| FileMonitor.ParseInotifyEvent | src/packages/external/file_monitor.cc:291-309 | the event path is the watch path, joined with '/' to the name when there is one; type and directory flag follow the mask |
| FileMonitor.EventsOf | src/packages/external/file_monitor.cc:242-264 | at most the event cap and at most one event per raw record, and every event kept is a deliverable one |
| FileMonitor.UnknownWatchIgnored | src/packages/external/file_monitor.cc:254-261 | a record for an unknown watch descriptor adds nothing |
| FileMonitor.WatchAdded | src/packages/external/file_monitor.cc:86-145 | a refused add changes nothing; an already watched path is only linked to the socket; a new one needs room, a valid path and a descriptor, and is stored with the default mask when the mask is 0 |
| FileMonitor.WatchAddedValid | src/packages/external/file_monitor.cc:86-145 | adding keeps the three tables consistent, and after success the path's descriptor is in the socket's list |
| FileMonitor.WatchRemoved | src/packages/external/file_monitor.cc:147-195 | fails iff the path is not watched, and then changes nothing |
| FileMonitor.WatchRemovedMeaning | src/packages/external/file_monitor.cc:147-195 | after removal the tables are consistent, the socket no longer lists the descriptor, other sockets keep their lists, and the watch is dropped only when no socket uses it |
| FileMonitor.AllWatchesRemovedMeaning | src/packages/external/file_monitor.cc:197-214 | removing all of a socket's watches leaves consistent tables with no entry for that socket and other sockets untouched |
| FileMonitor.EventsQueued | src/packages/external/file_monitor.cc:466-476 | the queue keeps the newest events, at most 1000 of them |
| FileMonitor.EventsQueuedTwice | src/packages/external/file_monitor.cc:466-476 | queueing two batches keeps the newest 1000 of everything queued |
| FileMonitor.Monitor.constructor | src/packages/external/file_monitor.cc:37-39 | starts uninitialized, with 1000 watches allowed, not recursive and no watches |
| FileMonitor.Monitor.Initialize | src/packages/external/file_monitor.cc:45-63 | a second call succeeds and changes nothing; otherwise it succeeds iff the inotify descriptor was created |
| FileMonitor.Monitor.Shutdown | src/packages/external/file_monitor.cc:65-84 | an initialized monitor forgets every watch and becomes uninitialized; otherwise nothing changes |
| FileMonitor.Monitor.AddWatch | src/packages/external/file_monitor.cc:86-145 | fails without change when not initialized, otherwise updates the tables as WatchAdded says |
| FileMonitor.Monitor.ProcessEvents | src/packages/external/file_monitor.cc:216-272 | no events when not initialized, otherwise the events EventsOf extracts from the records read |
| FileMonitor.Monitor.RemoveWatch | src/packages/external/file_monitor.cc:147-195 | updates the tables as WatchRemoved says |
| FileMonitor.Monitor.RemoveAllWatches | src/packages/external/file_monitor.cc:197-214 | removes each watch of the socket's list in turn |
| FileMonitor.Manager.constructor | src/packages/external/file_monitor.h:162 | no pending events |
| FileMonitor.Manager.QueueEventsForSocket | src/packages/external/file_monitor.cc:466-476 | the socket's queue becomes EventsQueued of the old one; other queues are untouched |
| FileMonitor.Manager.DeliverFileEvents | src/packages/external/file_monitor.cc:443-464 | an empty batch changes nothing; a non-empty one is queued, then each event signals a file change, in order, through the async event manager |
| FileMonitor.SignalFileChanges | src/packages/external/file_monitor.cc:453-455 | one `signal_file_changed` per event: nothing before the notifier starts; after, the socket's list and (for a registered socket) the notifier's queue receive one change event per file event, in order |
| FileMonitor.SignalNextFileChange | src/packages/external/file_monitor.cc:453-455 | one turn of that loop: the lists and the notifier's queue advance from the state after i events to the state after i + 1, and no other notifier field changes |
| EventNotifier.SocketQueuedInTurnNewest | src/packages/external/event_notifier.cc:394-404 | however many events are queued one by one, a socket keeps the newest 100 of them all |
| EventNotifier.EnqueuedInTurnNewest | src/packages/external/event_notifier.cc:259-267 | however many events are queued one by one, the notifier keeps the newest of them up to its maximum |
| FileMonitor.Manager.ExternalGetFileEvents | src/packages/external/file_monitor.cc:415-426 | returns the socket's queue and empties it; other queues are untouched |
| FileMonitor.Manager.ExternalMonitorPath | src/packages/external/file_monitor.cc:386-403 | returns -1 without touching the watches for a refused path or a monitor that could not be initialized on demand; otherwise 0 iff the watch was added, with the given event bits converted to a mask (the default mask for none) |
| FileMonitor.Manager.HandleWatchPathOption | src/packages/external/file_monitor.cc:370-383 | the same checks, adding a watch for all events |
| FileMonitor.Manager.ExternalStopMonitoring | src/packages/external/file_monitor.cc:405-413 | returns 0 iff the path was watched, and removes the socket's watch |
| FileMonitor.Manager.RemoveWatchPathOption | src/packages/external/file_monitor.cc:428-431 | removes the socket's watch as WatchRemoved says |
| FileMonitor.Manager.CleanupSocketMonitors | src/packages/external/file_monitor.cc:433-441 | removes all the socket's watches and its pending queue |
| ProcessSecurity.FindsAny | src/packages/external/process_manager.cc:735-740 | the pattern loop finds a match iff some pattern occurs in the text |
| ProcessSecurity.ShellInjectionMeaning | src/packages/external/process_manager.cc:730-741 | the input is flagged iff it holds one of ; & ` $ (or the pipe character) or the text ">>", "<<" or "../": the longer patterns starting with those characters add nothing |
| ProcessSecurity.IsSafeCommand | src/packages/external/process_manager.cc:616-629 | safe iff no listed pattern occurs in the command |
| ProcessSecurity.SafeCommandMeaning | src/packages/external/process_manager.cc:616-629 | safe iff no character of the command is one of the fourteen listed metacharacters |
| ProcessSecurity.ContainsPathTraversal | src/packages/external/process_manager.cc:743-745 | true iff "../" or "..\\" occurs in the path |
| ProcessSecurity.TraversalIsInjection | src/packages/external/process_manager.cc:730-745 | a text holding "../" is both a traversal and a shell injection |
| ProcessSecurity.DefaultSecurityContext | src/packages/external/external.h:90-93 | the default context passes the security-context check and has no allow or block lists |
| ProcessSecurity.ValidateCommandExecution | src/packages/external/process_manager.cc:590-614 | accepted iff on the allow list when there is one, not blocked, and safe |
| ProcessSecurity.AllowListDoesNotOverrideSafety | src/packages/external/process_manager.cc:590-614 | a listed command holding ';' is still refused |
| ProcessSecurity.ArgumentsSafe | src/packages/external/process_manager.cc:700-724 | true iff no argument contains a shell injection |
| ProcessSecurity.SecurityError | src/packages/external/process_manager.cc:547-728 | no error iff command, arguments, environment and working directory pass and limits and privilege drop succeed; a refused command gives the command error first |
| ProcessSecurity.TraversingArgumentRefused | src/packages/external/process_manager.cc:556-741 | an allowed command with an argument holding "../" is refused with the argument error |
| ProcessSecurity.SpawnRefusal | src/packages/external/process_manager.cc:54-71 | spawning goes on iff there is room below the process limit and the context sets memory and CPU limits; a full table gives "Process limit exceeded" (the context check is at lines 534-541) |
| ProcessSecurity.DefaultContextSpawns | src/packages/external/process_manager.cc:27-71 | with the default limit of 100 and the default context, spawning goes on while fewer than 100 processes run |
| GrpcChannels.Stoi | src/packages/grpc/grpc_channel_manager.cc:272 | `std::stoi` yields a value only when the text has a digit, and only one that fits a 32-bit int |
| GrpcChannels.StoiOfDigits | src/packages/grpc/grpc_channel_manager.cc:272 | a non-empty run of digits reads as its decimal value when that fits a 32-bit int, and fails otherwise |
| GrpcChannels.StoiOfName | src/packages/grpc/grpc_channel_manager.cc:272 | a text that starts with a letter has no number, so the conversion fails |
| GrpcChannels.ValidateTargetAddress | src/packages/grpc/grpc_channel_manager.cc:251-281 | without a ':' any non-empty target passes; with one, the host before the first ':' and the port text after it must be non-empty and the port must read as 1..65535 |
| GrpcChannels.TargetParts | src/packages/grpc/grpc_channel_manager.cc:263-280 | "host:port" with a non-empty host free of ':' passes exactly when the port is non-empty and reads as a number in 1..65535 |
| GrpcChannels.TargetWithPortAccepted | src/packages/grpc/grpc_channel_manager.cc:263-280 | a non-empty host without ':' followed by a decimal port in 1..65535 passes |
| GrpcChannels.TargetsWithoutHostOrPortRefused | src/packages/grpc/grpc_channel_manager.cc:252-268 | the empty target, a target that starts with ':', and a host followed by ':' and nothing are refused |
| GrpcChannels.PortZeroRefused | src/packages/grpc/grpc_channel_manager.cc:273-275 | a port whose digits read as 0 is refused |
| GrpcChannels.PortAboveRangeRefused | src/packages/grpc/grpc_channel_manager.cc:273-275 | a port whose digits read above 65535 is refused, whether or not it fits an int |
| GrpcChannels.PortNameRefused | src/packages/grpc/grpc_channel_manager.cc:276-278 | a port that starts with a letter is refused |
| GrpcChannels.BackendAdded | src/packages/grpc/grpc_channel_manager.cc:127-142 | an invalid address changes nothing; a valid one ends up listed for the target, appended after the old list, with other targets untouched and no duplicate introduced |
| GrpcChannels.BackendRemoved | src/packages/grpc/grpc_channel_manager.cc:144-161 | every copy of the address leaves the target's list, the target goes when its list empties, and other targets are untouched |
| GrpcChannels.AddRemoveBackend | src/packages/grpc/grpc_channel_manager.cc:127-161 | adding a new valid address to an existing target and removing it restores the table |
| GrpcChannels.ChannelManager.constructor | src/packages/grpc/grpc_channel_manager.cc:16-22 | no channels, 100 connections per target, 10000 ms connect timeout, 30000/5000 ms keepalive, "pick_first" |
| GrpcChannels.ChannelManager.CreateChannel | src/packages/grpc/grpc_channel_manager.cc:32-62 | an invalid target gives "" and changes nothing; a valid one gets the fresh id, and a target seen for the first time gets itself as its only backend |
| GrpcChannels.ChannelManager.CloseChannel | src/packages/grpc/grpc_channel_manager.cc:64-79 | succeeds iff the channel existed, and removes it |
| GrpcChannels.ChannelManager.SetMaxConnectionsPerTarget | src/packages/grpc/grpc_channel_manager.cc:94-99 | stores the limit and nothing else |
| GrpcChannels.ChannelManager.SetConnectionTimeout | src/packages/grpc/grpc_channel_manager.cc:101-106 | stores the timeout and nothing else |
| GrpcChannels.ChannelManager.SetKeepaliveSettings | src/packages/grpc/grpc_channel_manager.cc:108-114 | stores both keepalive values and nothing else |
| GrpcChannels.ChannelManager.SetLoadBalancingPolicy | src/packages/grpc/grpc_channel_manager.cc:116-125 | only "pick_first", "round_robin" and "grpclb" are taken; anything else keeps the old policy |
| GrpcChannels.ChannelManager.AddBackendAddress | src/packages/grpc/grpc_channel_manager.cc:127-142 | the table becomes BackendAdded of the old one |
| GrpcChannels.ChannelManager.RemoveBackendAddress | src/packages/grpc/grpc_channel_manager.cc:144-161 | the table becomes BackendRemoved of the old one |
| GrpcChannels.ChannelManager.ChannelStats | src/packages/grpc/grpc_channel_manager.cc:163-185 | empty iff the channel is unknown; otherwise id, target, "READY", the placeholder counters and, when the target has backends, their count |
| GrpcChannels.ChannelManager.ActiveChannels | src/packages/grpc/grpc_channel_manager.cc:81-196 | exactly the ids for which the channel reports ready |
| GrpcChannels.ChannelManager.CleanupInactiveChannels | src/packages/grpc/grpc_channel_manager.cc:221-249 | no channel is ever judged inactive, so nothing changes |
| GraphqlServer.MaxNestingMeaning | src/packages/graphql/graphql.cc:534-549 | the recorded maximum bounds the brace depth after every prefix of the query and equals it after one |
| GraphqlServer.DepthLimitMeaning | src/packages/graphql/graphql.cc:534-549 | the depth check passes iff no prefix of the query is nested deeper than the limit |
| GraphqlServer.ValidateQueryDepth | src/packages/graphql/graphql.cc:534-549 | the counting loop accepts iff the deepest nesting is within the limit |
| GraphqlServer.WordLen | src/packages/graphql/graphql.cc:561-563 | the inner loop stops at the first character that is not a letter, digit or '_' |
| GraphqlServer.ComplexityCountsRuns | src/packages/graphql/graphql.cc:551-568 | the count is the number of maximal runs of letters, digits and '_' that hold a letter; the character the loop skips after each field is never a letter |
| GraphqlServer.ValidateQueryComplexity | src/packages/graphql/graphql.cc:551-568 | the loop accepts iff the field count is within the limit |
| GraphqlServer.ComplexityExample | src/packages/graphql/graphql.cc:551-568 | "{ id }" names one field |
| GraphqlServer.DigitLedRunCounts | src/packages/graphql/graphql.cc:556-564 | "1a" counts as one field: the digit is passed over and the letter starts a field |
| GraphqlServer.QueryText | src/packages/graphql/graphql.cc:269-277 | a non-empty query text is only found after `"query":`, and holds no quote |
| GraphqlServer.Classify | src/packages/graphql/graphql.cc:279-284 | "subscription" anywhere makes a subscription; otherwise "mutation" anywhere makes a mutation; otherwise a query |
| GraphqlServer.ParseRequest | src/packages/graphql/graphql.cc:262-287 | succeeds iff a non-empty query text is found, with that text classified; fails when `"query":` is absent |
| GraphqlServer.ParseExample | src/packages/graphql/graphql.cc:262-287 | `"query":"a"` parses to the query "a" |
| GraphqlServer.DefaultServerConfig | src/packages/graphql/graphql.cc:333-336 | introspection on, depth limit 15, complexity limit 1000 |
| GraphqlServer.HandleRequest | src/packages/graphql/graphql.cc:422-466 | too deep, then too complex, give a validation error with its message; disabled introspection gives "Introspection is disabled"; success iff no errors; a plain query answers the fixed data |
| GraphqlServer.LimitsBeforeIntrospection | src/packages/graphql/graphql.cc:428-449 | an over-complex introspection query is a validation error even when introspection is off |
| GraphqlServer.ResponseFields | src/packages/graphql/graphql.cc:293-318 | a success starts with the data member, a failure with errors starts with the errors list, and a failure with neither errors nor extensions has no members |
| GraphqlServer.FormatResponse | src/packages/graphql/graphql.cc:289-322 | the text is one brace-balanced object, opening with "data" for a success or "errors" for a failure with messages |
| GraphqlServer.HandleGraphqlRequest | src/packages/graphql/graphql.cc:97-140 | no response iff the request does not parse; a subscription succeeds iff it was created; anything else is handled by the server |
| GraphqlServer.SubscriptionBypassesLimits | src/packages/graphql/graphql.cc:118-130 | a created subscription succeeds whatever its depth or complexity |
| GraphqlServer.Server.constructor | src/packages/graphql/graphql.cc:333-339 | not configured, every switch on, limits 15 and 1000, timeout 30000 ms, no schema |
| GraphqlServer.Server.SetSchema | src/packages/graphql/graphql.cc:388-395 | the schema's introspection text replaces the old one; nothing else changes |
| GraphqlServer.Server.EnableIntrospection | src/packages/graphql/graphql.cc:397-400 | sets the introspection switch only |
| GraphqlServer.Server.EnablePlayground | src/packages/graphql/graphql.cc:402-405 | sets the playground switch only |
| GraphqlServer.Server.EnableSubscriptions | src/packages/graphql/graphql.cc:529-532 | sets the subscriptions switch only |
| GraphqlServer.Server.SetMaxQueryDepth | src/packages/graphql/graphql.cc:407-410 | sets the depth limit only |
| GraphqlServer.Server.SetMaxQueryComplexity | src/packages/graphql/graphql.cc:412-415 | sets the complexity limit only |
| GraphqlServer.Server.SetTimeout | src/packages/graphql/graphql.cc:417-420 | sets the timeout only |
| GraphqlServer.Server.Configure | src/packages/graphql/graphql.cc:345-386 | each option present in the socket's options overrides its setting (non-zero meaning on for switches), absent ones keep theirs, and the server becomes configured |
| GraphqlServer.Server.Handle | src/packages/graphql/graphql.cc:422-466 | answers as HandleRequest with the server's current settings and schema |
| MqttClient.ClientState.Code | src/packages/zmqtt/mqtt.h:49-57 | the seven states are numbered 0..6 with DISCONNECTED as 0 |
| MqttClient.DefaultConfig | src/packages/zmqtt/mqtt.h:76-102 | no host, no client id, no will, port 1883, keep-alive 60, clean session, no TLS |
| MqttClient.ConfigError | src/packages/zmqtt/mqtt_client.cc:667-704 | no error iff the configuration is valid; otherwise the first broken rule's message, host before port before client id |
| MqttClient.QosTwoRefused | src/packages/zmqtt/mqtt_client.cc:830-832 | only QoS 0 and 1 pass; 2 and negative levels are refused |
| MqttClient.ConnectConfig | src/packages/zmqtt/mqtt_client.cc:51-60 | the host is replaced; the port only when positive; the client id when given, else the old one, else a generated one; everything else is kept |
| MqttClient.GeneratedClientIdAsWritten | src/packages/zmqtt/mqtt_client.cc:803-816 | the generated id is 24 characters long |
| MqttClient.GeneratedIdRefusedAsWritten | src/packages/zmqtt/mqtt_client.cc:803-816 | a fresh client connecting without a client id is refused with "Client ID too long" (the connect path is at lines 56-63 and the length check at lines 678-681) |
| MqttClient.GeneratedClientId | src/packages/zmqtt/mqtt_client.cc:803-816 | with fifteen digits the id is exactly 23 characters, the limit |
| MqttClient.GeneratedIdAccepted | src/packages/zmqtt/mqtt_client.cc:667-689 | with that id a fresh client's connection passes validation (the id generated as at lines 56-63) |
| MqttClient.NextPacketId | src/packages/zmqtt/mqtt_client.cc:121-123 | the 16-bit identifier advances by one and skips 0 when it wraps |
| MqttClient.SubscribePacketIdAsWritten | src/packages/zmqtt/mqtt_client.cc:167-229 | the subscribe and unsubscribe increment leaves 0 exactly when the identifier was 65535 |
| MqttClient.ZeroPacketIdAsWritten | src/packages/zmqtt/mqtt_client.cc:121-167 | after a subscribe sent as 65535 the next QoS 1 publish is numbered 0 |
| MqttClient.Drained | src/packages/zmqtt/mqtt_client.cc:458-480 | a pass sends and keeps no more messages than were queued |
| MqttClient.DrainedMeaning | src/packages/zmqtt/mqtt_client.cc:458-480 | what stays queued is a tail of the queue headed by a message whose send failed, and every message sent was queued, converted and went through |
| MqttClient.DrainSendsAll | src/packages/zmqtt/mqtt_client.cc:458-482 | when every message converts and sends, the whole queue goes out in order |
| MqttClient.DrainQueue | src/packages/zmqtt/mqtt_client.cc:458-480 | the send loop leaves what Drained keeps and counts the messages and payload bytes sent |
| MqttClient.Client.constructor | src/packages/zmqtt/mqtt_client.cc:12-21 | disconnected, default configuration, no handle, empty tables and queue, packet id 1, zero statistics |
| MqttClient.Client.SetError | src/packages/zmqtt/mqtt_client.cc:441-444 | records the message and enters the error state; nothing else changes |
| MqttClient.Client.ValidateConfig | src/packages/zmqtt/mqtt_client.cc:667-689 | passes iff the configuration is valid; otherwise records ConfigError's message and enters the error state |
| MqttClient.Client.SetConfig | src/packages/zmqtt/mqtt_client.cc:29-41 | refused unless disconnected; otherwise stores the configuration and succeeds iff it is valid |
| MqttClient.Client.Connect | src/packages/zmqtt/mqtt_client.cc:43-72 | refused unless disconnected; otherwise validates ConnectConfig's result and enters CONNECTING iff it is valid |
| MqttClient.Client.Disconnect | src/packages/zmqtt/mqtt_client.cc:74-95 | always succeeds and ends disconnected; a connected client drops its handle, subscriptions, queue and pending publishes |
| MqttClient.Client.ProcessOutgoingQueue | src/packages/zmqtt/mqtt_client.cc:451-483 | fails without change when no handle is attached; otherwise the queue becomes Drained's rest, statistics grow by what was sent, and it succeeds iff everything went |
| MqttClient.Client.Publish | src/packages/zmqtt/mqtt_client.cc:97-131 | not connected, bad topic and bad QoS are refused with their messages and change no queue; a QoS 1 publish is tracked under the current id, which then advances; the message is queued and the queue processed |
| MqttClient.Client.Subscribe | src/packages/zmqtt/mqtt_client.cc:133-174 | corrected: the same refusals; an existing subscription succeeds unchanged; a new one is recorded and succeeds iff a handle is attached and the send succeeds, using and advancing the packet id |
| MqttClient.Client.Unsubscribe | src/packages/zmqtt/mqtt_client.cc:206-236 | corrected: refused when not connected; an unknown filter succeeds unchanged; a known one is removed and succeeds iff a handle is attached and the send succeeds |
| MqttClient.Client.SetWill | src/packages/zmqtt/mqtt_client.cc:250-268 | succeeds iff the topic is a valid publish topic and the QoS is valid, and then stores the will; otherwise records the matching error |
| MqttClient.Client.ClearWill | src/packages/zmqtt/mqtt_client.cc:270-277 | always succeeds and resets the will to empty, QoS 0, not retained |
| MqttClient.Client.HandleClientEstablished | src/packages/zmqtt/mqtt_client.cc:525-531 | enters CONNECTED; nothing else changes |
| MqttClient.Client.HandleClientClosed | src/packages/zmqtt/mqtt_client.cc:538-543 | enters DISCONNECTED; nothing else changes |
| MqttClient.ReconnectNeedsDisconnect | src/packages/zmqtt/mqtt_client.cc:43-95 | a second connect is refused while connecting, and a connect after disconnect succeeds again |

## Left out

General:

- Input and output, threads, mutexes and condition variables are left out. Each object is modelled
  as used by one caller at a time.
- Regular-expression engines are not modelled. Where a pattern is a fixed "a, then later b" search,
  `Text.InOrder` models it. Where the route matcher or the URL and IP validators use `std::regex`,
  the model takes the match as a parameter.
- Clocks, random values and generated identifiers are parameters. This covers timestamps,
  subscription ids, channel ids, request ids, mask keys and the build monitor's elapsed time.
- The model does not make operating-system calls. It leaves out fork and exec, pipes, signals,
  rlimits, privilege dropping, `stat`, inotify and eventfd reads and writes, and `poll`. Their
  outcomes are parameters.
- Floating point is left out: overhead ratios, averages, `multipleOf`, float options.
- Conversion to and from LPC values (mappings, arrays, `svalue_t`) and the efun glue are left out.
- JSON parsing and serialisation through nlohmann JSON are left out. The model keeps the source's
  own bracket-balance check for JSON.
- The OpenSSL calls are left out: HMAC-SHA256 and JWT signing and verification.
- Every libwebsockets call is a parameter or a recorded call.
- Debug dumps, log lines, name tables and human-readable descriptions are left out.

Build monitor (`tools/fluffos_build_monitor.py`):

- `_run_bash_output`, `_get_current_activity`, `monitor_build_to_completion` and `main` are left
  out. They run subprocesses, sleep, print and parse the command line. The fetched log chunk and
  the elapsed time are inputs.
- Text.Strip: strips space, tab, LF, CR, VT and FF only. Python's `str.strip()` also strips
  0x1C-0x1F, 0x85 and the Unicode spaces, so a log line padded with those keeps them here.

WebSocket framing (`ws_frame.cc`):

- The opcode helpers (`is_valid_opcode`, `is_control_*`, `is_data_*`, `validate_control_frame`,
  `validate_continuation_frame`) are modelled inside the header step and `ValidateFrame`.
- `extract_*_payload`, the LPC mappings, `frame_to_string`, `dump_frame` and `opcode_to_string`
  are left out.
- `calculate_overhead_ratio` is floating point and is left out.
- The C wrappers at the end of the file are left out.
- `generate_mask_key` draws a random key. Here the key is an argument.
- WsUtils.FragmentMessage: requires a positive fragment size unless the message is empty. With a
  size of 0 the source loop never ends.
- WsStream.MessageArrivesWhole: requires the first fragment to be valid UTF-8 on its own. The
  parser checks UTF-8 frame by frame, so a text message split inside a character is refused.

MQTT messages (`mqtt_message.cc`):

- The plain setters are left out. So are the conversions to and from libwebsockets publish
  parameters and LPC mappings.
- `get_debug_string`, `qos_to_string`, `min_qos` and `max_qos` are left out.
- The length-prefixed string codec, the `create_*_message` factories and the callback arguments
  are left out.

MQTT client (`src/packages/zmqtt/`):

- Batch subscribe and unsubscribe (`mqtt_client.cc:176-204`, `238-248`) are left out. They repeat
  the single-topic operation for each topic.
- The status and configuration mappings are left out.
- `handle_callback` and the receive, subscribed, unsubscribed and writeable handlers run inside
  libwebsockets and are left out.
- `validate_topic_name` is left out. The client never calls it and uses the message module's
  topic checks directly.
- `sync_config_to_option_manager` and the statistics timestamps are left out.
- MqttClient.Drained: the conversion of a queued message to the library's publish parameters is a
  parameter, `converts`. When it fails, the message is dropped. The model does not say which
  messages fail to convert.

HTTP (`http_server.cc`):

- Response generation and formatting are left out. So are MIME types, socket options and mappings,
  the `socket_*` glue and the dumps.
- `string_to_method` and `string_to_version` are modelled as lookups inside the request-line step.
- HttpServer.StoreHeader: a content-length that `std::stoul` refuses makes the model report failure,
  because `HttpServer.Stoul` gives `None`. In the source `std::stoul` throws at `http_server.cc:207`.
  Nothing on the path through `process_incoming_data` catches the exception. The only `catch` in the
  file, at line 797, belongs to another path. The model does not follow the exception out of the
  handler.

REST (`rest.cc`, `rest_auth.cc`, `rest_router.cc`, `rest_validation.cc`, `rest_handler.cc`):

- `rest_extract_path_params` and `find_matching_route` match with `std::regex`. The model takes
  the match as a parameter.
- `compile_route_pattern` and `convert_pattern_to_regex` are left out.
- The `f_rest_*` efuns, `register_route_from_mapping`, `get_all_routes` and `dump_routes` are
  left out.
- `process_rest_request` and the JSON parse and serialise helpers are left out.
- The JSON error and success responses, the API headers, the OpenAPI and documentation pages and
  the CORS preflight response are left out.
- `html_escape` in `rest_handler.cc` is the same loop as `HttpServer.HtmlEscape`.
- `rest_hmac_sha256` and JWT creation and verification are left out.

Socket options and errors (`socket_option_manager.cc`, `socket_option_validator.cc`,
`socket_error_handler.cc`):

- Option descriptions, names, categories and dumps are left out.
- SocketOptionManager.DefaultDescriptors: does not hold the GraphQL and gRPC registrations
  (`socket_option_manager.cc:261-374`). Their categories (`OPTION_CATEGORY_GRAPHQL`,
  `OPTION_CATEGORY_GRPC`), most of their option names (`GRAPHQL_MAX_QUERY_DEPTH`,
  `GRPC_TLS_ENABLED`, ...) and their default and limit constants are declared in no header of the
  repository, and `grpc/lpc_interface.h` numbers the gRPC options 420 and up where
  `socket_options.h` numbers them 380-389. The table has no consistent numbers or bounds for them.
- SocketErrorHandler.ErrorHandler.Initialize: a cache size that `reserve` cannot allocate fails
  with `bad_alloc` in the source; the model treats every non-negative size as reserved.
- The `is_*_mode` getters are left out.
- The manager's string and float constraint checks (`socket_option_manager.cc:949-1012`) are not
  modelled. `register_option` records bounds only for integers, so they always pass. The
  `validation_regex` test inside the string check is left out with them.
- `validate_url_format` and `validate_ip_address` use regular expressions. They are parameters of
  the validator.
- `validate_jwt_secret`, `validate_file_path` and `is_caller_trusted` are modelled only inside
  option validation.
- The metadata getters and the C wrappers are left out.
- SocketOptionValidator.Metadata: has no `string_format_regex` field, and the regular-expression
  format test of `validate_string_option` (lines 314-326) is left out. No metadata entry built in
  `socket_option_validator.cc` sets a pattern, so the test never runs on them.
- The error handler's name, format, log and time functions are left out, and so are its C
  wrappers.

External processes (`event_notifier.cc`, `file_monitor.cc`, `command_executor.cc`,
`process_manager.cc`):

- `wait_for_event` and the eventfd reads and writes are system calls and are left out. So are the
  singletons, `is_eventfd_supported` and the glue functions.
- `signal_process_ready` and `signal_process_output` have no member of their own. Each is one call
  of `EventNotifier.Notifier.SignalSocketEvent` with a fixed event type.
- FileMonitor.Monitor.ProcessEvents: takes the decoded records of one `read` and keeps the source's
  cap on events per call. It does not decode the raw inotify buffer.
- The file monitor's `has_pending_events`, `format_event_for_lpc`, `events_to_lpc_array` and
  singletons are left out. The existence test in `is_valid_path` is a parameter.
- The `CommandExecutor` class is left out: worker threads, request queue, fork and exec, results
  and request ids. So are `CommandBuilder`, `is_executable_file` and `find_command_in_path`.
- The `ProcessManager` spawn, I/O, terminate, cleanup and monitor paths are left out.
  ProcessSecurity.SpawnRefusal models only the refusal that happens before any system call.

GraphQL and gRPC (`graphql.cc`, `graphql_subscription_manager.cc`, `grpc_channel_manager.cc`):

- The `GraphQLManager` socket table is left out: load, validate and print schema, execute,
  validate by regex, subscribe, broadcast, resolvers, logs and CORS.
- The introspection answer depends on the schema text, which is a parameter. The playground page,
  `supports_subscriptions`, `is_configured` and `get_status` are left out.
- `broadcast_global` and `generate_subscription_id` are left out.
- `generate_channel_id` is left out: a channel id is an argument.

Corrected behaviour. These members run the corrected definitions from "## Findings", not the code as
written. Each line says where they differ from the source:

- BuildMonitor.Monitor.RecordSignals: records what the corrected filter finds. That filter also tests a
  line against the messages found earlier in the same chunk. The source tests only against messages
  recorded before the chunk, so it records a line repeated within one chunk twice
  (`BuildMonitor.RepeatedLineReportedTwice`).
- BuildMonitor.Monitor.RecordErrors: records the stdout signals through `RecordSignals`, with the same
  difference.
- BuildMonitor.Monitor.ObserveOutput: records the stdout signals through `RecordSignals`, with the same
  difference.
- BuildMonitor.Monitor.CheckBuildStatus: records the stdout signals through `RecordSignals`, with the
  same difference.
- BuildMonitor.Monitor.FilterErrorsAndWarningsUnique: the corrected loop. The as-written loop is
  `BuildMonitor.Monitor.FilterErrorsAndWarnings`.
- WsFrame.ParseHeader: checks a control frame's length after the extended length is read. The source
  checks it before, while it is still 0 (`WsFrameLemmas.LongPingAccepted`).
- WsParser.FrameParser.Parse: runs the corrected state machine. It has four differences from the
  source. It reads a short masked frame's key right after the 2-byte header; the source looks two
  bytes later (`WsFrameLemmas.MaskedShortFrameIncomplete`). It completes a frame with an empty
  payload when that frame ends the input (`WsFrameLemmas.EmptyFrameIncomplete`). It checks a control frame's extended length. It
  counts buffered bytes as consumed (`WsFrameLemmas.IncompleteUndercounts`).
- WsParser.FrameParser.ParseHeader: performs the corrected header step.
- WsStream.Advance: parses with the corrected parser, with the differences given for
  `WsParser.FrameParser.Parse`. With the source's parser, a masked frame under 126 bytes never
  completes.
- WsStream.Feed: parses with the corrected parser, as `WsStream.Advance` does.
- WsStream.FeedPass: parses with the corrected parser, as `WsStream.Advance` does.
- WsStream.FeedEncodings: parses with the corrected parser, as `WsStream.Advance` does.
- WsStream.MessageArrivesWhole: parses with the corrected parser, as `WsStream.Advance` does.
- WsStream.FrameStream.ProcessOnce: parses with the corrected parser, as `WsStream.Advance` does.
- WsStream.FrameStream.ProcessData: parses with the corrected parser, as `WsStream.Advance` does.
- MqttMessage.Enqueued: the corrected enqueue refuses when both lanes together hold the bound. The
  source's regular enqueue compares only the regular lane, so a priority enqueue followed by a
  regular one holds 2 messages at bound 1 (`MqttMessage.EnqueueOverfills`).
- MqttMessage.MessageQueue.Enqueue: performs the corrected enqueue, with the same difference.
- RestHandler.Escaped: copies a byte of 128 or more unchanged. With a signed `char` the source
  prints such a byte as `\uffffffXX` (`RestHandler.HighByteMangledAsWritten`).
- RestHandler.JsonEscaped: applies `RestHandler.Escaped` to each character, with the same difference.
- RestHandler.EscapeJsonString: computes `RestHandler.JsonEscaped`, with the same difference.
- RestHandler.RouteAdded: gives a new route an id above every id in use. The source gives it the
  number of routes plus one, which repeats an id after a removal (`RestHandler.DuplicateIdAsWritten`).
- RestHandler.RouteAddedKeepsInvariant: ids stay distinct only with the corrected id.
- RestHandler.Handler.AddRoute: performs the corrected `RestHandler.RouteAdded`.
- RestHandler.Handler.RemoveRoute: removes the first route with the id, as the source does. It
  promises that no route keeps the id, which rests on the distinct ids of the corrected add. In the
  source a second route with the same id can remain.
- SocketOptionValidator.ValidateString: applies the length test only when a maximum length is set
  (`SocketOptionValidator.LengthRejected`). The source applies the bounds whenever string constraints
  are on, so the `HTTP_METHOD` option, whose bounds stay 0..0, refuses every method
  (`SocketOptionValidator.HttpMethodRejectedAsWritten`).
- SocketOptionValidator.ValidateTyped: checks strings through `ValidateString`, with the same
  difference.
- SocketOptionValidator.ValidateInternal: checks strings through `ValidateString`, with the same
  difference.
- SocketOptionValidator.Validator.ValidateOption: caches each verdict under a key that includes the
  value. The source's key omits the value, so a later value can get an earlier value's verdict
  (`SocketOptionValidator.StaleVerdictAsWritten`). Its fresh validations also carry the
  `ValidateString` difference.
- MqttClient.Client.Subscribe: advances the packet id with `MqttClient.NextPacketId`, which skips 0.
  The source's increment wraps 65535 to 0 (`MqttClient.ZeroPacketIdAsWritten`).
- MqttClient.Client.Unsubscribe: advances the packet id the same way, with the same difference.

Behaviour the model keeps as written:

- `hex_to_binary` reads each pair the way `stoul` does. A pair such as "4z" or " 5" decodes
  to the value of its one hex digit.
- `url_decode` accepts what `strtol` accepts, so "%+5" decodes to byte 5.
- Query values in `rest_handler.cc` are not percent-decoded.
- In `rest_pattern_to_regex` a stray '}' appends the last parameter name read again, or the
  empty name when no '{' came before it.
- `CommandUtils::is_safe_path` refuses the empty path.
- A socket's wait in the event notifier drains the whole pending queue. Events meant for other
  sockets are discarded.
- Removing a GraphQL socket's last subscription marks the socket inactive.
- `set_schema` stores the schema even when validation fails.
- The complexity count treats a run that starts with a digit, such as "1a", as a field.
- The socket-option aliases take the header's `SO_*` numbers. The validator's comments suggest
  other numbers.
- When a mapping of options is set and an entry is denied, the entries before it stay set.

## Findings

| source | as written | input that shows it | evidently intended | confidence | as-written member | corrected member |
|---|---|---|---|---|---|---|
| src/packages/websocket/ws_frame.cc:126-216 | a 7-bit length leaves `bytes_needed_` at 2, so `parse_mask` reads the key at offset 4 instead of 2 | a masked client frame with a payload under 126 bytes, e.g. 0x81 0x85, a key, "Hello" | the key follows the 2-byte header | not executed | WsFrameLemmas.MaskedShortFrameIncomplete | WsFrameLemmas.RoundTrip |
| src/packages/websocket/ws_frame.cc:127-146 | the control-frame length check reads `payload_length` before an extended length is read, when it is still 0 | 0x89 0x7E 0x00 0xC8, a ping announcing 200 bytes | a control frame over 125 bytes is a protocol error (section 5.5 of RFC 6455) | not executed | WsFrameLemmas.LongPingAccepted | WsFrame.ParseHeader |
| src/packages/websocket/ws_frame.cc:36-67 | the parse loop runs only while input remains, so a frame whose payload is empty never reaches the payload step when it ends the input | 0x81 0x00, an empty final text frame | an empty frame completes | not executed | WsFrameLemmas.EmptyFrameIncomplete | WsFrameLemmas.RoundTrip |
| src/packages/websocket/ws_frame.cc:57-63 | an INCOMPLETE step returns before its bytes are added to `bytes_consumed`, so the stream re-feeds bytes the parser already buffered (the stream advances by the reported count at lines 926-935) | 0x82 0x7E 0x01, then 0x01 | consumed counts every byte taken into the parser | not executed | WsFrameLemmas.IncompleteUndercounts | WsFrameLemmas.ConsumedIsAbsorbed |
| tools/fluffos_build_monitor.py:196-202 | the duplicate test looks only at errors recorded before this chunk | a chunk with the same error line twice | each message is recorded once | not executed | BuildMonitor.RepeatedLineReportedTwice | BuildMonitor.FilterUniqueNoDup |
| src/packages/mqtt/mqtt_message.cc:538-605 | the regular enqueue compares only the regular lane with the bound (the priority enqueue compares the total) | bound 1: a priority enqueue, then a regular enqueue, leaves 2 messages | the two lanes together hold at most the bound | not executed | MqttMessage.EnqueueOverfills | MqttMessage.BoundKept |
| src/packages/sockets/socket_option_validator.cc:607-614 | the cache key holds the option, socket mode, access level and strict flag, but not the value (used as the cache key at lines 63-84) | a timeout of 30000 ms, then one of 500 ms | each value gets its own verdict | not executed | SocketOptionValidator.StaleVerdictAsWritten | SocketOptionValidator.Validator.ValidateOption |
| src/packages/sockets/socket_option_validator.cc:288-296 | the HTTP method metadata keeps the default length bounds 0..0 (the `HTTP_METHOD` metadata is at line 747) | "GET" | every listed method is accepted | not executed | SocketOptionValidator.HttpMethodRejectedAsWritten | SocketOptionValidator.HttpMethodAccepted |
| src/packages/sockets/rest_handler.cc:435-436 | a byte of 128 or more is negative as a signed `char`, so it passes `c < 32` and is printed as `\u` with its sign-extended hex | the byte 0xC3, printed as `\uffffffc3` | the byte is copied unchanged | not executed; assumes a signed `char` | RestHandler.HighByteMangledAsWritten | RestHandler.JsonEscapeRoundTrip |
| src/packages/sockets/rest_handler.cc:253 | a new route's id is the number of routes plus one | add "/a", add "/b", remove route 1, add "/c" | ids stay distinct | not executed | RestHandler.DuplicateIdAsWritten | RestHandler.DistinctIdCorrected |
| src/packages/zmqtt/mqtt_client.cc:803-816 | the generated client id "fluffos_" plus 16 hex digits is 24 characters long, over the limit of 23 (checked at lines 667-689) | connecting with an empty client id | a generated id passes the client's own check | not executed | MqttClient.GeneratedIdRefusedAsWritten | MqttClient.GeneratedIdAccepted |
| src/packages/zmqtt/mqtt_client.cc:167-229 | subscribe and unsubscribe advance the packet id without skipping 0 | a subscribe sent with id 65535, then a QoS 1 publish | the id is never 0 (section 2.3.1 of MQTT 3.1.1) | not executed | MqttClient.ZeroPacketIdAsWritten | MqttClient.NextPacketId |
