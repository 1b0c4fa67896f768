# EEBusTracer: verified models

EEBusTracer records, imports and analyses EEBus (SHIP/SPINE) traffic. This project models the parts of it
whose correctness is not obvious from reading one function, and proves what they are for:

- **DLT ingestion.** The bracket scanner that spots truncated JSON, the decoder of binary DLT frames (AUTOSAR
  PRS_LogAndTraceProtocol, section 5.1), the decision which payloads become messages, and the two importers that
  number and count them (`JsonScan`, `JsonGrammar`, `DltFrame`, `DltFrameLaws`, `DltImport`, `DltImportLaws`).
- **History trackers.** Subscriptions and bindings, SHIP connection states, write durations and discovery trees:
  each folds a message log into a map and an order list, and is proved equal to a direct statement about the log
  (`Addresses`, `Subscriptions`, `SubscriptionLaws`, `Connections`, `Writes`, `Discovery`, `Devices`).
- **Heartbeat conformance.** Intervals per device pair, the 60 s verdict and what it says about real time, and the
  interval statistics (`Heartbeat`, `HeartbeatLaws`, `HeartbeatStats`).
- **Concurrent components.** The WebSocket hub and the capture engine as systems of interleaved steps, beside the
  objects whose methods are those steps (`Hub`, `HubObject`, `Capture`).
- **Two forms of one thing.** The flow view that grows row by row against the batch build, the DLT filter's parser
  against its printer, and the log tail's line reassembly against the bytes of the file (`Flow`, `DltFilter`,
  `LogTail`).

Code that works by updating variables, fields, arrays or lists is written as methods with loops and classes, each
method proved against a specification function; the laws are lemmas about those functions. Bytes are integers below
256, Go strings of DLT data are byte sequences, time stamps and durations are integer nanoseconds, floats are reals.
JSON extraction results (subscription elements, discovery entities, write items) are taken as decoded.
`dafny verify dfyconfig.toml` checks the whole project.

## Where the code departs from its documentation, or one part from another

The models follow the code. In each case a lemma says exactly when what is promised, or what another part of the code
does, holds:

- `internal/parser/dltbin.go:46-48` and `157-158` promise a non-EOF error on a truncated frame. Where the cut falls on
  a header boundary the readers return the clean `io.EOF` instead (`DltFrameLaws.CutFrameReport`,
  `DltFrameLaws.CutWireReport`: exactly at 0, 16 or 20 bytes with a storage header, exactly at 0 or 4 without). The
  importer then silently drops that frame, while any other cut makes it refuse the whole file
  (`DltImport.CutFileImport`).
- `internal/parser/dltbin.go:38-42` and `241-242` promise the concatenation of all string arguments, others skipped. The
  walk stops at the first argument that is not a string, and an empty first text leaves no separator. For any list of
  arguments of any kinds, the promise holds exactly if no string follows an argument of another type and there is at
  most one string or the first is not empty, or if the only string is empty (`DltFrameLaws.AllStringsDecoded`);
  `DltFrameLaws.MixedArgumentsExample` is an input that loses a string.
- `internal/analysis/subscriptions.go:66` announces that a snapshot replaces all subscriptions of the device pair; the
  loop only adds and overwrites. The keys active after a snapshot are exactly the listed ones if and only if it lists
  every key of the pair that was active before (`Subscriptions.SnapshotReplacesExactly`);
  `Subscriptions.MissingKeyStays` is a log in which a key missing from the snapshot stays active.
- `internal/capture/capture.go:62-65` starts a source for a trace, but the emit closure at lines 167-171 numbers and
  traces a message with whatever session is current. All messages of a run, however it goes on from any point without
  a further start, belong to their own source's session and trace if and only if no start succeeds while an earlier
  source is unfinished (`Capture.OwnSessionExactly`); `Capture.StaleSourceJoinsNextSession` is a run in which one does
  not.
- `web/static/js/flow.js:186-235` pairs a response only with a request that is already there. The view equals the batch
  build exactly if no row appended later carries a counter that an earlier row refers to
  (`Flow.IncrementalEqualsBatch`).
- The merges of `internal/api/depgraph.go` and `cmd/eebustracer/devices.go` give the same entities and features exactly
  if no first report of an entity repeats a feature address (`Discovery.ImplementationsAgree`).
- The scanner of `internal/parser/dlt.go:135-166` accepts exactly the balanced texts, which include every JSON text but
  also the empty text and mismatched brackets (`JsonScan.AcceptsExactlyBalanced`, `JsonGrammar.EveryJsonTextIsAccepted`,
  `JsonGrammar.AcceptsMoreThanJson`).

## Model

| member | source | states |
|---|---|---|
| JsonScan.IsCompleteJSON | internal/parser/dlt.go:135-166 | true exactly for the texts whose brackets balance outside string literals and whose literals are all closed, escapes included |
| JsonScan.AcceptsExactlyBalanced | internal/parser/dlt.go:130-166 | the three-variable scan accepts a text if and only if it derives from the grammar of balanced text |
| JsonScan.EveryTruncationIsRejected | internal/parser/dlt.go:130-134 | of a bracketed balanced text, the whole is accepted and every non-empty proper prefix is rejected, wherever it is cut |
| JsonGrammar.EveryJsonTextIsAccepted | internal/parser/dlt.go:130-134 | every text derived from the grammar of RFC 8259 sections 2 to 7, with any white space, is accepted |
| JsonGrammar.EveryCutOfContainerIsRejected | internal/parser/dlt.go:130-134 | of a printed JSON object or array exactly the whole and the empty prefix are accepted, also for cuts inside strings, escapes and numbers |
| JsonGrammar.AcceptsMoreThanJson | internal/parser/dlt.go:130-132 | the scan does not validate: it accepts mismatched brackets |
| DltFrame.Reader.ReadFull | internal/parser/dltbin.go:51-53 | all the bytes asked for, or end of stream on an empty rest, or an unexpected end with the rest consumed |
| DltFrame.IndexNul | internal/parser/dltbin.go:302-309 | the position of the first nul, negative exactly without one |
| DltFrame.TrimZero | internal/parser/dltbin.go:294-300 | the longest nul-free prefix |
| DltFrame.ReadArg | internal/parser/dltbin.go:257-276 | the string argument at a position with its text up to a nul and its size, or nothing if it is no string or does not fit |
| DltFrame.DecodeVerboseStringArgs | internal/parser/dltbin.go:246-292 | the walk over the arguments, in either byte order, up to the first that is not a string or does not fit |
| DltFrame.ParseOptional | internal/parser/dltbin.go:195-213 | position after the optional header fields and the ECU id, or an unexpected end exactly if they do not fit |
| DltFrame.ParseBody | internal/parser/dltbin.go:192-238 | the meaning of the bytes after the four fixed ones, for every combination of header flags |
| DltFrame.ReadStandardAndPayload | internal/parser/dltbin.go:170-239 | result and rest of the stream are those of one wire frame |
| DltFrame.ReadDLTMessage | internal/parser/dltbin.go:49-72 | result and rest of the stream are those of one stored frame, with storage time and the ECU id fallback; a success consumes bytes |
| DltFrame.ReadDLTMessageStream | internal/parser/dltbin.go:159-166 | a wire frame carrying the caller's time stamp, errors passed on |
| DltFrameLaws.ArgumentsRoundTrip | internal/parser/dltbin.go:246-292 | encoded string arguments decode to their texts joined by spaces without leading empty ones, in both byte orders; that is the plain joined list exactly if there is at most one argument or the first text is not empty |
| DltFrameLaws.WalkStopsAtOther | internal/parser/dltbin.go:286-289 | the text of a payload is that of its leading strings, whatever stands behind the first argument that is not a string |
| DltFrameLaws.DecodedIsLeading | internal/parser/dltbin.go:246-292 | any list of arguments of any kinds decodes to its leading strings joined by spaces without leading empty ones |
| DltFrameLaws.AllStringsDecoded | internal/parser/dltbin.go:38-42 | the decoded text is the join of all strings exactly if no string follows another argument and there is at most one string or the first is not empty, or if the only string is empty |
| DltFrameLaws.StringBehindOtherIsLost | internal/parser/dltbin.go:241-242 | of a string, another argument and a string only the first string is decoded, which is never the join of both |
| DltFrameLaws.MixedArgumentsExample | internal/parser/dltbin.go:286-289 | a concrete list whose last string is lost |
| DltFrameLaws.CutPayloadGivesTextPrefix | internal/parser/dltbin.go:241-292 | cutting any payload anywhere leaves a prefix of its text |
| DltFrameLaws.BodyRoundTrip | internal/parser/dltbin.go:192-238 | an encoded body decodes to the fields that were encoded, for all flags, both byte orders and any payload |
| DltFrameLaws.WireRoundTrip | internal/parser/dltbin.go:168-239 | an encoded wire frame followed by anything decodes to its meaning and leaves exactly what follows |
| DltFrameLaws.StoredRoundTrip | internal/parser/dltbin.go:49-72 | the same for a frame with storage header, including time stamp and ECU id |
| DltFrameLaws.StreamRoundTrip | internal/parser/dltbin.go:46-72 | reading a concatenation of frames and a rest yields the frames in order, then whatever the rest yields |
| DltFrameLaws.ConcatenationDecodes | internal/parser/dltbin.go:46-48 | reading a concatenation of frames yields exactly the frames and then a clean end of stream |
| DltFrameLaws.WireStreamRoundTrip | internal/parser/dltbin.go:151-166 | a live stream of frames and a rest yields the frames in order, then whatever the rest yields |
| DltFrameLaws.WiresDecode | internal/parser/dltbin.go:157-158 | a live stream of frames yields exactly the frames and then a clean end of stream |
| DltFrameLaws.FramingIgnoresContent | internal/parser/dltbin.go:180-190 | a frame whose announced bytes are all there is consumed exactly to its announced length, also when its content is malformed |
| DltFrameLaws.CutFrameReport | internal/parser/dltbin.go:46-53 | a cut frame never decodes; it is reported as clean end of stream exactly for cuts at 0, 16 and 20 bytes and as truncated for all others |
| DltFrameLaws.CutWireReport | internal/parser/dltbin.go:157-190 | the same without storage header: clean end exactly for cuts at 0 and 4 bytes |
| DltFrameLaws.StampIsWallClock | internal/parser/dltbin.go:57-60 | the time stamp of a stored frame is its seconds and, within the second, its microseconds |
| DltFrameLaws.MalformedHeaders | internal/parser/dltbin.go:54-56 | a storage header without the magic and a standard header announcing less than four bytes are refused, each with its own error, after exactly their own bytes |
| DltImport.DLTFrameToMessage | internal/parser/dltbin.go:83-99 | a frame is kept with its text, direction and time stamp, counted as truncated, or ignored, as extractor and scanner decide |
| DltImportLaws.CutShipFrameVerdict | internal/parser/dlt.go:83-114 | a SHIP frame at the end of a payload that no CEM pattern captures is kept whole; cut anywhere it is counted as truncated if its marking prefix is complete, and otherwise ignored unless a datagram prefix stands before it |
| DltImportLaws.CutDatagramVerdict | internal/parser/dlt.go:83-114 | a bare SPINE datagram at the end of a payload is kept whole, counted as truncated exactly if its marking prefix is complete, and ignored otherwise |
| DltImportLaws.CutCapturedVerdict | internal/parser/dlt.go:93-102 | a JSON text captured by one of the two Porsche CEM patterns is kept whole with the direction of the pattern; cut anywhere it is counted as truncated |
| DltImportLaws.MarkedVerdict | internal/parser/dlt.go:84-128 | a payload marked as truncated is counted exactly if it shows the protocol id, a datagram, or in the CEM context a session or connection worker tag, and ignored otherwise |
| DltImportLaws.OtherPayloadIsIgnored | internal/parser/dlt.go:93-114 | an unmarked payload that no pattern captures and that holds neither EEBus text is ignored |
| DltImportLaws.FrameVerdict | internal/parser/dltbin.go:83-99 | only verbose frames with text count or are kept; a kept text is complete and carries the frame's time stamp |
| DltImportLaws.LineVerdict | internal/store/logimport.go:417-446 | a line becomes what its payload becomes, except that a complete payload without readable time stamp is ignored |
| DltImport.Count | internal/store/logimport.go:507-520 | one more verdict changes messages, numbers, first and last time stamp and the truncation count as the accounting says |
| DltImport.Finish | internal/store/logimport.go:523-538 | the trace summary of all verdicts, or nothing found without a message |
| DltImport.ImportDLTBinaryFile | internal/store/logimport.go:487-539 | the import is the accounting of all frames up to a clean end of stream, and an error for any other end |
| DltImport.ClassifyLine | internal/store/logimport.go:412-446 | what the text importer does with one line, in the order of its checks |
| DltImport.ImportDLTTextLogFile | internal/store/logimport.go:401-481 | the import is the accounting of all scanned lines, and an error if the scanner fails |
| DltImport.Accounting | internal/store/logimport.go:495-521 | the messages stand one for one, in order and numbered 1..n, for the kept frames; messages, truncated and ignored add up to all frames |
| DltImport.WholeFileImport | internal/store/logimport.go:487-539 | a concatenation of well-formed frames imports to the accounting of what the frames mean |
| DltImport.CutFileImport | internal/store/logimport.go:496-502 | a file cut inside its last frame imports without that frame exactly for header-boundary cuts, and is refused as a whole otherwise |
| DltImportLaws.ZeroTimeIsYearOne | internal/store/logimport.go:516-518 | the zero time that marks an unset start lies as many days before the epoch as the years 1 to 1969 have |
| DltImportLaws.StartIsFirst | internal/store/logimport.go:516-518 | a trace starts at the first time stamp that is not the zero time |
| DltImportLaws.ImportSummary | internal/store/logimport.go:523-538 | nothing is found exactly without a kept verdict; otherwise the trace has the numbered messages, the truncation count, and first and last time stamp |
| Addresses.UintToStr | internal/analysis/subscriptions.go:463-473 | the decimal form of the number |
| Addresses.FormatFeatureAddr | internal/analysis/subscriptions.go:448-461 | the decimal forms of entity parts and feature joined by dots, also for an empty entity list |
| Addresses.EntityAddrString | internal/parser/spine.go:181-190 | the decimal forms of the parts joined by dots, empty for no parts |
| Addresses.DecimalInjective | internal/analysis/subscriptions.go:463-473 | two numbers print alike exactly if they are equal |
| Addresses.DecimalReadsBack | internal/analysis/subscriptions.go:463-473 | a printed number reads back as the number and has no leading zero |
| Addresses.DottedInjective | internal/analysis/subscriptions.go:448-461 | two addresses print alike exactly if they are equal |
| Addresses.PrintersAgree | internal/parser/spine.go:181-197 | the address put together from a message's two printed strings equals the tracker's printed address exactly if entity lists and features are equal |
| Subscriptions.MatchesExactly | internal/analysis/subscriptions.go:226-243 | a notify matches a subscription exactly if the devices agree and, unless the subscription names no server feature, entity list and feature agree |
| SubscriptionLaws.KeysIdentify | internal/analysis/subscriptions.go:48-51 | two elements share a key exactly if clients and servers agree in device and feature address |
| SubscriptionLaws.MessageToSubscription | internal/analysis/subscriptions.go:62-190 | one message: a snapshot or request call starts each listed key afresh at its time, a delete call ends the listed known ones at its time, then a notify counts for active matching ones, and all else stays |
| SubscriptionLaws.DeleteCallEnds | internal/analysis/subscriptions.go:103-118 | after a delete call exactly the keys active before and not listed are active; listed known keys carry its time as their removal |
| SubscriptionLaws.MessageToBinding | internal/analysis/subscriptions.go:120-174 | the same for bindings, without notifies |
| SubscriptionLaws.StaleExactly | internal/analysis/subscriptions.go:193-213 | stale exactly if active, the threshold is positive and exceeded between the last notify, or the creation without one, and the end of the log |
| Subscriptions.Ledger.CreateOne | internal/analysis/subscriptions.go:69-81 | an element replaces the entry of its key by a fresh active one, and a new key is appended to the order list |
| Subscriptions.Ledger.CreateAll | internal/analysis/subscriptions.go:67-82 | the elements of a message extend the replayed history by one creation each |
| Subscriptions.Ledger.DeleteOne | internal/analysis/subscriptions.go:107-117 | an existing entry becomes inactive with its removal time, an unknown key changes nothing |
| Subscriptions.Ledger.DeleteAll | internal/analysis/subscriptions.go:105-118 | the elements of a message extend the replayed history by one deletion each |
| Subscriptions.Ledger.NotifyAll | internal/analysis/subscriptions.go:178-190 | every active matching entry counts the notify, all others stay, whatever the order of the map iteration |
| Subscriptions.UpdateSubscriptions | internal/analysis/subscriptions.go:62-190 | one message extends the subscription history by its events |
| Subscriptions.ChangeSubscriptions | internal/analysis/subscriptions.go:63-119 | the switch over function sets and classifiers picks the creations or deletions |
| Subscriptions.UpdateBindings | internal/analysis/subscriptions.go:120-175 | one message extends the binding history by its events |
| Subscriptions.ListSubscriptions | internal/analysis/subscriptions.go:193-213 | the entries in order of first appearance, stale if active and silent for longer than a positive threshold at the end of the log |
| Subscriptions.ListBindings | internal/analysis/subscriptions.go:215-218 | the binding entries in order of first appearance |
| Subscriptions.TrackSubscriptionsAndBindings | internal/analysis/subscriptions.go:55-224 | both reports are those of the replayed timelines of the log |
| Subscriptions.PresentIffCreated | internal/analysis/subscriptions.go:62-119 | a key is tracked exactly if some event created it |
| Subscriptions.History | internal/analysis/subscriptions.go:53-190 | an entry is active exactly without a delete after its last creation, was removed by the last such delete, and counts exactly the matching notifies from the creation to the first such delete |
| Subscriptions.OrderIsFirstAppearance | internal/analysis/subscriptions.go:75-77 | the order list is the created keys by first creation, each once |
| Subscriptions.OrderListsKeys | internal/analysis/subscriptions.go:56-57 | the order list has no duplicates and holds exactly the keys of the map |
| Subscriptions.ReportIsHistory | internal/analysis/subscriptions.go:53-224 | each reported subscription is the account of its key's history with its staleness, in order of first creation |
| Subscriptions.BindingReportIsHistory | internal/analysis/subscriptions.go:120-218 | each reported binding is the account of its key's history, in order of first creation |
| Subscriptions.CreatesActivate | internal/analysis/subscriptions.go:67-82 | creating elements makes exactly their keys active besides those active before |
| Subscriptions.SnapshotActivates | internal/analysis/subscriptions.go:64-82 | after a snapshot message exactly the listed keys and those active before are active |
| Subscriptions.SnapshotReplacesExactly | internal/analysis/subscriptions.go:64-82 | a snapshot replaces the active keys of any selection of keys, such as a device pair's, if and only if it lists every key of them active before |
| Subscriptions.MissingKeyStays | internal/analysis/subscriptions.go:66 | a log whose snapshot misses a key of the device pair that stays active |
| Subscriptions.SubscriptionsIgnoreBindings | internal/analysis/subscriptions.go:62-190 | logs that differ in binding elements only have the same subscription timeline |
| Subscriptions.BindingsIgnoreSubscriptions | internal/analysis/subscriptions.go:62-190 | and the other way round |
| Hub.StepKeepsInv | internal/api/hub.go:42-119 | every step of every goroutine keeps the invariant of lock, client set, channels and broadcasts |
| Hub.EveryRunKeepsInv | internal/api/hub.go:42-119 | so does every interleaved run from the empty hub |
| Hub.EveryInterleavingIsSafe | internal/api/hub.go:62-119 | in every interleaving no send hits a closed channel, no channel is closed twice, no queue exceeds 256, what a client was written, lost or still has queued is in order what was taken from its offers, and an offer is dropped only when the queue is full |
| Hub.EveryBroadcastReachesItsClientsOnce | internal/api/hub.go:72-82 | a finished broadcast was offered exactly once to each client registered when it began and to no other |
| Hub.UnregisterClosesOnce | internal/api/hub.go:92-99 | whenever the lock is free, a channel is closed, exactly once, if and only if its client is unregistered, whichever pump called |
| Hub.EveryGonePumpUnregistered | internal/api/hub.go:101-119 | in every interleaving a client one of whose pumps is gone is no longer in the client set, so a failed connection is always cleaned up |
| Hub.ClientSetChangesAlone | internal/api/hub.go:48-98 | the client set changes only by a registration or by the lock holder's deletion, and never while a broadcast reads it |
| Hub.NoPumpIsStuck | internal/api/hub.go:101-119 | a write pump can go on unless its queue is empty and its channel open; a read pump can always meet the end of its connection |
| Hub.NoUnregisterIsStuck | internal/api/hub.go:92-99 | the holder of the lock can go on, and a pump on its way out gets the lock once it is free |
| Hub.NoBroadcastIsStuck | internal/api/hub.go:72-82 | a running broadcast can offer its message to a client or end |
| HubObject.HubServer.Register | internal/api/hub.go:42-54 | the client joins the set with an empty open channel |
| HubObject.HubServer.Unregister | internal/api/hub.go:92-99 | the client leaves the set, its channel is closed only if it was still registered, and the calling pump ends |
| HubObject.HubServer.BroadcastEvent | internal/api/hub.go:62-83 | every registered client is offered the data once, and it is queued exactly if there is room |
| HubObject.UnregisterIsRun | internal/api/hub.go:92-99 | an unregister call is a run of the step system with the effect of the method |
| HubObject.SendsAreRun | internal/api/hub.go:75-82 | the sends of a broadcast lead to the same state in whatever order the clients are visited |
| HubObject.BroadcastIsRun | internal/api/hub.go:62-83 | a broadcast is a run of the step system with the effect of the method |
| HubObject.PerformContinues | internal/api/hub.go:42-119 | such runs continue runs of the system, so all safety results hold of them |
| Heartbeat.CollectPoints | internal/analysis/metrics.go:96-111 | the heartbeats grouped by directional pair, pairs in order of first heartbeat |
| Heartbeat.MeasureGaps | internal/analysis/metrics.go:119-127 | the gaps between neighbouring heartbeats of one pair |
| Heartbeat.CollectHeartbeatGapsByPair | internal/analysis/metrics.go:91-130 | gaps for exactly the pairs with two or more heartbeats |
| Heartbeat.CountRoleHeartbeats | internal/analysis/lpc_conformance.go:188-196 | the count is zero exactly if no heartbeat comes from a role device |
| Heartbeat.AddViolations | internal/analysis/lpc_conformance.go:206-219 | the gaps of a pair are counted, the longest is kept, and those longer than 60 s are appended in order |
| Heartbeat.CheckHeartbeatFor | internal/analysis/lpc_conformance.go:171-238 | verdict, evidence and the figures of the summary (gaps, violations, longest gap) are those of all gaps of role pairs |
| HeartbeatLaws.PairedExactly | internal/analysis/metrics.go:67-76 | a message is a heartbeat of a pair exactly if it carries heartbeat data and its device addresses, or without any its network addresses, are the pair |
| HeartbeatLaws.TooLongInOrder | internal/analysis/lpc_conformance.go:206-219 | the evidence keeps the order of the gaps |
| HeartbeatLaws.GapsAreAdjacencies | internal/analysis/metrics.go:88-129 | the gaps of a pair are exactly the intervals between heartbeats of the pair with none of its heartbeats between them |
| HeartbeatLaws.VerdictMeaning | internal/analysis/lpc_conformance.go:222-236 | for every log the four verdicts in terms of the log's messages; the evidence is exactly the adjacencies longer than 60 s |
| HeartbeatLaws.VerdictWithAddresses | internal/analysis/lpc_conformance.go:171-238 | with both addresses on every heartbeat: fail exactly if some adjacency of a role pair is too long, pass exactly if there are some and none is, inconclusive exactly if heartbeats exist but no adjacency |
| HeartbeatLaws.LongestIs | internal/analysis/lpc_conformance.go:208-210 | the longest gap is an upper bound of all gaps and one of them, or 0 |
| HeartbeatLaws.SummaryAgrees | internal/analysis/lpc_conformance.go:222-236 | the shown figures agree with the verdict: worst gap at most 60 s after a pass, above 60 s with at least one and at most as many violations as gaps after a failure |
| HeartbeatLaws.Covered | internal/analysis/lpc_conformance.go:80-82 | if neighbouring time stamps are at most a limit apart, every instant between first and last has one at most that limit before it, sorted or not |
| HeartbeatLaws.PassMeansCovered | internal/analysis/lpc_conformance.go:229-231 | a pass means that at every instant from a role pair's first to its last heartbeat some heartbeat of the pair is at most 60 s old |
| HeartbeatStats.SumAndRange | internal/analysis/metrics.go:142-159 | sum, minimum and maximum of the intervals in milliseconds |
| HeartbeatStats.SumOfSquares | internal/analysis/metrics.go:162-166 | the sum of squared deviations from the mean |
| HeartbeatStats.MeasurePair | internal/analysis/metrics.go:142-167 | the numbers of one pair describe its gaps |
| HeartbeatStats.ComputeHeartbeatJitter | internal/analysis/metrics.go:132-172 | one result for each pair with a gap, in order of first heartbeat, describing its gaps |
| HeartbeatStats.StatisticsAreConsistent | internal/analysis/metrics.go:142-167 | minimum <= mean <= maximum, and the variance is at most (maximum - mean) * (mean - minimum) |
| HeartbeatStats.VarianceWithinRange | internal/analysis/metrics.go:162-167 | the variance is at most a quarter of the squared range |
| HeartbeatStats.MillisecondsTruncate | internal/analysis/metrics.go:145-151 | a duration's milliseconds are truncated towards zero |
| HeartbeatStats.MeasuredExactly | internal/analysis/metrics.go:136-140 | a result exists exactly for the listed pairs with two or more heartbeats |
| HeartbeatStats.GapsTelescope | internal/analysis/metrics.go:113-129 | the gaps of a pair add up to the time from its first to its last heartbeat |
| HeartbeatStats.GapCount | internal/analysis/metrics.go:91-130 | over all pairs there are as many gaps as paired heartbeats less distinct pairs |
| DltFilter.ParseDLTFilter | internal/capture/source_dlt.go:227-255 | the rules of the trimmed entries from left to right, or the first entry's error |
| DltFilter.FilterString | internal/capture/source_dlt.go:202-215 | the printed rules joined by commas |
| DltFilter.Accept | internal/capture/source_dlt.go:183-196 | accepted exactly by an empty filter or some rule with this application id and no or this context id |
| DltFilter.PrintParses | internal/capture/source_dlt.go:201-255 | the printed form of a canonical filter parses back to the filter |
| DltFilter.RoundTrip | internal/capture/source_dlt.go:201-255 | the parser produces exactly the canonical filters, and each of them survives printing and parsing, so the answers of Accept do too |
| DltFilter.AsciiSpaces | internal/capture/source_dlt.go:217-220 | which characters below 128 count as white space |
| DltFilter.ByteLengthBounds | internal/capture/source_dlt.go:249-251 | the four-byte limit counts bytes: as many as characters exactly for ASCII text |
| DltFilter.EntryMeans | internal/capture/source_dlt.go:233-253 | an entry with any space around ids and colon means its ids: an error without application id or with an id over four bytes, and its rule otherwise |
| DltFilter.OuterSpaceIgnored | internal/capture/source_dlt.go:229-232 | space around a whole filter text does not matter |
| DltFilter.WrittenTextParses | internal/capture/source_dlt.go:217-255 | entries written with any space and with blank entries between commas parse to their rules in order or to the first error |
| Capture.Engine.StartWithSource | internal/capture/capture.go:65-90 | refused exactly while capturing; otherwise a new session with the trace and numbers from zero |
| Capture.Engine.Stop | internal/capture/capture.go:93-108 | only the capturing flag is cleared |
| Capture.Engine.Issue | internal/capture/capture.go:167-171 | the next number and the current trace |
| Capture.Engine.Finish | internal/capture/capture.go:213-216 | only the capturing flag is cleared |
| Capture.StepKeepsSessions | internal/capture/capture.go:65-216 | every step keeps that the numbers of each session count up |
| Capture.StepKeepsOrder | internal/capture/capture.go:158-211 | every step keeps that each goroutine inserts what it was issued and announces what it inserted, in order |
| Capture.EveryRunKeepsInv | internal/capture/capture.go:65-216 | both hold after every interleaved run |
| Capture.EverySessionCountsUp | internal/capture/capture.go:65-211 | in every interleaving, also with goroutines that outlive their session, the numbers issued in a session are exactly 1..n in order, each with that session's trace |
| Capture.OneSourceInOrder | internal/capture/capture.go:158-211 | in every session in which one goroutine emits, the session's messages are inserted and announced in the order of their numbers, at most one behind, whatever other sessions the run has |
| Capture.OneEmitterInOrder | internal/capture/capture.go:158-211 | the same for the whole log of a run with one emitting goroutine |
| Capture.OrderlyRunInOrder | internal/capture/capture.go:158-216 | the same for the whole log of any run in which sources finish before the next start succeeds |
| Capture.StepKeepsOwn | internal/capture/capture.go:65-216 | every step of an orderly run keeps each number in its source's own session |
| Capture.OrderlyKeepsOwn | internal/capture/capture.go:167-171 | if no start succeeds while a source is unfinished, every number belongs to the session and trace its source was started for |
| Capture.EarlyStartGoesWrong | internal/capture/capture.go:69-82 | a start that succeeds while a source is unfinished can be continued without a further start so that the source numbers a message in a session not its own |
| Capture.OwnSessionExactly | internal/capture/capture.go:65-171 | all continuations without a further start from all points of a run keep numbers and traces in their own sessions if and only if no start of the run succeeds while a source is unfinished |
| Capture.StaleSourceJoinsNextSession | internal/capture/capture.go:93-108 | a run in which a source outlives its session and is numbered in the next one |
| Capture.CapturingExactly | internal/capture/capture.go:77-216 | the engine is capturing exactly if some start was followed by neither a stop nor the end of any source goroutine |
| Capture.StartOpensSession | internal/capture/capture.go:69-82 | a start opens the next session with its trace, number zero and a source of its own, or changes nothing while capturing |
| Capture.EndingKeepsSession | internal/capture/capture.go:93-216 | stopping and finishing clear the flag and keep trace, numbers and session |
| Capture.NoSourceIsStuck | internal/capture/capture.go:158-216 | a started source can always go on and ends only between messages |
| Capture.MethodsAreSteps | internal/capture/capture.go:65-216 | each step leaves the fields its engine method leaves and issues the number and trace the method returns |
| Flow.ExtractFlowParticipants | internal/analysis/flow.go:27-57 | the non-empty effective addresses in order of first appearance, each once |
| Flow.AddIfNew | internal/analysis/flow.go:31-40 | an address is appended exactly if it is not empty and new |
| Flow.IndexCounters | internal/analysis/flow.go:64-69 | each non-empty counter finds the last row that carries it |
| Flow.BuildCorrelationPairs | internal/analysis/flow.go:62-99 | each row with a reference is paired with the last row of the log carrying that counter, in row order, with ids, latency and relationship of these rows |
| Flow.PairAllRows | web/static/js/flow.js:290-298 | the view's full build gives the rows of the batch pairs |
| Flow.EffectiveAddresses | web/static/js/flow.js:744-750 | device addresses, or network addresses exactly if there is no device address at all |
| Flow.BatchPairsExactly | internal/analysis/flow.go:62-93 | the batch pairs are exactly the responses with the last row carrying the counter they refer to, in the order of the responses |
| Flow.PairShows | internal/analysis/flow.go:80-104 | a pair shows both ids, the time from request to response in milliseconds, and both classifiers joined by a dash |
| Flow.FlowView.SetData | web/static/js/flow.js:174-184 | participants, counter map and pairs are those of a full build of the rows |
| Flow.FlowView.AddParticipant | web/static/js/flow.js:193-206 | an address is appended exactly if it is not empty and not listed |
| Flow.FlowView.AddParticipants | web/static/js/flow.js:189-206 | after a new row the participants are those of the batch build of all rows |
| Flow.FlowView.Correlate | web/static/js/flow.js:208-220 | after a new row map and pairs are those of a view loaded with its first rows and grown by the others |
| Flow.FlowView.AppendMessage | web/static/js/flow.js:186-235 | one row is added and all of the above is kept, so participants equal the batch build for every log |
| Flow.IncrementalEqualsBatch | web/static/js/flow.js:186-299 | the pairs of a grown view equal the batch pairs exactly if no appended row carries a counter that an earlier row refers to |
| Flow.DistinctCountersAgree | internal/analysis/flow.go:59-99 | in particular for distinct counters without references to later rows |
| LogTail.LogTailSource.ReadString | internal/capture/source_logtail.go:73-74 | the bytes up to the first newline, or all that is left together with the end of file |
| LogTail.LogTailSource.ReadNewLines | internal/capture/source_logtail.go:71-87 | all new bytes are read; processed lines, each ending in its only newline, and the newline-free partial make up exactly the bytes read so far |
| LogTail.Poll | internal/capture/source_logtail.go:57-67 | a run of ticks reads all chunks and keeps this |
| LogTail.ReassemblyIsUnique | internal/capture/source_logtail.go:71-87 | lines and partial line are determined by the bytes |
| LogTail.SplitIndependent | internal/capture/source_logtail.go:57-87 | sources that have read the same bytes have processed the same lines, however the bytes were split over the ticks |
| Discovery.Accumulator.Merge | internal/api/depgraph.go:79-106 | the tree afterwards is the merge of the reported entities into the tree before |
| Discovery.Accumulator.AddEntity | internal/api/depgraph.go:80-104 | one entity is merged: a new address is appended, a known one gains the features it lacks |
| Discovery.Accumulator.Extend | internal/api/depgraph.go:93-104 | one entity gains the features with new addresses, the others stay |
| Discovery.Accumulator.Enter | internal/api/depgraph.go:82-91 | a new entity without features stands last |
| Discovery.AddNewFeatures | internal/api/depgraph.go:93-104 | features are appended one by one unless their address is present |
| Discovery.MergeDiscoveryEntities | cmd/eebustracer/devices.go:137-164 | the CLI's merge of the incoming entities into the existing ones |
| Discovery.MergeEntity | cmd/eebustracer/devices.go:142-162 | one step of it, keeping the index of addresses exact |
| Discovery.TreeAddresses | internal/api/depgraph.go:59-62 | both trees list the reported entity addresses in order of first appearance, each once |
| Discovery.MergeIsIdempotent | internal/api/depgraph.go:79-106 | merging the same report again changes nothing, in this implementation and in that of cmd/eebustracer/devices.go |
| Discovery.MergeOfConcatenation | internal/api/depgraph.go:59-62 | merging reports one after the other is one merge of their concatenation, in both implementations |
| Discovery.ApiFeaturesAreUnique | internal/api/depgraph.go:93-97 | every entity of the API's tree lists distinct feature addresses |
| Discovery.FirstOfEachAddress | internal/api/depgraph.go:93-104 | of the features reported for an entity exactly the first of each address is kept |
| Discovery.ApiFeatures | internal/api/depgraph.go:79-106 | an entity has the features reported for it over all reports, of each address the first |
| Discovery.ApiTypes | internal/api/depgraph.go:82-91 | the API keeps the type an entity was first reported with |
| Discovery.CliTypes | cmd/eebustracer/devices.go:155-157 | the CLI keeps the first type that is not empty |
| Discovery.ImplementationsAgree | cmd/eebustracer/devices.go:137-164 | API and CLI give the same entities and features exactly if no first report of an entity repeats a feature address |
| Devices.MergeReport | internal/api/depgraph.go:143-147 | a message's entities and id reach the accumulator of its device |
| Devices.Locate | internal/api/depgraph.go:136-141 | a device seen first gets a new accumulator and the last place in the order |
| Devices.RecordReport | internal/api/depgraph.go:127-148 | one message updates at most the accumulator of its device |
| Devices.ExtractDevicesFromDiscovery | internal/api/depgraph.go:123-155 | each reporting device is listed once, by first report, with one merge of everything reported about it and its last contributing message |
| Devices.ReporterExactly | internal/api/depgraph.go:127-134 | a message reports about a device exactly if it is a reply or notify from it |
| Devices.LastContributionIs | internal/api/depgraph.go:143-147 | the message shown with a device is the last that contributed entities |
| Devices.OwnReportsDecide | internal/api/depgraph.go:119-122 | what is shown of a device depends on its own reports only, however others are mixed in |
| Devices.ShownTreesAreClean | internal/api/depgraph.go:108-117 | a shown tree has each reported entity once, in order, with distinct feature addresses |
| Connections.CollectStates | internal/api/connections.go:49-91 | the eligible messages grouped by unordered device pair, in the orientation and order of first appearance |
| Connections.RecordState | internal/api/connections.go:52-91 | one message is recorded under the pair already listed in either orientation, or under a new one |
| Connections.BuildConnectionStates | internal/api/connections.go:45-101 | each connection reports the states of the messages between its two devices in log order, the last of them, and their anomalies |
| Connections.OneOrientation | internal/api/connections.go:68-83 | no two connections have the same two devices, in either orientation |
| Connections.ExactlyOneConnection | internal/api/connections.go:52-91 | every eligible message belongs to exactly one connection and is among its states |
| Connections.TypesAndPhases | internal/api/connections.go:103-132 | the seven message types with a state, and their phases in the expected order |
| Connections.EligibleExactly | internal/api/connections.go:53-66 | a message takes part in a pair's connection exactly if its type has a state and its device addresses, or without any its network addresses, are the pair |
| Connections.StatesAreFilter | internal/api/connections.go:85-90 | a connection's states stand one for one and in order for the messages between its devices, with their state, time and id |
| Connections.FirstMessageDecides | internal/api/connections.go:71-83 | connections are ordered by their first messages, each in the orientation of its first message |
| Connections.ReportShows | internal/api/connections.go:90-99 | the current state is that of the connection's last message |
| Connections.DetectAnomalies | internal/api/connections.go:124-180 | missing hello exactly if init occurs without hello, early close exactly if the last state is closed and data never occurs, out of order exactly if the non-closed states do not follow the expected order |
| Connections.FindDisorder | internal/api/connections.go:164-177 | the moving index fails exactly if the non-closed states are not non-decreasing in the expected order |
| Writes.GroupByItem | internal/api/writetracking.go:204-208 | the positions of the writes grouped by item |
| Writes.TimeItem | internal/api/writetracking.go:211-216 | in place, each write to the item but the last gets the time to the next, and nothing else changes |
| Writes.ComputeWriteDurations | internal/api/writetracking.go:203-218 | in place, every write gets the time to the next write to its item if there is one, whatever the order of the map iteration |
| Writes.CollectLastWrites | internal/api/writetracking.go:223-230 | the last write of each item, items in order of first write |
| Writes.BuildEffectiveState | internal/api/writetracking.go:221-249 | one entry per item in order of first write, with the fields of its last write |
| Writes.MicrosecondsTruncate | internal/api/writetracking.go:214 | a duration is truncated to whole microseconds towards zero and shown in milliseconds |
| Writes.EffectiveShows | internal/api/writetracking.go:235-246 | an entry shows the fields of its write, and its time as the time since |
| Writes.DurationMeaning | internal/api/writetracking.go:201-218 | for sorted writes a duration exists exactly if a later write has the item, and is the non-negative time to the next such write |
| Writes.EffectiveAreUntimed | internal/api/writetracking.go:201-249 | the effective state is exactly the writes left without a duration |
| Writes.DurationsTelescope | internal/api/writetracking.go:210-217 | if the writes to an item have whole-microsecond time stamps, its durations add up to the time from its first to its last counted write |

## Left out

- DltImport.DLTFrameToMessage: stops at the kept JSON text; normalization, SPINE/SHIP parsing and the message record are foreign JSON code.
- DltImport.ImportDLTTextLogFile: takes the lines as their regular-expression groups with a parsed time stamp, and whether the scanner fails as a flag; the pattern and the time stamp parser with its padding loop are not part of this model.
- DltImportLaws.CutCapturedVerdict: the two Porsche CEM patterns are parameters of the model, functions from a payload to its captured text; `DltImportLaws.CutShipFrameVerdict` and `DltImportLaws.CutDatagramVerdict` cover the payloads neither captures.
- DltFrame.ReadStandardAndPayload: I/O errors of the stream other than its end are not modelled.
- Addresses.UintToStr: unsigned 64-bit numbers are unbounded naturals.
- Subscriptions.TrackSubscriptionsAndBindings: the decoding of payloads into elements is given; durations do not saturate; binding entries use the same record as subscription entries with its notify fields unused.
- Subscriptions.Ledger.NotifyAll: entries are values in a map; the aliasing of Go's map of pointers is not modelled.
- Hub.EveryInterleavingIsSafe: the system works on values; goroutine scheduling fairness and the moment the connection itself is closed are not modelled, and a failed JSON encoding of an event sends nothing.
- HubObject.HubServer.BroadcastEvent: takes the encoded data and holds the lock throughout; the interleaved form is `Hub`.
- Heartbeat.CheckHeartbeatFor: summaries are modelled as the figures they show, not as their texts; notes are left out. Collecting the role sets, counting verdicts and the limit check would only add easy members.
- HeartbeatStats.MeasurePair: keeps the variance in place of its square root, which has no exact real-number algorithm.
- HeartbeatStats.ComputeHeartbeatJitter: works over reals and keeps the variance in place of its square root; rounding is not modelled.
- DltFilter.ParseDLTFilter: texts are Unicode characters with their UTF-8 length; invalid UTF-8 is not modelled, nor are the connection, backoff and emit loops of the DLT source.
- Capture.Engine.StartWithSource: context, cancellation, source name, target and statistics are not modelled, nor any claim that capturing means a running source.
- Capture.Engine.Stop: the cancellation that follows the section under the lock is not modelled; a source may go on for any number of steps.
- Capture.OneSourceInOrder: inserting and the list of callbacks are one step each; a failed insert counts as an insert.
- Flow.FlowView.SetData: drawing, layout and short names are not modelled; the view owns its rows and its maps have no inherited keys.
- LogTail.LogTailSource.ReadNewLines: read errors other than the end of file, and what processLine makes of a line, are not modelled.
- Discovery.MergeDiscoveryEntities: works on values, so the in-place update of the caller's slice is not modelled.
- Devices.ExtractDevicesFromDiscovery: the parsing of discovery payloads is given; it keeps pointers into a growing slice.
- Connections.DetectAnomalies: the three texts are constructors.
- Writes.BuildEffectiveState: label, unit, scope, data type, activity and result are one text field.
- HTTP handlers, templates, CLI output, charts and the rest of the web UI.
- SQLite repositories, migrations and full-text queries.
- The TCP source's chunk handling, mDNS bookkeeping, reconnect backoff and wall-clock behaviour.
- The counters of the capture statistics, which are read one by one.
- `.eet` export and import, label tables and status priorities, which would only add easy members.
