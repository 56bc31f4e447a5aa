# Verified model of the context economizer and the module bus

This project models, in Dafny 4.11, the parts of the Go server that must be right for a request to arrive
unharmed: the economizer, which shortens the message history of a model request, and the bus over which
modules are called. Everything is proved for all inputs, all interleavings and all runs the statements name.

`dafny verify dfyconfig.toml` checks the whole project.

What is modelled, by component:

- **Strict JSON** (`Utf8`, `JsonSyntax`, `JsonReader`, `JsonScanner`, `JsonCompact`, `JsonParser`, `JsonTree`,
  `JsonPrinter`). `JsonSyntax` is the grammar, as trees with their text. `JsonReader` reads a text from the front
  and is proved sound and complete for the grammar. `JsonParser` holds the class with the mutable cursor, proved
  against the reader. `JsonScanner` is the flat two-flag scan. `JsonPrinter` is the printer and its round trip.
- **Trees in memory** (`JsonNodes`): nodes edited in place, and copies that share nothing.
- **Transcript repair** (`Repair`, `RepairProofs`, `RepairAgain`, `RepairOutcome`, `RepairRun`, `RepairLoops`).
  `Repair` says what is repaired, `RepairOutcome` what that means for the ids and for a second run, `RepairRun`
  where a synthetic result stands; `RepairProofs` and `RepairAgain` are the steps there. `RepairLoops` is the code
  on an array that is changed in place.
- **Transcript reduction** (`Fold`, `Compress`, `CompressNodes`, `FoldOverCompressed`, `Reduce`, `ReduceRuns`): the
  two levers, compression on nodes in memory, both levers at once, and the orchestrator over whole conversations.
- **What is carried along** (`Recall`, `StateStore`, `Harvest`, `Coordinates`, `Closet`, `BodySummary`): the page table, its
  persistence and what gets into it, verbatim identifiers, and the summary of one tool result.
- **Gateway** (`Gateway`, `GatewayRequest`): snapshot, replace and restore, first as a function on what can be
  observed, then on nodes.
- **Bus and modules** (`Ring`, `RingAttach`, `Wire`, `BusClient`, `BusInterleaved`, `ModuleFragments`, `ModuleRuntime`,
  `ModuleCalls`): the shared ring as interleaved atomic steps, the two codecs, the clients as calls and as steps,
  fragmenting and reassembly, the server loop, and a call from end to end.
- **Arithmetic and conservation** (`ProofCost`, `OpenAIPlanner`, `Condense`).
- `Sorting` is what the library sorts promise, `Basics` what several modules share.

Conventions. Bytes of the economizer are `char`s below 256, bytes of the bus are integers 0 to 255. Unsigned
words that may wrap are wrapped explicitly. The economizer's helpers that only have to be functions (skeleton
rendering, digests, body shrinking, secret and signal word lists, reading with `encoding/json`, spelling of
floats) are parameters.

Where the code differs from what is said about it:

- The repair looks at one wire shape only, the one the first telling message shows
  (`server-go/modules/economizer/repair.go:159-182`). `RepairCloses` and `SecondRunCounts` give the exact conditions,
  both in terms of the input, `MixedShapesNeedTwoRuns` and `ResultsWithoutUseStay` transcripts that do not meet them.
  A message that is in two shapes at once can take a call with it when it is removed; the conditions count that.
- The serializer's budget counts a key before escaping (`server-go/modules/economizer/state.go:90-94`), so "always
  fits" is false for some keys. `RefusedExactly` says which states are not persisted, `EscapedKeyIsRefused` is one,
  and `NearlyPlainFits` how far keys may be from plain. Harvested keys are plain: `EveryConversationSurvives`.
- With the cost guard refusing, the view moves while the epochs do not
  (`server-go/modules/economizer/reduce.go:342-357`): `GuardedViewMoves` is such a run, and `ReduceFreezeSafety` says
  for every run when the earlier view still is a prefix. `FreezeSafety` is about folding with a freeze.
- The closet's ratio is documented as a percentage, but a ratio of 100 or more caps at the source length all the
  same (`server-go/modules/economizer/closet.go:508-511`); the model follows the code.
- The summary's last cut to the buffer's size (`server-go/modules/economizer/compact.go:214-216`) is never reached:
  `HintIsNeverCut`.

## Model

| member | source | states |
|---|---|---|
| `Utf8.SequenceExact` | server-go/modules/economizer/json_compact.go:118-149 | the byte-range test reports n exactly when the n-byte encoding of some Unicode scalar value is a prefix of the input (section 4 of RFC 3629): no overlong form, surrogate or value past U+10FFFF passes |
| `Utf8.SequenceOfEncode` | server-go/modules/economizer/json_compact.go:118-149 | every encoding is recognised with its length and value, whatever follows it |
| `Utf8.DecodeOfSequence` | server-go/modules/economizer/json_compact.go:118-149 | what is recognised is the encoding of the value its payload bits spell |
| `JsonReader.DocumentExact` | server-go/modules/economizer/json_compact.go:371-429 | the recursive-descent reader accepts a text if and only if it is the text of a valid tree of the declarative grammar, and then returns that tree |
| `JsonReader.UnitSound` | server-go/modules/economizer/json_compact.go:151-234 | one unit of a string literal is read only from a raw UTF-8 scalar, a simple escape, a \u escape or a surrogate pair, and consumes exactly its text |
| `JsonCompact.ValidatorExact` | server-go/modules/economizer/json_compact.go:411-429 | a text passes validation if and only if it is non-empty, at most 16 MiB and a document of the grammar of sections 2 to 7 of RFC 8259 with nesting below 64, at most 65536 members an object and names distinct once decoded |
| `JsonCompact.Unambiguous` | server-go/modules/economizer/json_compact.go:371-396 | a text has at most one syntax tree, so "the tree of the input" means something |
| `JsonScanner.ScannerAgrees` | server-go/modules/economizer/json_compact.go:431-455 | the flat inString/escaped scanner and the recursive grammar agree at every byte of a valid text, and what it keeps is the text of the same tree without its gaps |
| `JsonCompact.CompactMeaning` | server-go/modules/economizer/json_compact.go:411-455 | the output is the input minus exactly the whitespace outside literals, a valid text of the same tree; NotShorter exactly when there was none; compacting again yields NotShorter |
| `JsonPrinter.StripMeans` | server-go/modules/economizer/json_compact.go:431-455 | removing gaps from a tree leaves the value it stands for unchanged |
| `JsonPrinter.CompactKeepsMeaning` | server-go/modules/economizer/json_compact.go:411-455 | every reading of the compacted text is the value the original text stands for |
| `JsonParsing.JsonParser.SkipWS` | server-go/modules/economizer/json_compact.go:79-83 | the cursor stops at the first byte that is not whitespace |
| `JsonParsing.JsonParser.ReadHex4` | server-go/modules/economizer/json_compact.go:97-111 | four hex digits of either case and their value, or a refusal |
| `JsonParsing.JsonParser.ParseString` | server-go/modules/economizer/json_compact.go:151-234 | cursor, status and decoded bytes are those of the specification reader, for both settings of decode |
| `JsonParsing.JsonParser.ParseUnicode` | server-go/modules/economizer/json_compact.go:174-196 | a \u escape: lone low halves refused, high halves only with their pair |
| `JsonParsing.JsonParser.ParseNumber` | server-go/modules/economizer/json_compact.go:236-278 | the digit loops consume exactly what the number grammar of section 6 of RFC 8259 allows |
| `JsonParsing.JsonParser.ParseArray` | server-go/modules/economizer/json_compact.go:280-306 | the array loop ends where and how the specification reader does |
| `JsonParsing.JsonParser.ParseObject` | server-go/modules/economizer/json_compact.go:308-354 | the object loop, with the member cap and the final check on all names, ends where and how the specification reader does |
| `JsonParsing.JsonParser.ParseMember` | server-go/modules/economizer/json_compact.go:316-335 | one member: its decoded name, or the refusal the specification gives, caps included |
| `JsonParsing.JsonParser.ParseValue` | server-go/modules/economizer/json_compact.go:371-396 | the dispatch on the first byte with the depth cap; the recursion terminates because every success advances the cursor |
| `JsonParsing.KeysUnique` | server-go/modules/economizer/json_compact.go:356-369 | sorting and comparing neighbours is true exactly when all names are pairwise distinct |
| `JsonParsing.NeighboursOfNames` | server-go/modules/economizer/json_compact.go:356-369 | in byte order, equal names exist if and only if equal neighbours do |
| `JsonParsing.CopyTokens` | server-go/modules/economizer/json_compact.go:431-450 | the two-flag copy loop computes the flat scan |
| `JsonParsing.JSONCompact` | server-go/modules/economizer/json_compact.go:411-455 | validate the whole text first, then copy: output and status are those of Compact |
| `JsonPrinter.EscapeReadsBack` | server-go/modules/economizer/cjson.go:210-237 | the strict reader on a printed literal consumes it whole and returns the string, for every well-formed UTF-8 string |
| `JsonPrinter.SyntaxMeans` | server-go/modules/economizer/cjson.go:248-285 | the printed text is the text of a valid tree that means the value, has its nesting and no gap in it |
| `JsonPrinter.PrintReadsBack` | server-go/modules/economizer/cjson.go:242-285 | for trees of distinct keys, int32 numbers, nesting within 64 and size within the caps, the printed text is accepted, reads back to the tree, and has nothing to remove |
| `JsonPrinter.DecimalReads` | server-go/modules/economizer/cjson.go:191-203 | an integer's digits have no leading zero and read back to it |
| `JsonPrinter.CjsonEscape` | server-go/modules/economizer/cjson.go:210-237 | the byte loop appends exactly the escaped literal |
| `JsonPrinter.PrintJSONUnformatted` | server-go/modules/economizer/cjson.go:242-285 | the builder loops write the recursive printout |
| `JsonTree.GetAfterSet` | server-go/modules/economizer/jsonval.go:21-56 | what is set is found again, and every other key reads as before |
| `JsonTree.GetAfterDelete` | server-go/modules/economizer/jsonval.go:99-110 | deleting a key leaves every other key as it was |
| `JsonNodes.Node.Lookup` | server-go/modules/economizer/jsonval.go:21-31 | the first value under the key, or nothing |
| `JsonNodes.Node.Assign` | server-go/modules/economizer/jsonval.go:44-56 | replaces the first value under the key where it stands or appends the key; the tree stays a tree |
| `JsonNodes.Node.Insert` | server-go/modules/economizer/jsonval.go:73-87 | an element lands at the index, at the end when past it, in front when negative, and the others keep their order |
| `JsonNodes.Node.RemoveAt` | server-go/modules/economizer/jsonval.go:90-95 | drops one element in place; out of range does nothing |
| `JsonNodes.DropAfterInsert` | server-go/modules/economizer/jsonval.go:73-95 | removing what was inserted gives the array back |
| `JsonNodes.Node.Remove` | server-go/modules/economizer/jsonval.go:99-110 | drops the first such key and keeps the order of the rest |
| `JsonNodes.Node.Clone` | server-go/modules/economizer/jsonval.go:142-161 | the copy stands for the same value and has no node in common with anything that existed |
| `Ring.StepInv` | server-go/bus/ring.go:83-126 | every single load, store or slot write of either side keeps the ring invariant |
| `Ring.StepRefinesQueue` | server-go/bus/ring.go:96-126 | each atomic step is a step of a bounded queue: a publish appends the filled slot, a release drops the oldest, a full or empty answer is honest |
| `Ring.WindowIsSafe` | server-go/bus/ring.go:88-126 | the producer's slot is never in the unread window, and the slot being read holds the oldest unread value |
| `Ring.HeldSlotStays` | server-go/bus/ring.go:113-126 | a slot being read keeps its value through any run in which the reader does not commit |
| `Ring.EveryRun` | server-go/bus/ring.go:83-126 | over every interleaving from a fresh ring, with wrapping 64-bit indices: at most capacity in flight, the index words tell how many, what was consumed is a prefix of what was produced, and history is never rewritten |
| `Ring.WrapDistance` | server-go/bus/ring.go:84-103 | the wrapped difference of wrapped indices is the true distance below a word |
| `Ring.WrapKeepsSlot` | server-go/bus/ring.go:88-91 | wrapping an index at 64 bits does not move its slot, because the capacity divides the word |
| `Ring.SharedRing.ProduceBegin` | server-go/bus/ring.go:96-103 | a slot unless the queue is full |
| `Ring.SharedRing.ProduceCommit` | server-go/bus/ring.go:106-109 | the filled slot joins the queue at its end |
| `Ring.SharedRing.ConsumeBegin` | server-go/bus/ring.go:113-120 | the slot of the oldest unread value unless there is none |
| `Ring.SharedRing.ConsumeCommit` | server-go/bus/ring.go:123-126 | exactly the oldest value leaves the queue |
| `Ring.SharedRing.Count` | server-go/bus/ring.go:84-86 | the number of unread values |
| `RingAttach.AcceptedGeometry` | server-go/bus/ring.go:46-76 | an attached ring has a capacity the protocol is proved for, and the size compared with the mapping fits a signed 64-bit integer |
| `RingAttach.PowerTest` | server-go/bus/ring.go:60-63 | capacity & (capacity - 1) is 0 exactly for powers of two |
| `RingAttach.MaskIsRemainder` | server-go/bus/ring.go:88-91 | index & (capacity - 1) is the index modulo the capacity |
| `RingAttach.SlotsAreInside` | server-go/bus/ring.go:46-91 | for every 64-bit index the slot's bytes lie behind the header words and inside the mapping, and different slots do not overlap |
| `Wire.FrameRoundTrip` | server-go/bus/wire.go:114-217 | an encoded frame decodes to itself whatever follows it |
| `Wire.FrameReencodes` | server-go/bus/wire.go:164-217 | every header that decodes is the encoding of the frame it decodes to |
| `Wire.MessageRoundTrip` | server-go/bus/module_protocol.go:48-95 | an encoded message header decodes to itself in front of its body |
| `Wire.MessageReencodes` | server-go/bus/module_protocol.go:58-95 | every 40-byte header that decodes is the encoding of its message, so the codec is a bijection on valid messages |
| `BusClient.Client.Emit` | server-go/bus/client.go:188-220 | one event is published, or nothing is and the error says which check failed, in the order of the checks |
| `BusClient.Client.Poll` | server-go/bus/client.go:279-305 | the slot handed out last is released first, then the oldest unread event comes out; errors change nothing, and of the ring only the reader's side is touched |
| `BusClient.PolledIsEmitted` | server-go/bus/client.go:188-305 | for the two ends of one ring: what was polled so far is, event for event and byte for byte, the beginning of what was emitted |
| `BusClient.HeldCanBeRead` | server-go/bus/client.go:277-305 | the event handed out last can still be read, unchanged, from the slot it was handed out in |
| `BusClient.Converse` | server-go/bus/client.go:188-305 | over any sequence of Emit and Poll calls on the two ends of one ring both ends stay in order, what was polled is the beginning of what was emitted, and without a Poll the event handed out last stays where it is, byte for byte |
| `BusInterleaved.EveryInterleaving` | server-go/bus/client.go:188-305 | the same with the two calls cut into their loads, stores and slot accesses: however these interleave from a fresh ring, what was polled is the beginning of what was emitted |
| `BusInterleaved.HeldStays` | server-go/bus/client.go:277-305 | through any steps of either side short of the next Poll the slot handed out last is the same, byte for byte, and still decodes to the event handed out |
| `ModuleFragments.PartsExact` | server-go/bus/module_caller.go:134-165 | the pieces join to the body, none exceeds the budget, all but the last are full, and only the last lacks the more flag |
| `ModuleFragments.FragmentReads` | server-go/bus/module_caller.go:143-161 | what a receiver reads off a fragment: kind, correlation, flags, header and exactly the piece's bytes |
| `ModuleFragments.SendFragments` | server-go/bus/module_caller.go:134-165 | the pieces go out in order as far as there is room, all of them exactly when the caller is told so; a budget that cannot hold the header is refused before anything is sent |
| `ModuleFragments.AwaitReply` | server-go/bus/module_caller.go:169-223 | the receive loop is the fold of one turn at a time: an event, nothing with the context and the clock as they then are, or an error of the bus |
| `ModuleFragments.PatientWait` | server-go/bus/module_caller.go:169-223 | while the caller does not give up and the bus holds, the events alone settle the call |
| `ModuleFragments.ReplyRoundTrip` | server-go/bus/module_caller.go:169-223 | for every body up to 16 MiB and every budget above 40 the reply's fragments, mixed with any other traffic, give back exactly the handler's body |
| `ModuleFragments.StatusRoundTrip` | server-go/bus/module_caller.go:199-208 | a refusal arrives as its status |
| `ModuleRuntime.StepInv` | server-go/bus/module_runtime.go:293-429 | every happening of the loop, in any order, keeps the tables, the channel and the books in balance |
| `ModuleRuntime.InFlight` | server-go/bus/module_runtime.go:196-221 | running handlers and queued results are together exactly the jobs |
| `ModuleRuntime.EveryRun` | server-go/bus/module_runtime.go:286-429 | in every reachable state at most 16 assemblies and 16 jobs; a returning handler always finds room in the channel; every request frame was absorbed, refused by one answer or started one job, and every job is answered exactly once |
| `ModuleRuntime.Accumulates` | server-go/bus/module_runtime.go:357-400 | while only non-final fragments arrive, among anything of other correlations, the assembly grows by exactly their bytes |
| `ModuleRuntime.ShortRequest` | server-go/bus/module_runtime.go:340-425 | a body of one fragment starts one job with exactly those bytes and the call's stage, deadline and trace |
| `ModuleRuntime.RequestRoundTrip` | server-go/bus/module_runtime.go:340-425 | for every body up to 16 MiB and every budget above 40, interleaved in any way with other work, the handler gets exactly the bytes that were sent |
| `ModuleRuntime.ModuleLoop.Handle` | server-go/bus/module_runtime.go:345-427 | one polled event changes the loop's maps and flags as the step says |
| `ModuleRuntime.ModuleLoop.HandlerReturns` | server-go/bus/module_runtime.go:196-221 | the result goes into the channel, where there is room |
| `ModuleRuntime.ModuleLoop.CollectOne` | server-go/bus/module_runtime.go:286-291 | one result is answered and its job is gone |
| `ModuleRuntime.ModuleLoop.CollectAll` | server-go/bus/module_runtime.go:302-313 | the drain at the top of the loop leaves no queued result and answers each once |
| `ModuleRuntime.ModuleLoop.Shutdown` | server-go/bus/module_runtime.go:314-325 | after cancelling, the drain receives exactly as many results as there were jobs, nothing runs any more, nothing is sent, and exactly those jobs stay unanswered |
| `ModuleCalls.JobIsAnswered` | server-go/bus/module_runtime.go:196-221 | while no frame of its correlation arrives, whatever else does, a job is there unchanged or was answered with exactly the handler's bytes |
| `ModuleCalls.CallRoundTrip` | server-go/bus/module_caller.go:96-223 | end to end: the fragments of a request become one job with exactly the bytes sent, its answer carries exactly what the handler returned, and the waiting caller puts exactly that together from the reply's fragments, among any other traffic on both sides |
| `RepairOutcome.RepairedIds` | server-go/modules/economizer/repair.go:94-366 | for every transcript and per shape, the ids after repair in terms of the input: calls of messages that are not removed; in the detected shape the results that had a call and the unanswered calls; in the others the results of messages that are not removed |
| `RepairOutcome.UnmixedLosesNothing` | server-go/modules/economizer/repair.go:94-366 | messages that keep to one wire shape lose no call and no result of another shape |
| `RepairOutcome.RepairCloses` | server-go/modules/economizer/repair.go:400-428 | for every transcript, call and result ids are equal afterwards if and only if the ids left by the rule above are; where nothing is lost the calls are the input's, and that is so if and only if no result in a shape the strategy does not look at lacked a call |
| `RepairProofs.CountZero` | server-go/modules/economizer/repair.go:400-428 | the count is 0 if and only if every call is answered and no result of the detected shape is an orphan |
| `RepairProofs.PairedNeedsNothing` | server-go/modules/economizer/repair.go:400-428 | a paired transcript of any shape needs no repair |
| `RepairOutcome.RepairIdempotent` | server-go/modules/economizer/repair.go:400-428 | where the repair closes the pairing a second run counts nothing |
| `RepairAgain.SecondShape` | server-go/modules/economizer/repair.go:159-182 | for every transcript, the shape a second run detects, read off the input: Anthropic stays; otherwise the first message that tells a shape and is not removed, with the synthetic results where they will stand |
| `RepairOutcome.SecondRunCounts` | server-go/modules/economizer/repair.go:159-182 | for every transcript, from its input alone: a second run counts nothing if and only if the calls left are answered and the results left in that shape have calls; where nothing is lost, if and only if that shape is the first one or had no orphan to begin with |
| `RepairOutcome.ResultsWithoutUseStay` | server-go/modules/economizer/repair.go:159-182 | an Anthropic result without any tool_use falls to the OpenAI default and stays an orphan |
| `RepairRun.ResultsStandBehindCalls` | server-go/modules/economizer/repair.go:189-231 | in the OpenAI shape every synthetic result lies in the unbroken run of tool messages right behind the first message issuing its id |
| `RepairRun.MixedShapesNeedTwoRuns` | server-go/modules/economizer/repair.go:159-182 | a mixed transcript for which the second run repairs again |
| `RepairRun.MixedExists` | server-go/modules/economizer/repair.go:159-182 | such a transcript exists |
| `Repair.Unanswered` | server-go/modules/economizer/repair.go:400-428 | the ids that get a synthetic result are exactly the call ids without any result |
| `RepairLoops.IdSet.Add` | server-go/modules/economizer/repair.go:52-74 | the id set keeps first occurrences in order |
| `RepairLoops.CollectIds` | server-go/modules/economizer/repair.go:94-150 | one walk over all messages collects the ids of all three shapes, first occurrences in order |
| `RepairLoops.Transcript.SanitizeArguments` | server-go/modules/economizer/repair.go:376-396 | unparsable call arguments are replaced in place, nothing else |
| `RepairLoops.Transcript.Answer` | server-go/modules/economizer/repair.go:186-366 | the first loop of each strategy answers exactly the unanswered calls, and counts them |
| `RepairLoops.Transcript.DropUncalled` | server-go/modules/economizer/repair.go:233-244 | the backward pass removes exactly the orphan results of the shape, and counts them |
| `RepairLoops.Transcript.TrimUncalled` | server-go/modules/economizer/repair.go:306-332 | the Anthropic pass removes exactly the orphan result blocks, and counts them |
| `RepairLoops.Transcript.Repair` | server-go/modules/economizer/repair.go:400-428 | the in-place loops compute the repaired transcript and its count |
| `Fold.PinnedTurn` | server-go/modules/economizer/fold.go:439-525 | once pinned, a longer transcript folds again at the same boundary or a later one, and the epoch moves exactly when the boundary does |
| `Fold.FreezeSafety` | server-go/modules/economizer/fold.go:409-525 | over whole append-only runs: once folding every later turn folds, the boundary never moves back, epochs tell boundary moves, and between turns of equal epochs the earlier emitted list is a prefix of the later |
| `Fold.TailPaired` | server-go/modules/economizer/fold.go:59-76 | cutting at a clean user turn leaves both ends of every tied pair on one side |
| `Fold.FoldKeepsPairs` | server-go/modules/economizer/fold.go:460-525 | when no clean user turn separates a call from its result, the repair has nothing to do on the folded view |
| `Fold.RunFold` | server-go/modules/economizer/fold.go:409-525 | the method that commits the freeze fields returns the view of the specification |
| `Compress.ShrinkMessageFacts` | server-go/modules/economizer/fold.go:244-304 | compression of a message makes tool bodies strictly shorter or leaves them, and pairing sees no difference |
| `Compress.ViewPositions` | server-go/modules/economizer/fold.go:320-402 | message i of the view is message i of the transcript, shrunk only ahead of the retained band; everything added comes after and carries no id |
| `Compress.CompressKeepsPairing` | server-go/modules/economizer/fold.go:273-304 | for any transcript, calls, results and clean user turns are the same message by message |
| `Compress.CompressKeepsIds` | server-go/modules/economizer/fold.go:320-402 | compression neither opens nor closes a pair |
| `Compress.CompressStable` | server-go/modules/economizer/fold.go:320-402 | for any append-only extension the views agree at every index ahead of the shorter transcript's retained band, a declined pass counting as identity |
| `Compress.CompressKeepsTied` | server-go/modules/economizer/fold.go:320-402 | pairs no fold could split stay so |
| `Compress.ReductionKeepsPairs` | server-go/modules/economizer/fold.go:320-525 | the structural check passes on what compression, folding or both publish |
| `CompressNodes.CompressTree` | server-go/modules/economizer/fold.go:320-402 | on nodes in memory: the bodies are replaced field by field in a copy, note and bridge appended, and the copy stands for the compressed view; the transcript is untouched |
| `CompressNodes.ShrinkMessageIn` | server-go/modules/economizer/fold.go:273-304 | one message node, its three shapes one after another, where it stands |
| `FoldOverCompressed.PrefixStands` | server-go/modules/economizer/fold.go:320-402 | two turns' compressed views agree ahead of s if and only if no message ahead of s leaves the retained band and shrinks in between; ahead of the shorter one's band always |
| `FoldOverCompressed.CompressedReuse` | server-go/modules/economizer/fold.go:439-459 | with both levers on, a pinned boundary is reused exactly when what is ahead of it has settled so and the tail cap allows, and then the rendered prefix is the same |
| `Reduce.FavorablePays` | server-go/modules/economizer/reduce.go:125-151 | pinning is favourable if and only if reads are discounted and writing once and reading over the horizon costs no more than sending fresh |
| `Reduce.FavorableScales` | server-go/modules/economizer/reduce.go:125-151 | the verdict does not depend on the unit of money and never turns bad with a longer horizon |
| `Reduce.PublishedIsPaired` | server-go/modules/economizer/reduce.go:215-240 | whichever levers run, with or without a hint behind it, the published view passes the structural check |
| `ReduceRuns.ReduceFreezeSafety` | server-go/modules/economizer/reduce.go:335-377 | over whole append-only runs of Reduce with the fold on: once a view is published every later turn publishes one and its boundary never moves back; a turn the guard refuses leaves the freeze as it was; and the earlier view is a prefix of the later one if and only if the boundary stands, which on an allowed turn is equal epochs and on a refused one that no later clean user turn is far enough from the end, and no hint was overtaken |
| `ReduceRuns.AllowedRun` | server-go/modules/economizer/reduce.go:335-360 | through turns the guard allows, epochs move exactly with the boundary |
| `ReduceRuns.RefusedTurn` | server-go/modules/economizer/reduce.go:335-360 | on a turn the guard refuses the boundary is derived afresh and stands exactly when no later clean user turn is far enough from the end |
| `ReduceRuns.SkeletonsDiffer` | server-go/modules/economizer/fold.go:476-480 | a skeleton starts with the number of messages it stands for, so prefixes of different length never render alike |
| `ReduceRuns.GuardedViewMoves` | server-go/modules/economizer/reduce.go:342-357 | two turns of one conversation under a refusing guard, published with equal epochs, of which the earlier view is no prefix of the later |
| `Gateway.MutateIsRestorable` | server-go/modules/economizer/gateway_wire.go:114-193 | the attempt applies exactly when every gate, the strict token saving and the structural check pass; then the original is held, otherwise the body is untouched; no breaker is tripped |
| `Gateway.FirstFailureDecides` | server-go/modules/economizer/gateway_wire.go:201-253 | however many events follow dispatch, the first failure alone decides and nothing after it changes anything |
| `Gateway.Restorability` | server-go/modules/economizer/gateway_wire.go:114-253 | over any sequence of events at most one breaker trip and one resend; a resend exactly when the first failure is a 4xx, and then the body holds the original messages as the repair leaves them |
| `Gateway.ResendIsTheRequest` | server-go/modules/economizer/gateway_wire.go:208-216 | the resent body is the very body that came in if and only if the repair leaves the original alone |
| `Gateway.TiedIsNotBypassed` | server-go/modules/economizer/gateway.go:136-147 | with the repair as structural check, transcripts no fold could split are never bypassed by it |
| `GatewayRequest.Replace` | server-go/modules/economizer/gateway.go:153-159 | the array goes under the key, or the container is left as it was |
| `GatewayRequest.Decide` | server-go/modules/economizer/gateway.go:113-149 | the decision, made on a copy so that what is dispatched is not touched |
| `GatewayRequest.Reduce` | server-go/modules/economizer/reduce.go:247-411 | the reducer never writes its input: bodies are replaced in a copy, and what it publishes is fresh |
| `GatewayRequest.BufferedMutate` | server-go/modules/economizer/gateway_wire.go:114-193 | on nodes in memory: either the container is unchanged or the reduced array is in it and the held copy is equal to the original and shares no node |
| `GatewayRequest.BufferedAfterStatus` | server-go/modules/economizer/gateway_wire.go:201-234 | restore in place, trip once, report the resend |
| `GatewayRequest.StreamDisable` | server-go/modules/economizer/gateway_wire.go:238-253 | a failed stream trips the breaker once and leaves the request alone |
| `Recall.FindToken` | server-go/modules/economizer/recall.go:103-121 | the offset loop finds the key if and only if it occurs with no coordinate character on either side |
| `Recall.RecallIndex.Add` | server-go/modules/economizer/recall.go:52-64 | a new key is appended, a known one keeps its residency |
| `Recall.RecallIndex.LastTurn` | server-go/modules/economizer/recall.go:67-75 | the recorded turn of the key, -1 when it is not there |
| `Recall.RecallIndex.SetLastTurn` | server-go/modules/economizer/recall.go:79-86 | only a known key's residency changes |
| `Recall.RecallIndex.Detect` | server-go/modules/economizer/recall.go:152-174 | exactly the mentioned keys out of their residency are brought up, in order, one hint line each |
| `Recall.SurfacingsAreSpaced` | server-go/modules/economizer/recall.go:152-174 | over any conversation the turns on which a key is brought up are at least its residency apart |
| `StateStore.RefusedExactly` | server-go/modules/economizer/state.go:64-110 | a state is not persisted if and only if some entry of the rank order, let in with everything ahead of it by the length of its key, makes the document with its two counters longer than 6144 bytes once the key is escaped |
| `StateStore.NearlyPlainFits` | server-go/modules/economizer/state.go:29-110 | as long as printing lengthens no key by more than 12 bytes, serializing succeeds within 6144 bytes, counters and all |
| `StateStore.StateAlwaysFits` | server-go/modules/economizer/state.go:29-110 | in particular for keys that need no escaping |
| `StateStore.KeptAndDropped` | server-go/modules/economizer/state.go:64-102 | kept plus dropped is the table; what is kept is the front of the rank order, so no dropped key is warmer; the first dropped key did not fit |
| `StateStore.TiesKeepTheirOrder` | server-go/modules/economizer/state.go:75-80 | keys of equal residency stay in the order they were recorded |
| `StateStore.HexRoundTrip` | server-go/modules/economizer/state.go:40-44 | all 64 bits of the digest survive the hex string |
| `StateStore.StateSurvives` | server-go/modules/economizer/state.go:29-181 | whatever is serialized restores to the same turn and freeze and exactly the kept keys with their residency, Reduced false |
| `StateStore.CoordinatesArePlain` | server-go/modules/economizer/recall.go:89-95 | every key in the coordinate alphabet needs no escaping |
| `StateStore.EscapedKeyIsRefused` | server-go/modules/economizer/state.go:87-108 | one key of control characters makes the whole state refuse to serialize |
| `StateStore.ReducerState.SerializeState` | server-go/modules/economizer/state.go:29-110 | the budgeted loop computes the document |
| `StateStore.ReducerState.RestoreState` | server-go/modules/economizer/state.go:128-181 | all fields are replaced, or on any refusal none |
| `Harvest.AddressIsCoordinate` | server-go/modules/economizer/recall.go:130-146 | whatever is harvested is a non-empty path or handle in the coordinate alphabet |
| `Harvest.HarvestKeeps` | server-go/modules/economizer/recall.go:130-146 | harvesting only adds, keeps keys unique and adds nothing but addresses |
| `Harvest.AddFromText` | server-go/modules/economizer/recall.go:130-146 | the loop over the nominated entries records exactly the addresses and counts the new ones |
| `Harvest.EveryConversationSurvives` | server-go/modules/economizer/state.go:29-181 | whatever a conversation harvested and brought up, with int32 figures its state is persisted within 6144 bytes and comes back |
| `Coordinates.MatchUuid` | server-go/modules/economizer/closet.go:144-166 | 36 when the text starts with an 8-4-4-4-12 token that does not go on, else 0 |
| `Coordinates.MatchPath` | server-go/modules/economizer/closet.go:236-275 | the path test: anchored, or bare with a letter and a dotted last segment or two slashes |
| `Coordinates.MatchSha` | server-go/modules/economizer/closet.go:280-297 | a hex run of 7 to 64 with a letter that is a whole token |
| `Coordinates.MatchRef` | server-go/modules/economizer/closet.go:300-309 | # and a maximal run of digits |
| `Coordinates.MatchPrefix` | server-go/modules/economizer/closet.go:169-183 | a handle prefix and a maximal non-empty id |
| `Coordinates.MatchKeyValue` | server-go/modules/economizer/closet.go:187-215 | key=value with a digit, the value without trailing dots |
| `Coordinates.MatchNamesSomething` | server-go/modules/economizer/closet.go:144-309 | whatever matches has a non-empty value inside the match, inside the text |
| `Coordinates.FindMatch` | server-go/modules/economizer/closet.go:364-393 | the first matcher in the fixed order decides |
| `Coordinates.ScanIsLeftmost` | server-go/modules/economizer/closet.go:344-396 | the scan finds exactly the leftmost matches: disjoint, in order, each at a boundary, and no boundary outside them matches |
| `Coordinates.NominationConserves` | server-go/modules/economizer/closet.go:325-396 | every match ends up in the set, each value once per lane, verbatim from the text; what was there stays first |
| `Coordinates.FirstOccurrence` | server-go/modules/economizer/closet.go:313-335 | the entry that stands for a value is its first occurrence in the text, offset included |
| `Closet.CoordSet.Add` | server-go/modules/economizer/closet.go:318-335 | the first occurrence per lane and value is kept |
| `Closet.CoordSet.NominateInto` | server-go/modules/economizer/closet.go:344-396 | the scanning loop adds exactly the nominated entries and counts them |
| `Closet.LessTies` | server-go/modules/economizer/closet.go:569-589 | entries tie only when they agree in everything but the kind |
| `Closet.RenderIsOrderFree` | server-go/modules/economizer/closet.go:495-566 | on a deduplicated set the rendered block does not depend on insertion order |
| `Closet.RenderIsBounded` | server-go/modules/economizer/closet.go:495-566 | the block never exceeds the smaller of budget and ratio cap |
| `Closet.OneDivider` | server-go/modules/economizer/closet.go:517-560 | the agent's lines come first, then one divider and the user's lines if there are any |
| `Closet.NothingSilentlyLost` | server-go/modules/economizer/closet.go:517-566 | EvictNone exactly when every entry's line is present; an eviction is announced by header and note, or by no block at all; the cut is where the next entry no longer fits |
| `Closet.RenderCloset` | server-go/modules/economizer/closet.go:495-566 | the two passes compute the rendered block |
| `BodySummary.BoundBuf.Append` | server-go/modules/economizer/compact.go:83-98 | the buffer holds the first min(pos, cap-1) bytes of everything appended |
| `BodySummary.DescribeJSON` | server-go/modules/economizer/compact.go:119-177 | with all its early exits the walk leaves the same buffer as a description that never stops |
| `BodySummary.SummarizeJSON` | server-go/modules/economizer/compact.go:200-218 | the summary is the unbounded description cut to 1983 bytes, and the size hint |
| `BodySummary.HintIsNeverCut` | server-go/modules/economizer/compact.go:209-217 | the hint is there to its last byte below 2048, and the description is whole exactly when it is short enough |
| `BodySummary.HeadTailConserves` | server-go/modules/economizer/compact.go:221-229 | head and tail are verbatim and the notice accounts for every byte between |
| `BodySummary.SmallBodiesPass` | server-go/modules/economizer/compact.go:237-287 | bodies within their threshold, and any of 64 bytes or fewer, pass unchanged |
| `ProofCost.MoneyAdd` | server-go/modules/economizer/proof.go:196-204 | the sum if and only if it fits 64 bits |
| `ProofCost.ExhaustiveIsMask` | server-go/modules/economizer/proof.go:217-232 | distinct scenario ids are the bits of the coverage mask if and only if the accumulated mask equals it |
| `ProofCost.ValidateProof` | server-go/modules/economizer/proof.go:207-237 | accepted if and only if identity is complete, the scenarios are exactly the mask's bits each once, and the margin is not negative |
| `ProofCost.ProofCostEvaluate` | server-go/modules/economizer/proof.go:245-283 | CostProven if and only if the proof is sound and, over unbounded integers, every candidate upper bound plus margin is below every baseline lower bound |
| `OpenAIPlanner.MulMoney` | server-go/modules/economizer/planner_openai.go:89-97 | the product if and only if it fits |
| `OpenAIPlanner.PricesAreTheRatios` | server-go/modules/economizer/planner_openai.go:130-146 | valid prices are exactly those in the published ratios |
| `OpenAIPlanner.GuardSettlesTheTier` | server-go/modules/economizer/planner_openai.go:152-158 | clear of the guard, every count within it has the same price tier |
| `OpenAIPlanner.InputCostMonotone` | server-go/modules/economizer/planner_openai.go:161-170 | more tokens never cost less, across the tier boundary too |
| `OpenAIPlanner.RejectsDuplicates` | server-go/modules/economizer/planner_openai.go:268-292 | refuses exactly the documents in which some object has a name twice |
| `OpenAIPlanner.ParseLayout` | server-go/modules/economizer/planner_openai.go:199-240 | a layout exactly for a readable document of the pinned model |
| `OpenAIPlanner.LocalProofDecides` | server-go/modules/economizer/planner_openai.go:397-420 | the planner's own proof is sound, and proven exactly when its scenario is cheaper |
| `OpenAIPlanner.ProvenSaves` | server-go/modules/economizer/planner_openai.go:366-420 | a proven plan has strictly fewer candidate input tokens, and saves more than the margin and all the output it may ask for |
| `OpenAIPlanner.OpenAIGPT56Plan` | server-go/modules/economizer/planner_openai.go:306-420 | CostProven if and only if every gate is passed and the scenario is strictly cheaper; then the candidate has fewer input tokens, saves more than margin and output, and keeps its price tier for every count within the guard; rejected only behind all gates; undecided whenever a gate stops it |
| `Condense.JoinOfSplit` | server-go/modules/economizer/condense_primitives.go:49-51 | splitting into lines loses nothing, a trailing newline included |
| `Condense.PiecesConserve` | server-go/modules/economizer/condense_family.go:103-120 | putting back as many blanks as each marker says gives the input line by line with exactly the unkept lines blanked |
| `Condense.FilterConserves` | server-go/modules/economizer/condense_family.go:63-121 | kept lines plus marker counts are the input; markers stand for maximal runs; head, tail, signals and whole failure windows are shown in order |
| `Condense.FailureStaysVisible` | server-go/modules/economizer/condense_family.go:69-78 | a failed command is condensed only with a failure line shown verbatim, and refused exactly when there is none |
| `Condense.AllKeptIsVerbatim` | server-go/modules/economizer/condense_family.go:63-121 | when every line is kept the text comes back byte for byte |
| `Condense.MarkLines` | server-go/modules/economizer/condense_family.go:80-101 | the array marked in place is the mask of kept lines |
| `Condense.SignalFilter` | server-go/modules/economizer/condense_family.go:63-121 | the filter with its marking and flushing loops |
| `Condense.RunsConserve` | server-go/modules/economizer/condense_primitives.go:108-126 | counting immediate repeats loses nothing, and no two neighbouring runs repeat |
| `Condense.DedupLines` | server-go/modules/economizer/condense_primitives.go:108-126 | the run-counting loops compute the runs |
| `Condense.TruncateConserves` | server-go/modules/economizer/condense_primitives.go:134-168 | the first head and last tail lines and every line with the signal are shown, the others counted |
| `Condense.TruncateWithSignal` | server-go/modules/economizer/condense_primitives.go:134-168 | verbatim when it already fits, else the lines and markers of the mask |

## Left out

- BusClient.Client.Poll: does not model a payload reference whose end wraps 64 bits; payloads are inline ones behind the header, and arena placement (CheckPlacement) is not part of this model.
- Fold.FreezeSafety: a run is of one transcript that only grows under one configuration with a freeze; the digest is any function of the prefix, so nothing is claimed about collisions.
- StateStore.StateSurvives: the blob is read with the strict reader of this project where the code uses encoding/json, the keys are well-formed UTF-8 and the figures int32.
- StateStore.RefusedExactly: the figures are int32 and the digest 64 bits; how wider numbers print is library formatting.
- StateStore.NearlyPlainFits: likewise for int32 figures and a 64-bit digest.
- StateStore.StateAlwaysFits: likewise for int32 figures and a 64-bit digest.
- ModuleRuntime.RequestRoundTrip: asks for room in both tables, no deadline passed and no cancel of the call; the refusals themselves are in EveryRun.
- JsonPrinter.PrintReadsBack: numbers are int32; any other number is its own spelling, which nothing looks into (%.15g, %.17g and the epsilon comparison are library formatting).
- Closet.RenderIsBounded: for a source length that is not negative; the product with the ratio is taken without wrap-around.
- OpenAIPlanner.ParseLayout: turning a JSON number into an unsigned count is a parameter.
- GatewayRequest.BufferedMutate: the injected check is any function that rewrites the tree it is given; breaker expiry by time and nil contexts are not modelled.
- Reduce.FavorablePays: prices are exact reals where the code computes in float64, so a verdict that hangs on the last bit of a product is not modelled.
- Reduce.FavorableScales: for exact reals; in float64 a unit can overflow or round.
- ReduceRuns.ReduceFreezeSafety: a run is of one conversation under one configuration, starting without a freeze or with one pinned on an earlier state of it, the fold on and compression off; what a hint says is a parameter. The saved-cost forecast in floats is not modelled.
- FoldOverCompressed.CompressedReuse: for boundaries on the transcript's own messages; a boundary on the note itself, possible when one message is retained, is not covered.
- ModuleFragments.SendFragments: retries on a full ring are the room the outbox has; deadlines, contexts and sleeping are not modelled.
- ModuleFragments.AwaitReply: sleeping between turns is not modelled, and the cancel sent after giving up is not part of it.
- ModuleCalls.CallRoundTrip: for a call that is not cancelled, finds room in both tables and meets its deadline; the bus errors that end the loop are not modelled.
- ModuleRuntime.ModuleLoop.Handle: bus errors that end the loop are not modelled; a reply always goes out.
- Attaching over a socket, mapping memory, heartbeats, signals and process start: operating-system plumbing; the ring's words are sequentially consistent.
- ParseJSON, skeleton rendering, prefix digests, FNV and SHA-256: functions that nothing here looks into.
- The production registry and its signature, ProofEvaluate, planner_anthropic.go: registry lookups and a near copy of the planner that is here.
- TCStripNoise: not idempotent, since removing one escape can join bytes into another; its line filter is not modelled.
- eager.go: documented as uncalled.
- Spill files, eviction by file time, recall from disk and process-wide counters: file input and output.
- budget.go, register.go, rail.go, episode.go, provenance.go, module.go, condense_recognize.go: would only add easy members.
- The C files under src: transport facades and an older copy of the gateway contract.
