# Fabric in Dafny: admission, delivery, custody, tailing, codecs

Fabric collects observations. A producer hands them to a bounded in-memory queue or to an SDK client; a daemon keeps
them in a store keyed by identity; file sources tail logs into the same store; experimental codecs pack batches of them.
This project models that code and proves what it promises about whole runs, all schedules and all inputs.

| modules | what they model |
|---|---|
| `Kernel`, `Admission`, `AdmissionInvariant`, `AdmissionTheorems`, `AdmissionProgress`, `AdmissionVerdicts`, `AdmissionSequential` | the concurrent admission queue as a transition system: every actor has a program counter, every mutex a holder, and a schedule is any list of calls, single steps and lease drops |
| `Custody`, `Sdk`, `Delivery` | the production store, the SDK client, and both joined by a network that delays, duplicates, reorders and loses messages while the server crashes at will |
| `Json`, `JsonReading`, `Unicode`, `Observations`, `DocumentReading`, `DocumentMeaning`, `Validation` | JSON values, their compact text and its reading, the nesting scanner (whole and streaming), UTF-8, observations, their validation and their serde mapping |
| `Binary`, `Codec`, `CodecBounds`, `CodecFrames`, `CodecTheorems`, `CodecPrefix`, `CodecBudgets`, `CodecFormat`, `CodecMachines` | the row and column codecs with their dictionary, decoder budgets and codes |
| `Direct`, `DirectTheorems`, `DirectMachines` | the direct codec and its streaming validator |
| `Tail`, `TailPass`, `TailFresh`, `TailCoverage`, `TailProgress` | the file source: cuts, checkpoints, truncation, restart, and runs over one growing file |
| `TailRotation`, `TailRuns`, `TailCatchUp`, `TailRewrite` | rotation: one descriptor's cuts, and runs over files that follow one another under the path; files cut short or written over |
| `BatchStore` | native batch custody: frames with an identity index, ordered reads, the contiguous frontier |
| `Wire`, `Framing`, `Server` | the read envelope, the export loop, one connection's request and reply, and the daemon's ticks over its connections |
| `Kahn`, `Linearize`, `Intervals` | the FIFO linearizability checker and three interval unions |

Code that changes objects step by step is a class or a method with loops, proved against a function of the old state; the
theorems are about those functions. The queue and the delivery protocol are state machines, because their promises are
about interleavings. What the repository takes from libraries is a parameter with only the facts used: float printing and
conversion (`Json.Floats`), parsing of printed text (`CodecFrames.Library`), the digest, the observation encoder and the
checkpoint text of a source (`Tail.Library`). SQLite transactions are atomic updates of maps and may be refused.

Runs are lists of moves, so a theorem over all lists is a theorem over all schedules. A function applied to the run
so far gives the state; invariants are predicates on it.

## Model

| member | source | states |
|---|---|---|
| AdmissionTheorems.Refines | fabric/src/admission/queue.rs:149-290 | every schedule is, event by event, a run of one atomic bounded FIFO: acceptance at the push, dequeue at the pop, leases given back, closed for good |
| AdmissionTheorems.AnswersJustified | fabric/src/admission/queue.rs:113-142 | every answer a call settles on is the one its last step justifies; Invalid, TooLarge, Full and Exhausted only of an open queue; Full only when every slot was ready or leased in that state; Contended only when the lock just tried was held, a slot probed before was, or the count of an open queue found room after a full scan |
| AdmissionVerdicts.ClosedRefusesAsClosed | fabric/src/admission/queue.rs:122-124 | once the queue is closed no later call is answered Invalid, TooLarge or Full, and the rejection count stands for good |
| AdmissionVerdicts.RejectedCounts | fabric/src/admission/queue.rs:113-142 | in every run the rejection count is the number of calls answered Invalid, TooLarge or Full, up to the 64-bit maximum |
| AdmissionVerdicts.LockedSlotIsContention | fabric/src/admission/queue.rs:173-236 | a call that has found a slot locked never answers Full, however the queue looks when it is done |
| AdmissionProgress.FlagsAreEarned | fabric/src/admission/queue.rs:173-178 | in every run a call marked contended has found a slot locked at one of its own earlier steps |
| AdmissionSequential.RecordAnswers | fabric/src/admission/queue.rs:149-236 | after any schedule that leaves no mutex held, a record call with nobody in between returns with the first that applies of Closed, Invalid, Full, TooLarge, a failed serializer, Exhausted, Accepted in the state it found, and does to queue and count what that answer says |
| AdmissionSequential.RecordAccepts | fabric/src/admission/queue.rs:149-230 | after any schedule a valid record that fits, recorded with nobody in between into an open queue with a free slot, tickets left and no mutex held, is accepted and is then the last ready record with its whole text |
| AdmissionSequential.DropReturns | fabric/src/admission/queue.rs:44-60 | a live lease dropped with nobody in between gives its buffer back free and empty to its cell, one lease fewer is out, and the queue stands as it was |
| AdmissionSequential.ShutdownCloses | fabric/src/admission/queue.rs:279-290 | a shutdown with nobody in between is answered Ok, closes the queue and touches nothing else |
| AdmissionSequential.DequeueFindsNothing | fabric/src/admission/queue.rs:237-278 | a dequeue of an empty queue with nobody in between finds nothing, open or closed, and changes nothing |
| AdmissionSequential.GuardsLeave | fabric/src/admission/queue.rs:44-60 | whoever leaves with both mutexes gives them up in its own order: a record and a lease drop the state first, a dequeue the slot |
| AdmissionSequential.ScansTakeTurns | fabric/src/admission/queue.rs:160-174 | in every run calls begin their scans at the slots in turn: the k-th to fetch a probe at k modulo 2^64 modulo the slots |
| AdmissionTheorems.Delivery | fabric/src/admission/queue.rs:217-277 | no fault branch is ever reached; exactly the accepted calls are in the log, once each, with the bytes encoded at commit; tickets are consecutive and each lease holds the log's bytes at its ticket |
| AdmissionTheorems.CallsReturn | fabric/src/admission/queue.rs:149-236 | a call returns within a fixed number of its own steps under any interleaving: no call waits for another |
| AdmissionTheorems.SomeoneSteps | fabric/src/admission/queue.rs:44-60 | when anything is pending some actor can step: the slot-then-state acquisition in the lease drop never deadlocks against the try-locks |
| AdmissionTheorems.ClosedPublishesNothing | fabric/src/admission/queue.rs:210-216 | once shutdown has taken effect no later schedule adds a record |
| AdmissionTheorems.DequeueDrains | fabric/src/admission/queue.rs:237-278 | a dequeue run alone, closed queue or not, takes the front record with its bytes and ticket |
| AdmissionInvariant.RunInv | fabric/src/admission/queue.rs:9-60 | in every reachable state locks agree with program counters, each buffer has exactly one owner, ready tickets are head..next, `leased` is the number of live leases |
| AdmissionInvariant.ChargesBounded | fabric/src/admission/queue.rs:125-139 | ready plus leased never exceeds the slots, and reaches it only when every slot is ready or leased |
| AdmissionInvariant.StepKeeps | fabric/src/admission/queue.rs:44-290 | every single step of every actor keeps that invariant, rollback guards included |
| Admission.EncodeMeaning | fabric/src/admission/mod.rs:141-171 | the bounded writer succeeds exactly when all chunks fit, and then the buffer starts with their concatenation |
| Admission.EncodeInPlace | fabric/src/admission/mod.rs:146-171 | the in-place writer does to the buffer what the specification says, for any chunking |
| Custody.Store.Submit | fabric/src/spindle/custody.rs:127-175 | record and checkpoint are published together or not at all; refusals, repeats and conflicts change nothing |
| Custody.ReceiptsLast | fabric/src/spindle/custody.rs:138-150 | after any later history the same bytes get the same id marked duplicate, other bytes under that identity a conflict |
| Custody.SubmitAppends | fabric/src/spindle/custody.rs:159-174 | submissions only append, keep identities unique, and change the tables exactly when the receipt is new |
| Custody.SubmitAnswers | fabric/src/spindle/custody.rs:127-175 | each answer has its exact cause: what does not decode, a checkpoint out of bounds, the same bytes stored, other bytes stored, no room; anything else is stored last under the next number with its checkpoint |
| Kernel.CreditLives | admission-kernel/src/lib.rs:44-190 | whatever is called on a credit it keeps its identity and capacity, and holds nothing while free or reserved |
| Sdk.WindowContracts | admission-kernel/src/delivery.rs:4-37 | the next sequence is given exactly while the window has room, and confirmed exactly for the one behind the frontier |
| Sdk.AnswersExactly | fabric/src/sdk.rs:148-224 | of any pool in order each answer has its exact cause, acceptance included: an open client, a sequence and a slot left, valid data, shallow text that fits; a refusal changes nothing but bytes in a free buffer |
| Sdk.SettlesOnce | fabric/src/sdk.rs:298-331 | an exchange raises the frontier by one and keeps the receipt exactly if the receipt is for the sequence behind it, and is otherwise counted as a retry with the record back in front |
| Sdk.Client.TryRecord | fabric/src/sdk.rs:148-224 | the call in place: the new pool is the specification's, and no credit assertion in it can fail |
| Sdk.Client.Take | fabric/src/sdk.rs:283-292 | taking the front buffer for delivery |
| Sdk.Client.Settle | fabric/src/sdk.rs:298-331 | a matching receipt advances the frontier and frees the buffer, anything else puts it back in front |
| Sdk.MatchingReceiptAdvances | fabric/src/sdk.rs:300-313 | in a pool in order a receipt for the buffer in flight always confirms: the frontier check cannot refuse it |
| Sdk.FreeIsTheRest | fabric/src/sdk.rs:160-169 | when the window has room the free list is not empty: that branch is dead |
| Delivery.EndToEnd | fabric/src/sdk.rs:274-333 | over any run the store holds for this generation exactly sequences 1..c with the bytes fixed at admission, confirmed <= c <= confirmed + 1 |
| Delivery.NeverConflicts | fabric/src/spindle/custody.rs:138-150 | no retry of the client is ever an identity conflict |
| Delivery.PoolConserved | fabric/src/sdk.rs:378-403 | slot ids over free, ready and in flight are exactly 0..slots, accepted minus confirmed is what is charged, ready sequences are consecutive |
| Delivery.FlushIsDurable | fabric/src/sdk.rs:226-250 | flush returning Ok means every sequence up to the frontier captured on entry is in the store |
| Delivery.ExchangeConfirms | fabric/src/sdk.rs:293-318 | whatever came before, serving the request in flight and settling with the server's own answer to it confirms the oldest unconfirmed record, given that the server decodes what passed the client's own checks |
| Delivery.WindowDrains | fabric/src/sdk.rs:274-333 | after any run of an open client n undisturbed exchanges confirm n more records or all that are left, and then the store holds every accepted one |
| Delivery.FlushReturns | fabric/src/sdk.rs:226-250 | a flush waiting through such a drain returns Ok whatever its clock says, exactly if the client is not closed before it wakes |
| Delivery.FlushReceipt | fabric/src/sdk.rs:226-250 | a flush that returned Ok for a frontier above 0 holds the server's receipt for a sequence of this client no earlier than that, and the row it names is stored with the text fixed at admission |
| Delivery.FlushEnds | fabric/src/sdk.rs:226-250 | at each look and each wake-up a flush returns, fails or waits on exactly when the frontier, its deadline and the client say so |
| Delivery.ClosedIsFinal | fabric/src/sdk.rs:154-156 | after a close no continuation admits or sends anything, and with nothing in flight the frontier stands |
| Json.CheckJsonDepth | fabric/src/observation.rs:170-199 | the loop accepts exactly the texts within the limit whose scanned peak is within the depth |
| Json.Limit.Write | xtask/src/representation/direct.rs:251-281 | a chunk is accepted exactly when everything so far with it is within both bounds |
| Json.Stream | xtask/src/representation/direct.rs:293-311 | for every way of cutting the text into writes, the streamed verdict is the scanner's on the whole |
| Json.PrintedDepth | fabric/src/observation.rs:170-199 | on printed JSON the scanner's peak is the true nesting: brackets and escaped quotes in strings never count |
| Json.ScanPrinted | fabric/src/observation.rs:174-197 | scanning a printed value from any state comes back to that state with the peak raised by its nesting |
| Json.GetInsert | xtask/src/representation/mod.rs:376-390 | inserting a new key into the sorted map changes the lookup of that key only |
| JsonReading.PrintedReads | fabric/src/observation.rs:161-166 | a reader of compact JSON undoes the printing of every value, strings with any bytes and numbers of every kind, given that float texts read back |
| JsonReading.EscapesAre | fabric/src/observation.rs:161-166 | of the escapes a reader takes for one byte the printer uses the short one, lower-case hexadecimal where there is none |
| DocumentReading.TextReads | fabric/src/observation.rs:161-166 | the text of every typed observation is parsed back to that observation |
| DocumentReading.CanonicalMeans | xtask/src/representation/mod.rs:205-219 | with these readers a batch is canonical exactly when it has 1 to 32 valid records whose texts pass the scanner, all within the batch limit |
| DocumentReading.JsonRoundTrip | xtask/src/representation/mod.rs:240-246 | a JSON frame of any canonical typed batch decodes to the very records |
| Validation.WalkIsSum | fabric/src/observation.rs:223-245 | the walk that spends a budget accepts exactly the values within the local limits whose values and bytes, summed, can be paid for |
| Validation.JsonLogValid | fabric/src/observation.rs:134-142 | a JSON log is valid exactly with 1 to 64 named fields, at most 4096 values and 65536 bytes of strings and inner keys, each value within its own limits |
| Validation.MetricValid | fabric/src/observation.rs:144-156 | a metric is valid exactly with names of up to 256 and 64 bytes and a finite value that, for a counter, is at least 0 as the real number its bits stand for, negative zero included |
| Validation.TextsValid | fabric/src/observation.rs:119-157 | every other kind is valid exactly when each of its texts is nonempty, without a zero byte and within its own limit |
| Validation.EnvelopeValid | fabric/src/observation.rs:99-114 | an observation is valid exactly with version 2, this registry, a sequence above 0, names within 128, 128 and 256 bytes, and valid data |
| Unicode.Utf8Exactly | fabric/src/spindle/sources.rs:273-278 | text is accepted as UTF-8 exactly if it is the encoding of some sequence of Unicode scalar values |
| Observations.ValueRoundTrip | fabric/src/observation.rs:161-166 | reading the value an observation maps to gives the observation back, every kind and field of it |
| DocumentMeaning.ReadsExactly | fabric/src/observation.rs:10-97 | a value reads as an observation exactly if it is an object of its six members and no others, numbers within their widths, names as strings or null-valued objects, the data of its kind likewise |
| Observations.FromEnvelope | xtask/src/representation/mod.rs:488-492 | any object holding the six envelope fields reads as that observation, whatever their order |
| Codec.ValueBack | xtask/src/representation/mod.rs:329-395 | the reader takes exactly the bytes of an encoded value, returns that value, and pays exactly its cost in nodes and expanded bytes |
| Codec.NumBack | xtask/src/representation/mod.rs:149-164 | every number variant survives, two's complement and float bits included |
| Codec.TextBack | xtask/src/representation/mod.rs:165-182 | enumerated, dictionary and plain strings all decode to the string |
| Codec.FieldsBack | xtask/src/representation/mod.rs:371-392 | the sorted fields of an object come back in place, never as duplicates |
| CodecBounds.CostPrinted | xtask/src/representation/mod.rs:436-438 | a value costs no more nodes and no more expanded bytes than it prints |
| CodecBounds.EncPrinted | xtask/src/representation/mod.rs:145-204 | an encoding is at most three times the printed length plus one separator |
| CodecBounds.ValuePrinted | xtask/src/representation/mod.rs:255-258 | the sorted tree prints as long as the record in declaration order |
| CodecBounds.ValueFits | xtask/src/representation/mod.rs:330-375 | what validation accepts is within the reader's counts and key rules |
| CodecFrames.DictionaryBack | xtask/src/representation/mod.rs:456-465 | the dictionary header reads back as the dictionary and resets the expansion count |
| CodecFrames.GatheredOk | xtask/src/representation/mod.rs:119-144 | gathering keeps entries distinct, UTF-8, at most 1024 and at most 65536 bytes |
| CodecFrames.GatheredHolds | xtask/src/representation/mod.rs:119-144 | the dictionary gets, behind what it holds, exactly the strings that occur under interned keys, as far as there is room |
| CodecTheorems.BodyBack | xtask/src/representation/mod.rs:471-484 | rows and transposed columns both read back as the values, no budget ever short |
| CodecTheorems.FrameRoundTrip | xtask/src/representation/mod.rs:247-288 | decoding a row or column frame of any canonical batch returns the very records |
| CodecTheorems.FrameFits | xtask/src/representation/mod.rs:284-286 | the frame limit never refuses a canonical batch |
| CodecPrefix.PrefixFree | xtask/src/representation/mod.rs:428-496 | of two accepted frames, whoever made them, neither is a strict prefix of the other |
| CodecPrefix.FrameRefusesCut | xtask/src/representation/mod.rs:296-301 | every strict prefix of an encoded frame is refused |
| CodecPrefix.FrameRefusesMore | xtask/src/representation/mod.rs:485-487 | every proper extension of an encoded frame is refused |
| CodecPrefix.ValueLocal | xtask/src/representation/mod.rs:329-395 | a value is read from its own bytes alone |
| CodecBudgets.ReadPays | xtask/src/representation/mod.rs:329-395 | from any bytes whatever the reader returns only well-formed values no deeper than allowed, and has paid one node a value and one unit a byte of text, never past either budget |
| CodecBudgets.DictionaryPays | xtask/src/representation/mod.rs:456-465 | a dictionary that is read has at most 1024 entries of together at most 65536 bytes of UTF-8 |
| CodecBudgets.DecodedIsCanonical | xtask/src/representation/mod.rs:428-496 | whatever decodes, from whoever's frame, is 1 to 32 valid records of texts that decode, within the batch limit |
| CodecBudgets.StringReads | xtask/src/representation/direct.rs:361-375 | of a direct row's string the reader takes its length, or none, and at most 65536 bytes of text while all strings stay within 262144; anything else is refused |
| CodecBudgets.RowsPay | xtask/src/representation/direct.rs:354-378 | the records read are those of the rows read, whose strings have together at most 262144 bytes |
| CodecBudgets.DecodedIsValidated | xtask/src/representation/direct.rs:337-384 | the same of direct frames, by the streaming validator's limits |
| CodecFormat.ValueCodes | xtask/src/representation/mod.rs:145-164 | the codes and bytes of every value that is not text |
| CodecFormat.TextCodes | xtask/src/representation/mod.rs:165-182 | which of the three encodings a text gets under a key, and its bytes |
| CodecFormat.KeyNumbers | xtask/src/representation/mod.rs:13-42 | the stable number of every key |
| CodecFormat.FrameLayout | xtask/src/representation/mod.rs:247-288 | the parts of every frame in order: a row frame has no dictionary; one by columns has its shared strings in order of first sight as far as they fit, then the six columns |
| CodecFormat.RowParts | xtask/src/representation/direct.rs:37-160 | the numbers and strings of a direct row for every kind made of texts and numbers |
| CodecFormat.RowMeans | xtask/src/representation/direct.rs:158-242 | a row reads as an observation exactly if it holds its numbers, codes and strings, flags below 4 and shallow JSON text where the kind has them, and the observation is valid |
| CodecMachines.Interner.Gather | xtask/src/representation/mod.rs:119-144 | the map of ids and the byte count, updated in place, are the specification's list |
| CodecMachines.Interner.Ordered | xtask/src/representation/mod.rs:267-271 | sorting the map by id gives the entries in order of first sight |
| CodecMachines.Buffer.Value | xtask/src/representation/mod.rs:145-204 | appends exactly the encoding, the map lookup standing for the list position |
| CodecMachines.Encode | xtask/src/representation/mod.rs:247-288 | returns the frame exactly for canonical batches within the frame limit |
| CodecMachines.Reader.Value | xtask/src/representation/mod.rs:329-395 | the reader in place follows the specification: same value, same position, same budgets, or both refuse |
| CodecMachines.Reader.Column | xtask/src/representation/mod.rs:477-483 | one column put into the objects in place |
| CodecMachines.Decode | xtask/src/representation/mod.rs:428-496 | the whole decoder in place is the specification |
| DirectTheorems.RowBack | xtask/src/representation/direct.rs:18-242 | `observation` undoes `row` on every record validation accepts |
| DirectTheorems.DirectRoundTrip | xtask/src/representation/direct.rs:314-384 | decoding a direct frame returns the very records; no string budget or UTF-8 check refuses encoder output |
| DirectTheorems.DirectFits | xtask/src/representation/direct.rs:332-334 | a validated batch never reaches the frame limit |
| DirectTheorems.DirectPrefixFree | xtask/src/representation/direct.rs:337-384 | accepted direct frames are prefix-free |
| DirectTheorems.DirectRefusesCut | xtask/src/representation/direct.rs:342-349 | every strict prefix of an encoded direct frame is refused |
| DirectTheorems.DirectRefusesMore | xtask/src/representation/direct.rs:379-381 | every proper extension is refused |
| DirectTheorems.ValidateIsCanonical | xtask/src/representation/direct.rs:287-313 | the streaming validator and the materialising one accept the same batches, given that parsing undoes the printing of records that fit |
| DirectTheorems.PrintUtf8 | xtask/src/representation/direct.rs:98-107 | the text of a well-formed JSON value is UTF-8 |
| DirectMachines.Validate | xtask/src/representation/direct.rs:287-313 | streaming each record and then the batch, cut anyhow, decides the specification |
| DirectMachines.Encode | xtask/src/representation/direct.rs:314-336 | the append loop yields the payload exactly for validated batches |
| DirectMachines.Decode | xtask/src/representation/direct.rs:337-384 | the loop over the shrinking slice is the specification |
| Tail.FileSource.Poll | fabric/src/spindle/sources.rs:99-315 | the poll in place, opening, turns and commits included, moves source and store exactly as the specified poll the theorems are about |
| TailFresh.SubmissionsAreFresh | fabric/src/spindle/sources.rs:99-127 | across truncation, rotation, restart and refusals, until a counter saturates, every submission is strictly ahead of the saved (epoch, offset) and never answered as duplicate or conflict |
| TailFresh.RowsAreOwn | fabric/src/spindle/server.rs:244-256 | reserved producers being refused at the socket, every row under the source's name is one of its own accepted attempts |
| TailFresh.ClientsAddNothingReserved | fabric/src/spindle/server.rs:244-256 | no client submission adds a row under host, file: or journal: names or moves any checkpoint |
| TailFresh.LastEpochRepeats | fabric/src/spindle/sources.rs:199-211 | in the last epoch a truncation's record has the identity of the epoch's first one, so the attempt is answered as conflict or duplicate |
| TailFresh.MemoryIsSaved | fabric/src/spindle/sources.rs:117-126 | the remembered position is the saved one, so a crash loses nothing |
| TailFresh.GenerationEpoch | fabric/src/spindle/sources.rs:101-106 | the generation text tells epochs apart |
| TailPass.LogsAreLines | fabric/src/spindle/sources.rs:248-310 | while the path keeps naming the file, only a whole short line is ever a log, and the tail of an oversized line never is; a log has the line's very bytes, a JSON log the fields it parses to, and otherwise the note says which check failed |
| TailRotation.LogsAtBoundaries | fabric/src/spindle/sources.rs:218-311 | for any reads and any comings and goings of the path, a log starts at a line boundary exactly when the cut before it was not an unterminated one taken while the path named another file |
| TailRotation.RotationLosesTheMark | fabric/src/spindle/sources.rs:259-260 | 65537 bytes of an unfinished line read while the path names another file leave no mark, and the rest of the line is then taken for a line |
| TailRotation.ConsumedIsCut | fabric/src/spindle/sources.rs:248-311 | what one turn commits, with rotation: these bytes, this data, this mark, or nothing yet |
| TailRotation.CutSays | fabric/src/spindle/sources.rs:254-310 | what is filed for any cut: the line, or the note for an oversized, continued or unterminated one, rotation named exactly when the path names another file and the line has no end |
| TailPass.LinesAreRead | fabric/src/spindle/sources.rs:248-310 | every whole short line becomes its own record, saying that line |
| TailPass.PassGrows | fabric/src/spindle/sources.rs:248-252 | growing the file only adds records at the end |
| TailPass.CutPrefix | fabric/src/spindle/sources.rs:214-253 | a read that stops short cuts the same record or none |
| TailCoverage.ExactlyOnce | fabric/src/spindle/sources.rs:193-314 | for a file that grows and keeps its name, every schedule of appends, polls, short reads, errors, refusals and crashes leaves exactly the first records of one pass over the content, each with its data, or with the note in its place exactly when the data does not fit the wire, and the checkpoint where they end |
| TailCoverage.ScheduleIndependent | fabric/src/spindle/sources.rs:193-314 | two schedules that attached at the same offset agree, in identity and data, on every record both have made |
| TailCoverage.LinesFiled | fabric/src/spindle/sources.rs:193-314 | under every schedule, once the saved offset is past a short whole line, that line is stored as the log of its very bytes, as its fields, or as the note of why not |
| TailProgress.QuietPollProgresses | fabric/src/spindle/sources.rs:129-315 | after any history, nothing attached yet or a crash just before included, a poll that nothing disturbs makes eight more records of the pass, or all that are left |
| TailRuns.OneHistory | fabric/src/spindle/sources.rs:138-315 | for files that follow one another under the path, every schedule of writes, rotations, polls, short reads, errors, refusals and crashes leaves rows that tell one history: consecutive cuts file after file, each with its data, every later file begun at its start and none come back to; with calm writers a file is recorded to its end before the source moves on, unless it was replaced while the source was stopped |
| TailRuns.LinesSurvive | fabric/src/spindle/sources.rs:193-315 | with calm writers every short whole line of a file the source has moved on from, or is idle in, is in the store as its own record, saying that line |
| TailRuns.LogsInHistory | fabric/src/spindle/sources.rs:248-311 | in any such run a log starts at a line boundary exactly when the record before was not an unterminated cut of a rotated file |
| TailRuns.MovingOnLeaves | fabric/src/spindle/sources.rs:214-247 | a turn that moves on leaves nothing behind exactly when the old file has not grown since the read that found nothing |
| TailCatchUp.CatchesUp | fabric/src/spindle/sources.rs:129-315 | after any history and any number of rotations, enough undisturbed polls bring the source to the last file and as far into it as it goes |
| TailCatchUp.RaceLoses | fabric/src/spindle/sources.rs:214-247 | a write and a rotation between the read and the look at the path make the source move on past what was written |
| TailRewrite.TurnNotices | fabric/src/spindle/sources.rs:197-213 | a turn begins the file again in the next epoch exactly when it is shorter than the offset or the bytes before the offset have another digest |
| TailRewrite.RewriteStartsOver | fabric/src/spindle/sources.rs:193-315 | after any history a file cut short or written over so that the digest tells: undisturbed polls keep all that was filed, file the note at offset 0 of the next epoch, and then every short whole line of the new content from its start |
| BatchStore.Store.Commit | xtask/src/representation/custody.rs:34-94 | succeeds exactly for acceptable batches and then publishes each record unless its identity is there; a refused batch or one with nothing new leaves the tables as they are, any other adds its frame once; the count stays within the limit |
| BatchStore.Store.Read | xtask/src/representation/custody.rs:95-135 | never reports a bad index and returns each stored record of the query's answer in its place |
| BatchStore.ReadInOrder | xtask/src/representation/custody.rs:96-99 | the answer is in numeric order of sequence, complete and without repetition |
| BatchStore.TextOrderIsNumeric | xtask/src/representation/custody.rs:98-98 | ordering decimal strings by length and then text is numeric order |
| BatchStore.RecommitIsNoop | xtask/src/representation/custody.rs:50-58 | committing again what was committed is accepted and changes nothing |
| BatchStore.Store.Frontier | xtask/src/representation/custody.rs:136-148 | terminates with the greatest n such that 1..n are stored |
| BatchStore.FrontierRises | xtask/src/representation/custody.rs:136-148 | no commit, taken or refused, lowers it |
| BatchStore.PeacefulDeliveries | xtask/src/representation/custody.rs:44-93 | over any stored map, deliveries of any origins that contradict neither it nor each other and fit are all taken |
| BatchStore.OrderDoesNotMatter | xtask/src/representation/custody.rs:44-93 | what is stored then depends only on which deliveries arrived, not on order or repetition |
| BatchStore.FrontierOrderFree | xtask/src/representation/custody.rs:136-148 | and so does every frontier |
| Wire.EncodeRecords | fabric/src/spindle/wire.rs:12-33 | returns the envelope exactly when its four checks hold |
| Wire.EnvelopeBack | fabric/src/spindle/wire.rs:12-33 | a reader of the reply gets back the very id, up to the 64-bit maximum, and the very payload bytes |
| Wire.EnvelopePrints | fabric/src/spindle/wire.rs:12-33 | around printed JSON the envelope is the printed reply object with its one pair |
| Wire.EnvelopeFits | fabric/src/spindle/wire.rs:4-11 | any payload the scanner passed alone fits the reply in size and in depth, balanced or not |
| Wire.ServeRead | fabric/src/spindle/custody.rs:204-224 | every page of every record the store ever accepted is read and can be sent: neither the store's bounds nor the envelope's refuse it |
| Wire.Export | fabric/src/bin/spindle.rs:23-52 | the loop, on what it reads from the bytes of each reply, ends having printed each record up to the first boundary, parsed and serialised again, once and in id order, while records keep arriving; failed requests leave a prefix |
| Server.Daemon.Sweep | fabric/src/spindle/server.rs:138-171 | every connection present at the start gets its one visit, last first, or is dropped at its deadline; those with more to do stay and the others are let go properly |
| Server.Daemon.Tick | fabric/src/spindle/server.rs:106-171 | newcomers are let in up to the limit, then everybody is visited once; every arrival and every passed deadline is accounted for |
| Server.Daemon.Run | fabric/src/spindle/server.rs:99-171 | over any ticks, arrivals, fragmentation and deadlines: never more connections than the limit; whoever was there at the start and still is has had a visit in every tick; whoever ever came is still served or was let go having been served at most the one body it announced, and before its deadline only with the whole reply or for not sending a frame |
| Framing.Connection.Attend | fabric/src/spindle/server.rs:142-169 | a visit keeps a connection live, or lets it go properly; a live one whose whole frame is there has not yet been offered enough reads |
| Framing.Connection.Progress | fabric/src/spindle/server.rs:293-337 | given something to read it advances; the announced body comes out in the very call that takes its last byte, and in one call if the whole frame is there and the socket gives what is asked; nothing past it is taken; only a bad length or the socket's end ends it |
| Framing.Connection.WriteReply | fabric/src/spindle/server.rs:338-353 | what has gone out is a prefix of the reply, eight writes put out the sum of what they accept, and while writes flow it stops only at its end |
| Framing.Connection.Visit | fabric/src/spindle/server.rs:146-167 | one visit either writes on a pending reply or reads on, and a complete frame is answered at once with its framed reply |
| Framing.Connection.Serve | fabric/src/spindle/server.rs:138-171 | over any number of visits and any fragmentation at most one body is handed out, the announced one; exactly that one when the frame is there and offered often enough; the peer gets a prefix of its framed reply, the whole of it when writes flow |
| Framing.FramedReadsBack | fabric/src/spindle/server.rs:149-158 | the framed reply announces its own length, an oversized one having been replaced |
| Framing.BigEndianIs | fabric/src/spindle/server.rs:310-312 | the first byte of a length counts most |
| Kahn.Sort | fabric/src/admission/tests.rs:142-157 | the drain visits every node exactly if the graph has a topological order, and then in one |
| Linearize.FifoWitnessExists | fabric/src/admission/tests.rs:94-158 | true exactly when ids are unique, every operation takes time, and some total order respects real time and runs a FIFO with consecutive tickets |
| Linearize.Pair | fabric/src/admission/tests.rs:95-121 | every early refusal is right, and what passes is all the events paired in ticket order |
| Intervals.Solve | xtask/fixtures/search/intervals.rs:1-11 | the sweep returns the union |
| Intervals.PairsAre | xtask/fixtures/search/intervals.rs:1-3 | the data is taken in twos, an odd last element dropped |
| Intervals.Reference | xtask/src/search.rs:183-202 | the reference returns the same list on every input |
| Intervals.SolveByMerging | xtask/fixtures/search/starters/intervals.rs:1-21 | merging until nothing overlaps terminates on every input and returns the same list wherever start <= end |
| Intervals.UnionMeans | verification/search-contract.md:12-15 | that list is the one strictly separated sorted cover of the same real points |
| Intervals.CanonicalUnique | verification/search-contract.md:12-15 | there is only one |
| Intervals.CoalescedIsUnion | xtask/fixtures/search/starters/intervals.rs:3-20 | merging the first overlapping pair until there is none, then sorting, is the union wherever start <= end |

## Left out

- AdmissionTheorems.Refines: the queue is a transition system on values; its fields are not updated in place by methods, so the model does not speak of aliasing.
- Observations.ValueRoundTrip: structs given as JSON arrays, which serde also reads, are not modelled; the codecs never produce them.
- TailFresh.SubmissionsAreFresh: stated until a counter saturates; `LastEpochRepeats` and `LastOffsetRepeats` show the identity reused at the maximum epoch and offset.
- TailCoverage.ExactlyOnce: for un-rotated files shorter than the 64-bit maximum; runs across rotation are in `TailRuns`.
- TailRuns.OneHistory: files there only grow and share no inode; a file cut short or written over is in `TailRewrite`.
- TailRewrite.RewriteStartsOver: for a change between polls that the digest of 32 bytes can tell; one it cannot is read on, as `TurnNotices` says, and one in the middle of a turn is not among the moves.
- TailRuns.LinesSurvive: only for writers done with a file when another takes its place, and full reads; `RaceLoses` and `RotationLosesTheMark` show what happens otherwise.
- Server.Daemon.Run: a failing listener, a client of another user whose credentials cannot be read, and the polling of sources within a tick are not modelled.
- Intervals.SolveByMerging: agreement is for start <= end, as the contract has it; `InvertedPairsDiffer` gives an input outside it on which the two lists differ.
- Sdk.AnswersExactly: the checks of a configuration when a client is made are not modelled; nor is the answer Contended to a call that finds the mutex taken, which changes nothing.
- Framing.Connection.Visit: a request whose handling fails ends the daemon, and is not modelled.
- BatchStore.Store.Read: the ordered key query is SQLite's; its answer is a parameter that must be sorted and complete.
- Panics, mutex poisoning, allocation and memory accounting in the queue.
- DocumentReading.JsonRoundTrip: the reader takes compact JSON; white space between tokens, which serde_json also skips, and repeated members, which it refuses in a record, are not modelled.
- The Arrow frame kind: its reader belongs to a library.
- Error texts: refusals are compared only as far as a caller can act on them.
- Sockets, deadlines, peer credentials, permissions, the journal and host collectors, metrics and health counters.
- SQLite internals, fsync and the on-disk quota: any submission may be refused instead.
- Overflow of a byte position at the 64-bit maximum while decoding: frames are at most one mebibyte.
- Top-k, membership and the other fixtures and tools.
