# Verified model of the telemetry gateway

The gateway receives robot telemetry over MQTT, queues it, writes it to SQLite in batched transactions, and serves it
to browsers over a hand-written WebSocket server, live and as history. This project models the parts that carry state,
loops and arithmetic, and proves what they promise on all inputs, all runs and all interleavings.

| modules | part of the system |
|---|---|
| `Sha1Spec`, `Sha1`, `Base64`, `Handshake` | streaming SHA-1 against FIPS 180-4, Base64 against RFC 4648, the accept key of RFC 6455 |
| `DigestTrace`, `DigestOfAbc`, `SampleFirstBlock`, `SampleSecondBlock`, `SampleHandshake`, `Base64Vectors` | known answers: SHA-1 of `abc`, the sample handshake of section 1.3 of RFC 6455, the vectors of section 10 of RFC 4648 |
| `Transport`, `FrameSpec`, `Frames`, `Delivery`, `Session` | short, interrupted and failing reads and writes, WebSocket frames against sections 5.2 and 5.3 of RFC 6455, what a peer decodes of partly sent frames, the client loop |
| `FrameExamples`, `Requests` | the frames of section 5.7 of RFC 6455 and the payload limit; what each kind of message gets for an answer |
| `Scanner`, `History`, `HistoryRuns` | the integer scanner behind history requests, the history query and its text under refused memory and failing steps |
| `Clients` | the linked client list, broadcast and removal |
| `Queue` | the linked FIFO, refining a sequence |
| `Pipeline`, `PipelineProofs`, `PipelineTheorems`, `PipelineStorage` | callback, writer and stopper as a transition system over all interleavings; what is stored and broadcast as a function of the environment's answers |
| `SampleJson`, `Numerals`, `SampleExample`, `Replay`, `Names`, `StringBuffer` | the live printer, what its numerals denote, binding and reading back a row, names read from the text against section 7 of RFC 8259, the growing buffer |
| `Migration` | creating and upgrading the schema with statements that may fail |
| `Cache` | the sensor cache, as a class and as a transition system of single stores |
| `Analysis` | percentiles over exact numbers and the scan of the sequence column |

Objects that the source updates in place are classes over arrays and links; each method equates the new state with a
function of the old one, and the lemmas are about those functions. Where threads interleave, the model is a transition
system whose steps are the source's accesses to shared state; `Reachable` quantifies over all runs.

A function that both a method and its theorems use is tied to something of its own: a law stated without it (rotation and
masking bit by bit, numerals as numbers, percentiles as interpolation, filters and counters by what they keep and count)
or a published known answer.

How the outside world is modelled:

- `recv` and `send` follow an arbitrary plan of chunk sizes, interruptions and faults. A plan without faults is called
  smooth; it may still split every transfer down to single bytes.
- Each allocation in the history code, and each SQL statement of the migration, is granted or refused by an arbitrary
  plan. The statement of the history query may fail to be prepared, and any of its steps may fail.
- In the pipeline, decoding, allocation, BEGIN, each insert and each JSON conversion succeed or fail at will. COMMIT and
  ROLLBACK take effect. A failed insert does not end the transaction. `running` is one atomic flag, and a condition wait
  may end without a signal.
- A sample's number in order of arrival, the log of transactions and the multisets of freed buffers are history that
  the code does not keep; they exist to state the theorems. Which transactions began, which inserts succeeded and which
  samples could be printed is read off the actions of the run alone (`Transactions`).

## What the proofs found

- `docs/websocket_api.md` says that a snapshot is broadcast after it has been persisted. The code also broadcasts after
  a rollback (`src/app/telemetry_gateway.c:209-231`). `BroadcastWithoutStorage` is such a run. `BroadcastIsStored` gives
  the exact condition: no transaction with a failed insert has a sample that could be printed. `StoredExactlyWhen` and
  `SentExactlyWhen` say the same of each sample, and `DbRowsAreRowsStored` of the `db_rows` counter.
- Replay and live text differ for sequence numbers and tilt states from 2^31 on, for message timestamps from 2^63 on,
  for NaNs, which SQLite stores as NULL, and for minus zero, whose sign a REAL column does not keep.
  `ReplayAgreesExactlyWhen` proves that these are the only differences, and `ReplayDiffers` gives two failing samples.
- For keys longer than 219 characters the GUID is cut, and the accept value is the prescribed one only if the cut text
  has the SHA-1 digest of the whole one, that is, on a collision (`PrescribedExactlyWhen`).
- The history reader can return 0 with a text that is not the history. When memory runs out while the printed rows are
  put together, the list lacks rows or commas: `MalformedHistory` is a run on three stored samples that ends in
  `[row,,row]}`. When a step of the query fails, the source takes that for the end of the rows, and the list is well
  formed but shorter (`FailedStepUnnoticed`). `AllRowsExactlyWhen` gives the exact condition: all rows are returned if
  and only if no request for memory is refused and no step fails before the last of them. `WellFormedExactlyWhen` proves
  that the text is the history of the rows that could be printed if and only if none is refused after the printing.
- The read loop ignores whether its sends succeed, so after a partial send it goes on writing frames behind half a frame.
  `ClientDecodes` proves that the client decodes exactly all messages if and only if every frame was sent whole, and at
  least those before the first incomplete one in any case.
- Neither printer escapes names. A reader of JSON strings gets a name back from the live or the replayed text if and
  only if it has no quotation mark, backslash or control character (`NameIsReadExactlyWhen`).
- The migration cannot start from a version 1 database without the table, nor from an unversioned table without the
  columns that the schema script indexes. `EnsureSchema` states exactly when a run without failing statements succeeds.
- The number of duplicate rows in the analysis can equal the number of equal neighbours although the sequence number
  decreased; `ScanAgreesWithDistinctCount` gives the exact condition and `DecreaseIsNotNecessary` an example.

## Model

| member | source | states |
|---|---|---|
| Sha1.HashPieces | src/infra/websocket/ws_server.c:90-147 | for every split of a message into update calls, the final digest is the one FIPS 180-4 gives for the whole message |
| Sha1.Context.constructor | src/infra/websocket/ws_server.c:90-98 | the initial state stands for the empty message |
| Sha1.Context.Update | src/infra/websocket/ws_server.c:100-121 | appends the data to the hashed message: the state stays the fold of compression over its whole blocks, the buffer its tail, the count its bits modulo 2^64 |
| Sha1.Context.Final | src/infra/websocket/ws_server.c:123-147 | writes the padded message's digest |
| Sha1.TakeIn | src/infra/websocket/ws_server.c:104-120 | the whole blocks of buffer and data are compressed and the rest is left in the buffer |
| Sha1.FillBlock | src/infra/websocket/ws_server.c:107-109 | data that completes the buffered block has that block compressed |
| Sha1.TransformBlocks | src/infra/websocket/ws_server.c:111-114 | the inner loop consumes all whole blocks and leaves fewer than 64 bytes |
| Sha1.Transform | src/infra/websocket/ws_server.c:41-88 | the in-place transform is the compression of section 6.1.2 of FIPS 180-4 |
| Sha1.RunRounds | src/infra/websocket/ws_server.c:53-81 | the five rotating variables are the 80 iterations of the standard |
| Sha1.RoundFunction | src/infra/websocket/ws_server.c:60-73 | each branch computes the standard's function and constant for its round |
| Sha1.ExpandSchedule | src/infra/websocket/ws_server.c:42-51 | entry t of the 80-word array is W(t) of the standard |
| Sha1.OrFormsAreXorForms | src/infra/websocket/ws_server.c:62-71 | the OR forms of Ch and Maj equal the XOR forms of section 4.1.1 |
| Sha1.PadBytes | src/infra/websocket/ws_server.c:124-136 | the two-case padding length gives a one bit and the zero bytes of section 5.1.1 |
| Sha1.BufferIndex | src/infra/websocket/ws_server.c:101-101 | the index computed from the wrapped bit count is the message length modulo 64 |
| Sha1.LengthBytes | src/infra/websocket/ws_server.c:128-133 | the loop writes the 64-bit length, most significant byte first |
| Sha1.StoreWords | src/infra/websocket/ws_server.c:141-146 | the digest bytes are the state words, most significant byte first |
| Sha1Spec.PaddingIsMinimal | src/infra/websocket/ws_server.c:135-139 | the specified padding reaches 448 modulo 512 bits with the least number of zeros |
| Sha1Spec.RotlOnNumbers | src/infra/websocket/ws_server.c:39-39 | for the three rotations used, the low n bits of the result are the top n bits of the word and the bits above are the rest of it |
| Sha1Spec.BitCountWraps | src/infra/websocket/ws_server.c:102-102 | the bit count is eight times the length below 2^61 bytes, and starts again there |
| DigestOfAbc.DigestOfAbc | src/infra/websocket/ws_server.c:39-147 | the known answer of FIPS 180-4: the digest of abc is a9993e36 4706816a ba3e2571 7850c26c 9cd0d89d |
| SampleHandshake.DigestOfSample | src/infra/websocket/ws_server.c:39-147 | a known answer over two blocks: the digest that section 1.3 of RFC 6455 gives for its sample key and the GUID |
| DigestTrace.RoundsAre | src/infra/websocket/ws_server.c:41-88 | a table of schedule words and working variables that agrees with each step of the standard gives the 80 iterations |
| Base64.DecodeEncode | src/infra/websocket/ws_server.c:151-176 | decoding by section 4 of RFC 4648 undoes the encoding of every byte string |
| Base64.PaddingAtEnd | src/infra/websocket/ws_server.c:170-171 | padding signs stand at the end only, one for each octet missing from the last group |
| Base64.EncodeInto | src/infra/websocket/ws_server.c:151-176 | fails exactly when the capacity is too small and then writes nothing; else writes the encoding of length 4*ceil(n/3) and a NUL |
| Base64.PutGroup | src/infra/websocket/ws_server.c:160-171 | one round writes the four symbols of the next group and touches nothing else |
| Base64.IndicesAreSextets | src/infra/websocket/ws_server.c:166-171 | the shifts and masks of the encoder select the four 6-bit digits of the 24-bit number |
| Base64.SymbolRoundTrip | src/infra/websocket/ws_server.c:152-153 | the table maps the 64 values to distinct symbols of the alphabet, none of them padding |
| Base64Vectors.TestVectors | src/infra/websocket/ws_server.c:151-176 | the seven vectors of section 10 of RFC 4648 |
| Handshake.ComputeAcceptKey | src/infra/websocket/ws_server.c:266-278 | never fails; the 28 characters are the value of section 4.2.2 of RFC 6455 for keys of at most 219 characters, and in general that of the first 255 characters of key and GUID |
| Handshake.PrescribedExactlyWhen | src/infra/websocket/ws_server.c:266-278 | the computed value is the prescribed one if and only if the key has at most 219 characters or the cut text has the same SHA-1 digest as the whole |
| Handshake.AcceptValueDeterminesDigest | src/infra/websocket/ws_server.c:266-278 | two keys have the same accept value if and only if their digests are equal |
| SampleHandshake.AcceptOfSample | src/infra/websocket/ws_server.c:266-278 | the sample key of section 1.3 of RFC 6455 has the accept value given there |
| Transport.RecvAll | src/infra/websocket/ws_server.c:189-202 | fills the buffer with exactly the next n bytes; without faults it succeeds if and only if the peer delivers that many |
| Transport.SendAll | src/infra/websocket/ws_server.c:204-216 | all data is accepted once, in order, if and only if it reports success, and a prefix in any case; without faults it succeeds |
| FrameSpec.ParseEncoded | src/infra/websocket/ws_server.c:317-370 | for any payload limit, reading undoes writing for every frame, key and length form up to it and leaves the rest of the stream; larger payloads are refused |
| FrameSpec.StreamRoundTrip | src/infra/websocket/ws_server.c:282-370 | any list of frames, masked or not, is read back as exactly its opcodes and payloads, up to the first frame above the limit |
| FrameSpec.MinimalFormIsMinimal | src/infra/websocket/ws_server.c:287-300 | the chosen length form fits, is shortest, and is the only shortest one |
| FrameSpec.MaskTwice | src/infra/websocket/ws_server.c:354-358 | masking twice with the same key restores the data |
| FrameSpec.ParsedCarries | src/infra/websocket/ws_server.c:317-370 | octet i of a parsed payload is octet i of the data, xor octet i mod 4 of the key if the mask bit is set; opcode, length and rest are read from their places in the stream |
| FrameExamples.UnmaskedText | src/infra/websocket/ws_server.c:317-370 | the unmasked Hello of section 5.7 of RFC 6455 is read as opcode 1 and Hello |
| FrameExamples.MaskedText | src/infra/websocket/ws_server.c:354-358 | and so is the masked one |
| FrameExamples.Fragments | src/infra/websocket/ws_server.c:319-320 | the two fragments of section 5.7 are read as two messages, of opcodes 1 and 0 |
| FrameExamples.PingAndPong | src/infra/websocket/ws_server.c:317-370 | the ping and the masked pong of section 5.7 |
| FrameExamples.MediumFrame | src/infra/websocket/ws_server.c:324-330 | 256 bytes behind a two-byte length |
| FrameExamples.LargestFrame | src/infra/websocket/ws_server.c:339-340 | a frame of 1048576 bytes is accepted and one of 1048577 is refused |
| FrameExamples.TextWritten | src/infra/websocket/ws_server.c:282-305 | the server's text frame of Hello has the bytes of section 5.7 |
| FrameExamples.LongerWritten | src/infra/websocket/ws_server.c:287-300 | the headers of 256 bytes and 64 KiB have the bytes of section 5.7 |
| FrameSpec.ValueOfBigEndian | src/infra/websocket/ws_server.c:328-337 | big-endian length bytes denote the length they were written for |
| Frames.Header | src/infra/websocket/ws_server.c:283-300 | the three branches write a final text header in the minimal length form |
| Frames.SendText | src/infra/websocket/ws_server.c:282-305 | a prefix of one text frame is put on the wire, the whole frame if and only if it reports success |
| Frames.SendControl | src/infra/websocket/ws_server.c:307-315 | the same for control frames, whose payload is cut to 125 bytes |
| Frames.RecvLength | src/infra/websocket/ws_server.c:324-337 | the length field is read as the specification parses it, consuming exactly its bytes |
| Frames.Unmask | src/infra/websocket/ws_server.c:354-358 | each octet becomes itself xor octet i mod 4 of the key, and the rest of the buffer stays |
| Frames.RecvHead | src/infra/websocket/ws_server.c:318-337 | opcode, mask bit and length are those of the stream's first frame, and exactly their bytes are consumed |
| Frames.RecvFrame | src/infra/websocket/ws_server.c:317-370 | returns the first frame of the stream, each payload octet unmasked with its octet of the key (`Carries`), of at most 1 MiB; consumes exactly that frame and terminates the payload with a NUL; without faults it fails only if there is no such frame |
| Session.Exchange | src/infra/websocket/ws_server.c:189-370 | texts of up to 1 MiB arrive exactly once each and in order under every schedule of short or interrupted reads and writes |
| Session.ReceiveFrames | src/infra/websocket/ws_server.c:189-370 | the frames of a client, with any masking keys and length forms, are read exactly, up to the first one above 1 MiB |
| Session.ReceiveAll | src/infra/websocket/ws_server.c:317-370 | reading until failure yields the parse of the whole stream |
| Session.ClientLoop | src/infra/websocket/ws_server.c:481-533 | whatever reads and writes fail, the messages read are a prefix of the stream and the server has sent a part of each frame that replies to them, one behind the other, all of it when no write fails; without any fault the output is the status text and the replies to all messages until a close frame, the end of the stream or a cleared flag |
| Session.ClientDecodes | src/infra/websocket/ws_server.c:481-533 | what the client decodes after any failures starts with all messages before the first incomplete frame, and is exactly the status text and all replies if and only if every frame was sent whole |
| Delivery.DecodesAllExactlyWhen | src/infra/websocket/ws_server.c:282-315 | a peer decodes exactly the messages of all frames if and only if each was sent whole: behind an incomplete frame there are too few bytes for the rest |
| Delivery.DecodesBeforeCut | src/infra/websocket/ws_server.c:282-315 | everything sent before the first incomplete frame is decoded |
| Delivery.StreamIsLongEnough | src/infra/websocket/ws_server.c:287-300 | no coding carries messages in fewer bytes than the minimal frames of the writer |
| Session.Answer | src/infra/websocket/ws_server.c:500-530 | for each opcode, with or without a database, a part of the one frame that answers the message is sent, all of it when no write fails, and nothing when there is no answer |
| Session.Conversation | src/infra/websocket/ws_server.c:481-533 | what a client without a payload limit decodes from the server's output is the status text and the replies to exactly the messages it sent before the first one above 1 MiB, whatever the size of the replies |
| Session.PingsThenClose | src/infra/websocket/ws_server.c:496-503 | pings are answered by pongs with the same payload, one each, in order; the close is answered once and nothing after it is |
| Requests.LastNSamples | src/infra/websocket/ws_server.c:515-523 | the documented request for the last n samples, sent as text bytes, is answered by exactly what the query gives for n, for 300 if n is 0 and for 5000 if n is more |
| Requests.RequestsInOrder | src/infra/websocket/ws_server.c:481-530 | a series of such requests is answered one by one and in order |
| Requests.RequestIsAnswered | src/infra/websocket/ws_server.c:515-529 | any history request is answered by the query's text for the limit it means, by one error text without a database, and by another when the query fails |
| Requests.OthersAreNot | src/infra/websocket/ws_server.c:496-513 | a ping comes back as a pong cut to 125 bytes; pongs, binary messages and texts without history behind type get no answer |
| Requests.LimitByDefault | src/infra/websocket/ws_server.c:516-516 | a request without a last field, or with a negative number in it, is one for 300 |
| Requests.StatusFirst | src/infra/websocket/ws_server.c:481-483 | every session opens with the status text |
| Requests.IsRequestExactlyWhen | src/infra/websocket/ws_server.c:459-467 | a text is taken for a history request if and only if history occurs at or behind an occurrence of type in quotation marks, or of the bare word if that does not occur |
| Requests.CStringOfAscii | src/infra/websocket/ws_server.c:512-513 | a text of one-byte characters is read back from its bytes up to the NUL, whatever follows |
| Clients.Server.Broadcast | src/infra/websocket/ws_server.c:674-702 | the list becomes the clients still alive, in their old order; each survivor got one whole frame and is open, each other client is closed once more |
| Clients.Server.ServeNext | src/infra/websocket/ws_server.c:680-697 | one round serves one client and unlinks it exactly when it is not kept |
| Clients.OneServed | src/infra/websocket/ws_server.c:680-697 | serving the next client extends the filtered prefix by it if and only if it survives |
| Clients.KeepJoin | src/infra/websocket/ws_server.c:680-697 | the list filter keeps of two lists what it keeps of each |
| Clients.Server.Remove | src/infra/websocket/ws_server.c:394-405 | removes the given node only, or leaves the list unchanged |
| Clients.WithoutAt | src/infra/websocket/ws_server.c:397-403 | removing the first occurrence of a node keeps the nodes before and after it in order |
| Clients.Server.Add | src/infra/websocket/ws_server.c:569-572 | a new client is linked in front |
| Scanner.JsonFindInt | src/infra/websocket/ws_server.c:437-457 | yields the literal's value if it is at most 1000000, a larger value if it is larger, and the default without a literal |
| Scanner.ScanDigits | src/infra/websocket/ws_server.c:449-454 | the value the loop ends with, which only grows, is at most 10000009, and it is the number if that is at most 1000000 |
| Scanner.FieldFound | src/infra/websocket/ws_server.c:440-450 | however key, colon and literal are spaced, the literal after the key's colon is the one found |
| Scanner.HistoryLimit | src/infra/websocket/ws_server.c:437-457 | after the clamp of src/infra/persistence/db_sqlite.c:428-429 the early cut-off is invisible: min(N, 5000) for N >= 1 of any number of digits, 300 for none, zero or negative |
| Scanner.NumberGrows | src/infra/websocket/ws_server.c:450-454 | a prefix of a digit string denotes no larger number, so stopping early is safe |
| Queue.Fifo.Push | src/app/telemetry_gateway.c:139-156 | appends the sample, or changes nothing without memory; the list stays acyclic with tail last, the length true and the maximum kept |
| Queue.Fifo.PopBatch | src/app/telemetry_gateway.c:165-173 | moves the first min(max, length) samples in order into the output array and keeps the others |
| PipelineTheorems.EmptyPopMeansStopped | src/app/telemetry_gateway.c:158-177 | a pop returns nothing only if running is cleared and the queue is empty |
| PipelineTheorems.MaxLenIsThePeak | src/app/telemetry_gateway.c:152-153 | q_len_max is the greatest length the queue had in the run |
| PipelineTheorems.NoLostWakeUpEver | src/app/telemetry_gateway.c:161-163 | a waiting writer has nothing to take or its signal is under way, and the gateway runs or the broadcast is still to come |
| PipelineTheorems.MeasureDrops | src/app/telemetry_gateway.c:473-482 | once running is cleared every step of every thread lowers a measure |
| PipelineTheorems.ShutdownIsBounded | src/app/telemetry_gateway.c:473-502 | so every run from there has at most that many steps |
| PipelineTheorems.ShutdownNeverBlocks | src/app/telemetry_gateway.c:473-502 | and until the stop is done some thread can always go on |
| PipelineTheorems.StopCompletes | src/app/telemetry_gateway.c:473-502 | a run that cannot be continued has completed the stop, with at most one pop after running was cleared |
| PipelineTheorems.AtMostOnePop | src/app/telemetry_gateway.c:158-186 | a run that starts with running cleared has at most one pop |
| PipelineTheorems.CallbackCounts | src/app/telemetry_gateway.c:318-402 | the callback's counters are the numbers of its steps in the run, and each copied payload is one buffer |
| PipelineTheorems.NeverFreedTwice | src/app/telemetry_gateway.c:139-147 | every allocated payload buffer is held exactly once or has been freed exactly once |
| PipelineTheorems.FreedExactlyOnce | src/app/telemetry_gateway.c:496-502 | after the stop each buffer was freed once, at exactly one of the four places |
| PipelineStorage.ConservationAlways | src/app/telemetry_gateway.c:139-235 | in every run popped, drained and queued samples are the pushed ones in order of arrival, every counted message is in one place, the table holds in order exactly the batches whose BEGIN and every insert succeeded, and exactly the samples that could be printed have been broadcast |
| PipelineStorage.ConservationAtTheEnd | src/app/telemetry_gateway.c:318-402 | after the stop nothing is in flight, the counters add up to the received messages, and every begun transaction has had all its inserts and conversions answered |
| PipelineStorage.StoredExactlyWhen | src/app/telemetry_gateway.c:202-210 | a sample of a finished transaction is stored if and only if BEGIN and every insert of its batch succeeded |
| PipelineStorage.SentExactlyWhen | src/app/telemetry_gateway.c:222-230 | a sample of a finished transaction is broadcast if and only if its conversion succeeded, and all broadcasts are in order of arrival, each made once |
| PipelineStorage.BroadcastIsStored | src/app/telemetry_gateway.c:209-231 | a run stores everything it broadcasts if and only if no transaction with a failed insert has a sample that could be printed |
| PipelineStorage.BroadcastWithoutStorage | src/app/telemetry_gateway.c:209-231 | a run in which a sample is broadcast and not stored |
| PipelineStorage.DbRowsAreRowsStored | src/app/telemetry_gateway.c:209-220 | db_rows is the number of rows stored if and only if every insert of every begun transaction succeeded |
| PipelineStorage.FollowsKept | src/app/telemetry_gateway.c:196-231 | every step keeps the writer's log, open transaction and broadcasts equal to what the environment's answers so far imply |
| PipelineProofs.InvKept | src/app/telemetry_gateway.c:139-236 | every step of every thread keeps mutual exclusion, order, accounting, the transaction log and linear ownership |
| PipelineProofs.SyncByWriter | src/app/telemetry_gateway.c:158-193 | the writer's steps keep the facts about the mutex, sleeping and late pops |
| PipelineProofs.TablesByBatch | src/app/telemetry_gateway.c:196-220 | the steps on a batch keep table, drops and row count equal to what the log of transactions implies |
| PipelineProofs.OwnedByBatch | src/app/telemetry_gateway.c:196-230 | the steps on a batch free a buffer exactly when they let go of it |
| SampleJson.SameText | src/app/telemetry_gateway.c:95-104 | texts printed from pieces that are equal or start differently agree if and only if all pieces agree |
| Numerals.DecimalDenotes | src/app/telemetry_gateway.c:95-104 | a printed number consists of digits, denotes itself in base ten and has no leading zeros |
| Numerals.IntegerDenotes | src/app/telemetry_gateway.c:95-104 | a printed integer is a literal of the scanner with a minus sign exactly when negative, and its digits denote the absolute value |
| Numerals.Numbers | src/app/telemetry_gateway.c:95-104 | 0, 12, -12 and 1234567890 in full |
| SampleExample.ExampleText | src/app/telemetry_gateway.c:90-137 | the whole live text of a sample with different values in its fields |
| Replay.EachColumnOnce | src/infra/persistence/db_sqlite.c:244-252 | the insert statement's column list is a bijection with its 30 parameters |
| Replay.RowOfSample | src/infra/persistence/db_sqlite.c:273-320 | every sample has exactly one stored row |
| Replay.StoredRow | src/infra/persistence/db_sqlite.c:273-320 | what every column of the stored row holds, whatever parameter fills it: topic, payload or NULL, times, integers read as signed, numbers with NaN as NULL and without the sign of zero, all motor fields |
| Replay.Columns | src/infra/persistence/db_sqlite.c:431-437 | every selected column is the one that was bound for it, as the column keeps it |
| Replay.ReplayIsLive | src/infra/persistence/db_sqlite.c:350-424 | for every sample the replayed text is, byte for byte, the live text of the sample with its oversized integers lowered by 2^32 or 2^64 and its NaNs and minus zeros turned into zero |
| Replay.MotorlessRow | src/infra/persistence/db_sqlite.c:385-423 | a row whose motor columns are all NULL, as the migration leaves them in old rows, is replayed as the live text without the motors |
| Replay.RowWithOneMotor | src/infra/persistence/db_sqlite.c:385-421 | a row that has one motor only is replayed as the live text of a sample whose other motor has no name and zeros |
| Replay.ReplayAgreesExactlyWhen | src/app/telemetry_gateway.c:90-137 | replayed and live text are equal if and only if seq and tilt_status are below 2^31, msg_timestamp_ns is below 2^63 and no vector holds a NaN or a minus zero |
| Replay.ReplayDiffers | src/infra/persistence/db_sqlite.c:284-298 | two samples with the names the gateway falls back to whose replay differs: one with seq 2^31, one with a minus zero |
| Names.NameIsReadExactlyWhen | src/app/telemetry_gateway.c:95-104 | each name in the live text is read back as a JSON string if and only if it is plain |
| Names.ReplayedNameIsReadExactlyWhen | src/infra/persistence/db_sqlite.c:391-417 | the same for the replayed text of a stored sample |
| Names.ReadBackExactlyWhen | src/app/telemetry_gateway.c:97-97 | an unescaped text between quotation marks is read back as itself if and only if it has no quotation mark, backslash or control character |
| StringBuffer.StrBuf.Append | src/infra/persistence/db_sqlite.c:25-32 | the contents grow by the text, or stay when memory is needed and refused; they end in a NUL inside a capacity of 1024*2^k that is at most max(1024, 2*(len+1)); all copying so far is below the capacity |
| StringBuffer.StrBuf.AppendFormatted | src/infra/persistence/db_sqlite.c:34-58 | the same through the stack buffer and through the heap buffer |
| StringBuffer.StrBuf.Reserve | src/infra/persistence/db_sqlite.c:14-23 | asks for memory exactly when the capacity does not suffice, and makes room and keeps the contents, or changes nothing |
| StringBuffer.StrBuf.GrownCapacity | src/infra/persistence/db_sqlite.c:16-17 | the doubling loop ends with enough room, at most twice what is needed, and at least double an old capacity |
| StringBuffer.Sizes | src/infra/persistence/db_sqlite.c:14-58 | the first capacity is 1024 with room for 1023 characters, the next 2048; formatted text of 511 characters makes one request and of 512 two |
| History.ItemsAreTheNewest | src/infra/persistence/db_sqlite.c:431-439 | the items are min(limit, rows) rows, none older than a row left out, in nondecreasing reception time |
| History.TimeOfReception | src/infra/persistence/db_sqlite.c:438-438 | the time by which rows are ordered is the sample's time of reception |
| History.SmallerLimitIsSuffix | src/infra/persistence/db_sqlite.c:431-439 | with distinct reception times a smaller limit gives the tail of what a larger one gives |
| History.OneOrder | src/infra/persistence/db_sqlite.c:438-438 | rows with distinct times have only one descending order |
| History.ShortHistories | src/infra/persistence/db_sqlite.c:475-483 | the whole text of a history of no row, one row and two rows |
| History.HistoryLastJson | src/infra/persistence/db_sqlite.c:426-493 | returns 0 with the newest rows up to the clamped limit, comma-joined, oldest first, if and only if the statement is prepared, no request for memory is refused and no step fails before the last of these rows |
| History.AllRowsExactlyWhen | src/infra/persistence/db_sqlite.c:446-492 | for every behaviour of allocator and engine the whole history is returned if and only if nothing is refused and no step fails before its last row |
| History.FailedStepUnnoticed | src/infra/persistence/db_sqlite.c:463-473 | with enough memory a failing step gives success with the history of the rows before it, which is shorter |
| History.CompleteExactlyWhen | src/infra/persistence/db_sqlite.c:448-492 | for every behaviour of the allocator the whole history of the delivered rows is returned if and only if nothing is refused |
| History.WellFormedExactlyWhen | src/infra/persistence/db_sqlite.c:462-492 | when the source returns 0, the text is the history of the rows that could be printed if and only if no append was refused while draining, and those are all rows if and only if no row print was refused |
| HistoryRuns.MalformedHistory | src/infra/persistence/db_sqlite.c:475-481 | three empty messages, stored, and an allocator that refuses one request: the source returns 0 with an empty place between two commas |
| HistoryRuns.RefusedInTheMiddle | src/infra/persistence/db_sqlite.c:475-481 | the same for any three rows of ordinary length |
| History.AmpleIsComplete | src/infra/persistence/db_sqlite.c:426-493 | with enough memory the whole history of the delivered rows is returned |
| History.PrintRow | src/infra/persistence/db_sqlite.c:350-424 | success gives the whole replay text of the row |
| History.RowFacts | src/infra/persistence/db_sqlite.c:350-424 | printing a row fails exactly when one of its requests is refused |
| History.PrintRows | src/infra/persistence/db_sqlite.c:462-471 | the filling loop prints the rows that the steps deliver, in turn, up to the limit, until one is refused |
| History.RowsFacts | src/infra/persistence/db_sqlite.c:462-471 | the printed rows are always the first ones of the answer, and all of them if and only if none is refused |
| History.AppendReversed | src/infra/persistence/db_sqlite.c:475-481 | the draining loop appends rows and commas in reverse and passes over refused appends |
| History.DrainExactlyWhen | src/infra/persistence/db_sqlite.c:475-481 | it appends everything if nothing is refused, and less than that otherwise |
| History.DrainedIsJoined | src/infra/persistence/db_sqlite.c:475-481 | what a downward loop with a comma for every index but 0 writes is the comma-joined reversed list, also for zero and one row |
| History.AnswerRequest | src/infra/websocket/ws_server.c:515-523 | from request text to answer text: the list has the newest rows of the table, as many as asked for within 1 to 5000 and 300 by default, none older than a row left out, in order of reception, if and only if no memory is refused and every row of the query's answer is delivered |
| History.AnswerListsNewest | src/infra/persistence/db_sqlite.c:431-439 | the reversed answer of the query lists the newest rows in order of reception |
| Migration.OpenUntilDone | src/infra/persistence/db_sqlite.c:214-232 | any number of runs cut short at any statement, and then a complete one, end at version 2 with the columns of one uninterrupted run; these serve the INSERT and the SELECT statement if and only if there was no table or it had all columns but the motors' |
| Migration.RunOnce | src/infra/persistence/db_sqlite.c:214-232 | a run cut short at any statement leaves a schema from which the same goal can still be reached; an uncut one finishes |
| Migration.RunAgain | src/infra/persistence/db_sqlite.c:214-232 | a finished schema is never changed again, whichever statements fail |
| Migration.Database.EnsureSchema | src/infra/persistence/db_sqlite.c:214-232 | a failed run leaves the version, a successful one sets it to 2 with the goal columns, which serve both statements under the same condition; without failures it succeeds exactly from the startable states |
| Migration.Database.MigrateV2 | src/infra/persistence/db_sqlite.c:126-184 | creates or completes the table, and sets the version last |
| Migration.Database.UpgradeV1 | src/infra/persistence/db_sqlite.c:186-211 | completes the table, and sets the version last |
| Migration.Database.EnsureColumns | src/infra/persistence/db_sqlite.c:178-180 | wherever the loop stops, the goal is unchanged and old columns keep their places |
| Migration.Database.EnsureColumn | src/infra/persistence/db_sqlite.c:99-117 | adds the column at the end unless it is there |
| Migration.StartingOver | src/infra/persistence/db_sqlite.c:205-207 | completing after a partial run gives the same column sequence as completing at once |
| Migration.AddMissingKeeps | src/infra/persistence/db_sqlite.c:178-180 | completing keeps the old columns in front and adds only listed ones |
| Migration.GoalServesExactlyWhen | src/infra/persistence/db_sqlite.c:126-211 | a complete migration ends with every column that the INSERT and the SELECT statement name if and only if there was no table or it had all columns but the motors' |
| Migration.CreatedInOrder | src/infra/persistence/db_sqlite.c:129-160 | the table is created with the columns of the INSERT statement, in its order, behind the key |
| Cache.SnapshotsAreLinearizable | src/sim/telemetry_cache.c:50-73 | under every interleaving of single stores and copies each read is the fold of one prefix of the updates, its seq is the prefix length modulo 2^32, the prefix has every update complete at the call and none incomplete at the return, and later reads see longer or equal prefixes |
| Cache.InvAfter | src/sim/telemetry_cache.c:9-73 | every run keeps mutual exclusion, the partly stored cells and the reads so far |
| Cache.EveryReadIsRecorded | src/sim/telemetry_cache.c:50-73 | each getter that returns has its read recorded, and each increment is one update of the history |
| Cache.EveryUpdateIsCounted | src/sim/telemetry_cache.c:9-48 | each call of a setter with an accepted update gives one update of the history or is still under way |
| Cache.UpdateIsSeen | src/sim/telemetry_cache.c:9-48 | after an update its own cells hold its values and all others what they held |
| Cache.ConsistentKept | src/sim/telemetry_cache.c:9-48 | every step keeps the cells equal to the completed updates and the owner's stores so far |
| Cache.TelemetryCache.SetImu | src/sim/telemetry_cache.c:9-17 | the six stores and the increment append one whole update to the history that the cells stand for |
| Cache.TelemetryCache.SetTilt | src/sim/telemetry_cache.c:19-27 | the same for a tilt update |
| Cache.TelemetryCache.SetMotor | src/sim/telemetry_cache.c:29-48 | the same for motor 1 and 2; any other index changes nothing |
| Cache.TelemetryCache.Get | src/sim/telemetry_cache.c:50-73 | copies the fold of the whole history, each quantity into its own output array, and its length modulo 2^32 |
| Analysis.PercentileMonotone | scripts/analysis/analyze_repeated_experiments.py:85-96 | percentiles grow with p, across the exact and the interpolating branch |
| Analysis.PercentileBounds | scripts/analysis/analyze_repeated_experiments.py:85-96 | they run from the least of the values at 0 to the greatest at 100 |
| Analysis.PercentileInterpolates | scripts/analysis/analyze_repeated_experiments.py:85-96 | for every sorted list of the proper values, with p percent of the way to its last index at i + t, the percentile is s[i] * (1 - t) + s[i + 1] * t |
| Analysis.PercentileOfFew | scripts/analysis/analyze_repeated_experiments.py:86-90 | there is no percentile exactly without proper values, and a single one is every percentile |
| Analysis.ProperCounts | scripts/analysis/analyze_repeated_experiments.py:86-86 | a number is among the proper values as often as in the input |
| Analysis.MedianOfTwo | scripts/analysis/analyze_repeated_experiments.py:91-96 | the median of 1 and 2 is 1.5 |
| Analysis.AtRankMonotone | scripts/analysis/analyze_repeated_experiments.py:91-96 | the interpolated value grows with the rank, within and across neighbours |
| Analysis.RankInRange | scripts/analysis/analyze_repeated_experiments.py:91-93 | both indices stay inside the list |
| Analysis.Scan | scripts/analysis/analyze_repeated_experiments.py:187-204 | the loop counts the decreasing and the equal neighbours among the values that are not null |
| Analysis.EqualsCountsPlaces | scripts/analysis/analyze_repeated_experiments.py:199-204 | the one counter is the number of places whose value equals the one before |
| Analysis.DecreasesCountsPlaces | scripts/analysis/analyze_repeated_experiments.py:199-204 | the other one is the number of places whose value is smaller |
| Analysis.ValuesJoin | scripts/analysis/analyze_repeated_experiments.py:187-198 | the values of a column are those of its pieces, in order |
| Analysis.DuplicatesExplained | scripts/analysis/analyze_repeated_experiments.py:183-204 | duplicate rows are the nulls, the equal neighbours and the values that come back |
| Analysis.ScanAgreesWithDistinctCount | scripts/analysis/analyze_repeated_experiments.py:183-204 | without nulls the duplicates are at least the equal neighbours, and the same number if and only if no value comes back, in particular without decreases |
| Analysis.DecreaseIsNotNecessary | scripts/analysis/analyze_repeated_experiments.py:183-204 | a column without nulls whose scan finds a decrease and whose two row counts agree |

## Left out

- Reading the HTTP request of the handshake, sockets, timeouts and the accept loop: foreign calls.
- The lifetime of client nodes across the broadcasting and the client threads, and the interleaving of their frames on
  one descriptor: list operations are atomic here, a session writes alone, and nothing is claimed about those races.
- ws_server_stop and its closing loop.
- Fragmented messages: the source ignores the FIN bit, and so does the model.
- Memory exhaustion in the frame reader, and sizes near the top of the 64-bit range: lengths, capacities and counters
  other than the SHA-1 bit count and the cache's seq are unbounded numbers.
- Character encodings and NUL characters inside texts: texts are sequences of characters, and a C string ends where
  its sequence ends, except for received payloads, which are read up to their first NUL.
- Queue.Fifo.PopBatch: has what follows the wait; the waiting loop and its result 0 are in the transition system, where
  `EmptyPopMeansStopped` is about them.
- MQTT and protobuf decoding: a message decodes or does not. The filling of a sample from its fields is not modelled.
- The shutdown is modelled up to the drained queue. The callback is taken to finish before the MQTT client is closed;
  forced cancellation, the statistics thread, timing counters and failing starts are not modelled.
- The SQL engine: COMMIT and ROLLBACK take effect, a REAL column returns the double that was bound but for NaN
  and minus zero, and columns are symbols instead of parsed names. Memory that the
  engine itself lacks while it converts a delivered column is not modelled.
- The formats of doubles and of seconds are uninterpreted functions shared by both printers. That NaN and
  minus zero print differently from zero, from the first character on, is a hypothesis of the equivalence; the equality
  does not need it. The malformed run takes it that zero is printed as `0.000000` and no time in more than 32 characters.
- Floating-point rounding in percentiles: they are computed over exact numbers.
- Simulated sensors, publishing, the browser interface, shell scripts, plotting and tables: no state worth a proof.
- The texts as JSON documents: only their names are read by a JSON reader, and printf is taken not to fail.
