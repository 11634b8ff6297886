# Transaction statistics service: a Dafny model

The service reads a binary stream of payment records and answers with statistics about them. Each record is a fixed-size frame, 74 octets in the built-in layout:

- a 32-octet sender name;
- a 32-octet receiver name;
- a 4-octet signed big-endian amount in cents;
- a 6-octet big-endian timestamp in milliseconds.

The statistics are:

- the total amount and the number of transactions;
- per customer, the number of transactions, the amount sent and the amount received;
- per local calendar day, the number of transactions.

This project models the core of the service and proves properties about it:

- **`Bytes`**: big-endian octet strings read as unsigned and as two's-complement integers (`Buffer.readIntBE`). It also has the matching encoders and both round trips.
- **`FrameDecoder`**: `decodeFrame` with its `trimNullRight` loop. It covers:
  - the frame-size check;
  - the name fields, which are clamped slices, with trailing whitespace trimmed and then trailing NULs trimmed;
  - the two signed integer reads, which fail when their range leaves the frame.

  An encoder for well-formed transactions proves that decoding undoes encoding.
- **`Statistics`**: `processTransaction` has two parts.
  - As a class, `Stat`, whose method updates the aggregate in place.
  - As the pure function `Apply` that the method is proved against, with `FoldAll` over a list of transactions.

  Lemmas give the meaning of the fold: totals, customer entries, day buckets, and the consistency of the per-customer sums with the totals.
- **`StreamSession`**: the stream driver returned by `CalculateStatistics`.
  - As a class, `Session`, whose `readable` handler pulls `frameSize` octets at a time with Node's paused-mode `read`, decodes and folds each block, and settles the promise once.
  - As the event-driven function `Run` that the class is proved against.

  Lemmas cover settlement: the first settlement wins, a stream without `end` never resolves, and the way chunks are split is irrelevant. They also show that a clean stream resolves with the fold of its frames, that a corrupt frame rejects, and that a short remainder at `end` rejects.
- **`ChunkHandler`**: the older per-request handler in `server.ts`. Its `data` listener decodes every transport chunk as exactly one frame of the built-in `frameConfig`, folds it inline, and crashes the process on a decode error. `end` sends the aggregate and `error` sets status 500. Lemmas contrast it with the stream driver: it agrees when chunks are frame-aligned and crashes on two frames delivered in one chunk.
- **`LayoutConfig`**: `validateConfig` and the `Object.assign` merge in `loadConfig.ts`.
  - The validator is a method with the source's two loops, proved against a function `Validate`.
  - Lemmas characterise what it accepts: disjoint ascending field ranges inside the frame, at whole non-negative offsets. They also show that it accepts the built-in decoder layout, and how `Object.assign` composes.

Configuration values are JavaScript numbers and are modelled as `real`. A missing key (`undefined`) is `None`. In the overlap scan, `None` also stands for `NaN`, and every comparison with `NaN` is false. The local time zone of the day buckets is a fixed offset in milliseconds, `zone`, passed as a parameter.

The model follows the code exactly on these easily misread points:

- **Trim order.** Whitespace is trimmed before NULs (`FrameDecoder.WhitespaceBeforeNulPadding`).
- **Timestamp.** The timestamp is read as a signed 48-bit integer (`readIntBE`), not as an unsigned one.
- **Day bucket.** The day bucket is local midnight (`setHours(0)`), not UTC midnight.
- **Failures.** After a failed frame, the `readable` loop keeps reading and folding later frames; only the promise's first settlement counts.
- **Short remainder.** A trailing block shorter than `frameSize` is handed out by `read` at end of stream and rejected by the decoder.
- **Frame size.** `validateConfig` accepts a `frameSize` of 0, although its error message says "positive integer".

## Model

| member | source | states |
|---|---|---|
| Bytes.UnsignedBE | server/CalculateStatistics.ts:48-49 | the big-endian value of n octets lies in [0, 256^n) |
| Bytes.SignedBE | server/CalculateStatistics.ts:48-49 | the two's-complement value of n octets lies in [-2^(8n-1), 2^(8n-1)) and is negative exactly when the unsigned value reaches half the range |
| Bytes.UnsignedRoundTrip | server/CalculateStatistics.ts:48-49 | encoding a value below 256^n in n octets and reading it back gives the value |
| Bytes.UnsignedOctetsRoundTrip | server/CalculateStatistics.ts:48-49 | reading octets and encoding the value in as many octets gives the octets back |
| Bytes.SignedRoundTrip | server/CalculateStatistics.ts:48-49 | every value in the signed range survives a signed encode then a signed read |
| Bytes.SignedOctetsRoundTrip | server/CalculateStatistics.ts:48-49 | every non-empty octet string survives a signed read then a signed encode |
| Bytes.UnsignedFront | server/CalculateStatistics.ts:48-49 | the first octet weighs 256^(n-1) in the big-endian value |
| Bytes.SignFromFirstOctet | server/CalculateStatistics.ts:48-49 | a signed read is negative exactly when the first octet has its top bit set |
| FrameDecoder.DefaultLayoutTilesFrame | server/server.ts:54-62 | the built-in layout `DefaultLayout` (frame 74, sender 0, receiver 32, amount 64, timestamp 68) places the four fields the decoder reads back to back, filling the frame exactly |
| FrameDecoder.TrimRight | server/CalculateStatistics.ts:31-36 | the result is a prefix of the input, does not end in a stripped octet, only stripped octets were removed, and an input not ending in one is unchanged |
| FrameDecoder.TrimNullRight | server/CalculateStatistics.ts:31-36 | the loop that drops the last character while it is NUL returns the input with its trailing NULs removed |
| FrameDecoder.TextSlice | server/CalculateStatistics.ts:46-47 | `toString(start, end)` is the slice when the range is in bounds; otherwise it is the slice from max(start, 0) to min(end, length), and it is empty when that range is empty |
| FrameDecoder.NameAt | server/CalculateStatistics.ts:46-47 | a decoded name has at most 32 octets and never ends in NUL |
| FrameDecoder.ReadName | server/CalculateStatistics.ts:46-47 | reads the same name as the specification function: the 32-octet slice, trimmed of whitespace and then of NULs |
| FrameDecoder.ReadIntBE | server/CalculateStatistics.ts:48-49 | a read succeeds exactly when its range lies in the frame, yields a value in the signed range of its width, and otherwise fails with the offset and width |
| FrameDecoder.Decode | server/CalculateStatistics.ts:30-54 | a block of the wrong length fails with expected and actual size; a decoded amount fits 32 signed bits and a time fits 48 signed bits |
| FrameDecoder.DecodeFrame | server/CalculateStatistics.ts:30-54 | the imperative decoder returns exactly what `Decode` specifies |
| FrameDecoder.DecodeCases | server/CalculateStatistics.ts:44-53 | for a block of the right size: success exactly when both integer ranges fit; the transaction's fields; and which read's error is reported first (amount before timestamp) |
| FrameDecoder.PaddedNameTrims | server/CalculateStatistics.ts:31-36 | a name without trailing whitespace, NUL-padded to 32 octets, trims back to itself |
| FrameDecoder.DecodeEncodeFrame | server/CalculateStatistics.ts:30-54 | decoding the encoding of a well-formed transaction in the default layout gives the transaction back |
| FrameDecoder.WhitespaceBeforeNulPadding | server/CalculateStatistics.ts:46-47 | "ab " padded with NULs decodes as "ab " because whitespace is trimmed before NULs; the other order would give "ab" |
| Statistics.CountDay | server/CalculateStatistics.ts:68-73 | computes the day-bucket upsert; its contract is carried by `ApplyDayBucket` |
| Statistics.Credit | server/CalculateStatistics.ts:75-95 | computes one customer upsert; its contract is carried by `ApplyCustomers` and `CreditSums` |
| Statistics.Apply | server/CalculateStatistics.ts:57-96 | computes `processTransaction` on a value; its contract is carried by `ApplyDayBucket`, `ApplyCustomers`, `ApplyKeepsConsistent` and `Stat.ProcessTransaction` |
| Statistics.FoldAll | server/CalculateStatistics.ts:115-118 | computes the aggregate after folding transactions in order; its contract is carried by `FoldTotals`, `FoldCustomers`, `FoldDays` and `FoldAllFront` |
| Statistics.DayKey | server/CalculateStatistics.ts:63-67 | the day key is the local midnight at or before the time, less than a day before it |
| Statistics.Stat.constructor | server/CalculateStatistics.ts:102-109 | a new statistics object holds zero totals and no customers or days |
| Statistics.Stat.ProcessTransaction | server/CalculateStatistics.ts:57-96 | updating the object in place leaves it holding `Apply` of the old aggregate and the transaction |
| Statistics.SameDayIffSameKey | server/CalculateStatistics.ts:63-73 | two times share a day bucket exactly when they fall in the same local day |
| Statistics.MidnightStartsNewDay | server/CalculateStatistics.ts:63-73 | a local midnight keys its own day and the millisecond before it keys the previous day |
| Statistics.ApplyDayBucket | server/CalculateStatistics.ts:68-73 | the transaction's day bucket is created with count 1 or counts one more; no other bucket changes |
| Statistics.ApplyCustomers | server/CalculateStatistics.ts:75-95 | sender and receiver entries are created or updated as the source does, a self-transfer counts twice, and no other entry changes |
| Statistics.CreditSums | server/CalculateStatistics.ts:75-95 | crediting a customer raises the sums over all customers by one transaction and by the amounts credited |
| Statistics.ApplyKeepsConsistent | server/CalculateStatistics.ts:57-96 | each step keeps customer transactions at twice the total, the sent and received sums equal to the total amount, and day counts summing to the total |
| Statistics.FoldTotals | server/CalculateStatistics.ts:60-61 | from empty, the totals are the number of transactions and the sum of their amounts, and the aggregate is consistent |
| Statistics.FoldCustomers | server/CalculateStatistics.ts:75-95 | from empty, a customer has an entry exactly when it took part, holding its involvement count and the sums it sent and received |
| Statistics.FoldDays | server/CalculateStatistics.ts:63-73 | from empty, a day has a bucket exactly when some transaction fell on it, counting them |
| Statistics.FoldAllFront | server/CalculateStatistics.ts:57-96 | folding a list is folding its first transaction and then the rest |
| StreamSession.Settle | server/CalculateStatistics.ts:111-133 | computes a promise's settlement, which only a pending promise changes; its contract is carried by `FirstSettlementWins` |
| StreamSession.Step | server/CalculateStatistics.ts:112-132 | computes the effect of one event, one listener per event kind; its contract is carried by the `Session.On…` methods, `NoEndNoAggregate` and `InterruptedStreamRejected` |
| StreamSession.Run | server/CalculateStatistics.ts:111-133 | computes the state after a sequence of events; its contract is carried by `FirstSettlementWins`, `ChunkBoundariesIrrelevant`, `CleanStreamResolves`, `CorruptFrameRejects` and `ShortRemainderRejects` |
| StreamSession.ReadLength | server/CalculateStatistics.ts:115 | `read(size)` hands out `size` octets once buffered, the short remainder after end, and null otherwise |
| StreamSession.Absorb | server/CalculateStatistics.ts:116-121 | one loop pass leaves the buffer alone and can only reject a pending promise |
| StreamSession.Drain | server/CalculateStatistics.ts:113-123 | the `readable` handler stops exactly when `read` would return null and can only reject a pending promise |
| StreamSession.Session.constructor | server/CalculateStatistics.ts:100-111 | a new request has an empty buffer, nothing folded and a pending promise |
| StreamSession.Session.Read | server/CalculateStatistics.ts:115 | returns the first n octets of the buffer and removes them, or null with the buffer unchanged |
| StreamSession.Session.Reject | server/CalculateStatistics.ts:120 | rejecting changes only a pending promise |
| StreamSession.Session.Process | server/CalculateStatistics.ts:118 | folding a transaction into the object appends it to the processed list, and the object stays the fold of that list |
| StreamSession.Session.ReadAndAbsorb | server/CalculateStatistics.ts:115-121 | one loop iteration reads a block and absorbs it, and reports whether there was one |
| StreamSession.Session.AbsorbBlock | server/CalculateStatistics.ts:116-121 | decodes and folds a block or rejects with the decode error, as `Absorb` specifies |
| StreamSession.Session.OnReadable | server/CalculateStatistics.ts:113-123 | the `readable` loop leaves the session in the state `Drain` specifies |
| StreamSession.Session.OnChunk | server/CalculateStatistics.ts:113-123 | arriving bytes are buffered and drained, as `Step` specifies |
| StreamSession.Session.OnEnd | server/CalculateStatistics.ts:124-126 | at `end`, the remainder is drained and the promise resolves with the aggregate unless already settled |
| StreamSession.Session.OnError | server/CalculateStatistics.ts:127-129 | `error` rejects a pending promise with the transport error |
| StreamSession.Session.OnClose | server/CalculateStatistics.ts:130-132 | `close` rejects a pending promise with "Client request closed" |
| StreamSession.FirstSettlementWins | server/CalculateStatistics.ts:111-133 | once settled, later events never change the promise's settlement |
| StreamSession.NoEndNoAggregate | server/CalculateStatistics.ts:124-126 | without an `end` event, the promise never resolves |
| StreamSession.InterruptedStreamRejected | server/CalculateStatistics.ts:127-132 | an `error` or `close` before any `end` leaves the promise rejected, with that event's error if it was still pending |
| StreamSession.ChunkBoundariesIrrelevant | server/CalculateStatistics.ts:113-123 | the state after a run of chunk events, one per transport chunk in arrival order, depends only on the concatenation of the chunks |
| StreamSession.DrainFrames | server/CalculateStatistics.ts:113-123 | a buffer of whole frames and a short rest is consumed frame by frame, in order |
| StreamSession.AbsorbDecodedFrames | server/CalculateStatistics.ts:116-118 | frames that all decode are folded in order |
| StreamSession.AbsorbFirstFailure | server/CalculateStatistics.ts:119-121 | the first frame that fails to decode decides the rejection |
| StreamSession.AbsorbKeepsSettled | server/CalculateStatistics.ts:119-121 | once settled, later frames leave the settlement alone |
| StreamSession.CleanStreamResolves | server/CalculateStatistics.ts:111-133 | a stream of whole frames that all decode, however split into chunks, resolves with the fold of their transactions |
| StreamSession.CorruptFrameRejects | server/CalculateStatistics.ts:116-121 | the first frame that fails to decode rejects the promise with its error, whatever follows |
| StreamSession.ShortRemainderRejects | server/CalculateStatistics.ts:38-43 | a trailing partial frame at `end` rejects with a frame-size mismatch instead of resolving |
| ChunkHandler.Handle | server/server.ts:112-165 | computes the effect of one event on the request, one listener per event kind; its contract is carried by the `Request.On…` methods and `MisalignedChunkCrashes` |
| ChunkHandler.HandleAll | server/server.ts:112-165 | computes the request after a sequence of events; its contract is carried by `RepliedIsFinal`, `DecodedChunksFold`, `AlignedStreamSends` and `TwoFramesInOneChunk` |
| ChunkHandler.Request.constructor | server/server.ts:103-110 | a new request has status 200, nothing folded and no reply |
| ChunkHandler.Request.OnData | server/server.ts:120-165 | a chunk is decoded as one `frameConfig` frame and folded into the object, or the reply becomes the decode error, as `Handle` specifies |
| ChunkHandler.Request.OnEnd | server/server.ts:117-119 | `end` sends the aggregate with the current status |
| ChunkHandler.Request.OnError | server/server.ts:113-116 | `error` sets status 500 |
| ChunkHandler.RepliedIsFinal | server/server.ts:117-119 | once a reply has been sent or the process has crashed, later events change nothing |
| ChunkHandler.MisalignedChunkCrashes | server/server.ts:72-77 | a chunk whose length is not 74 crashes the handler with a frame-size mismatch |
| ChunkHandler.DecodedChunksFold | server/server.ts:120-159 | chunks that each decode are folded in order, with status 200 and no reply yet |
| ChunkHandler.AlignedStreamSends | server/server.ts:113-159 | frame-aligned chunks then `end` send the fold with status 200; fed `error` and then `end`, the listeners send it with status 500 (Node itself emits no `end` after `error`) |
| ChunkHandler.TwoFramesInOneChunk | server/server.ts:120-122 | two valid frames in one chunk crash this handler, while the stream driver resolves them |
| LayoutConfig.CheckField | server/loadConfig.ts:77-93 | one field passes exactly when its size is defined and non-negative and its offset is defined, whole and non-negative |
| LayoutConfig.CheckFields | server/loadConfig.ts:77-93 | the first loop passes exactly when every field passes |
| LayoutConfig.CheckFieldsFirstFailure | server/loadConfig.ts:77-93 | a failing first loop reports the error of its first failing field, and every earlier field passes |
| LayoutConfig.Get | server/loadConfig.ts:78-90 | computes `object[key]`, the first property with that key or `undefined`; its contract is carried by `GetKey` |
| LayoutConfig.Scan | server/loadConfig.ts:95-104 | the overlap scan can fail only with an overlap; `ScanFirstOverlap` and `ScanSized` say which field it reports and when it passes |
| LayoutConfig.ScanFirstOverlap | server/loadConfig.ts:95-104 | a failing scan reports the first field whose offset lies below the running end of the fields before it, and the scan of the fields before it passes |
| LayoutConfig.Validate | server/loadConfig.ts:61-108 | a missing frameSize and a frameSize that is not a whole number ≥ 0 each fail with their own error; acceptance implies every check before the scan passed; after those checks, only an overlap or the final frame-size test can fail |
| LayoutConfig.ValidateConfig | server/loadConfig.ts:61-108 | the imperative validator with its two loops returns exactly what `Validate` specifies |
| LayoutConfig.ScanSized | server/loadConfig.ts:95-104 | with every field sized, the scan succeeds exactly when each field starts at or after the previous field's end, and then ends at the last field's end |
| LayoutConfig.AscendingDisjoint | server/loadConfig.ts:95-104 | ascending fields with non-negative sizes are pairwise disjoint and lie between 0 and the last end |
| LayoutConfig.AcceptedLayout | server/loadConfig.ts:61-108 | with every offset key sized, the validator accepts exactly the checked, ascending layouts that end within the frame; accepted fields are disjoint, start at whole offsets and lie in [0, frameSize] |
| LayoutConfig.DecoderConfigAccepted | server/config.ts:12-21 | the built-in decoder layout (frame 74, offsets 0/32/64/68) with sizes 32/32/4/6 is valid |
| LayoutConfig.OutOfOrderRejected | server/loadConfig.ts:97-101 | listing receiver before sender is rejected as overlapping, because the scan follows key order |
| LayoutConfig.FrameSizeBoundary | server/loadConfig.ts:67-69 | frameSize 0 is accepted; -1 and 0.5 are rejected |
| LayoutConfig.MissingSizeSlipsThrough | server/loadConfig.ts:95-107 | an offset key with no size makes the running end NaN and is accepted, although the corrected rule rejects it |
| LayoutConfig.StrictAcceptance | server/loadConfig.ts:61-108 | what the corrected validator accepts, the code accepts too; it is sized, ascending, disjoint and inside the frame; and the two validators agree when every offset key is sized |
| LayoutConfig.StrictLayoutDecodes | server/loadConfig.ts:61-108 | under a strictly valid configuration with wide enough amount and timestamp fields, every block of frame size decodes |
| LayoutConfig.Merge | server/loadConfig.ts:54 | computes `Object.assign(config, environmentConfig)` on the loader's keys; its contract is carried by `MergeLaws` |
| LayoutConfig.LoadConfig | server/loadConfig.ts:54-55 | computes validation of the merged configuration; its contract is carried by `EnvironmentLayoutDecides` and `PartialOffsetOverrideRejected` |
| LayoutConfig.MergeLaws | server/loadConfig.ts:54 | `Object.assign` has the empty object as identity, is idempotent and associative, and, for each of the five keys, takes the environment's value when it has the key and keeps the base's value otherwise |
| LayoutConfig.EnvironmentLayoutDecides | server/loadConfig.ts:54-55 | when the environment sets frameSize, dataSize and offset, the base configuration does not affect validation |
| LayoutConfig.PartialOffsetOverrideRejected | server/loadConfig.ts:54-55 | an environment offset object with only `amount` replaces the whole base object, and validation fails on the missing sender offset |

## Left out

- **Text encoding.** Names are octet strings. UTF-8 decoding, replacement characters, and non-ASCII whitespace in `trimRight` are not modelled. The whitespace set is the ASCII one (tab through carriage return, and space).
- **Time zone.** The local time zone is a fixed offset; daylight-saving changes are not modelled.
- **Number precision.** Amounts and counts are unbounded integers. JavaScript's floating-point accumulation is not modelled, and neither is `Date`'s time range.
- **HTTP routing.** Routing, the 405, 406 and 501 responses, headers, JSON serialisation and logging are not modelled. `process.exit(1)` in `server.ts` is modelled as the terminal `Crashed` reply.
- **Node events.** Event delivery, backpressure and the listener registration order are modelled only as a sequence of events. `server.ts` registers no `close` listener, so the handler ignores it.
- **Frame size 0.** With `frameSize` 0, `read(0)` returns null and `end` never fires while bytes remain. The model keeps this: such a session never resolves.
- **Configuration I/O.** Reading the configuration files, `JSON.parse`, `NODE_ENV`, and values that are not numbers are not modelled. Configurations are values.
- **Object.assign.** `Object.assign` is a function on values; its in-place update of the base object and any aliasing are not modelled.
- **Key order.** `for…in` follows the listed key order. JavaScript's rule that integer-like keys come first, and duplicate JSON keys, are not modelled.
- **Decoder field widths.** The decoder always reads 32, 32, 4 and 6 octets, whatever `dataSize` says. The model keeps this, and `StrictLayoutDecodes` requires the configured amount and timestamp sizes to be at least those widths.
- Statistics.Credit and Statistics.FoldCustomers: a customer map is a plain JavaScript object, so `stat.customerStatistics[name] === undefined` is false for names inherited from `Object.prototype` (`__proto__`, `constructor`, `toString`, `hasOwnProperty`, …). For such a name the code takes the update branch and changes the inherited property instead of creating an entry. The model's `map` creates an entry for every name, so `FoldCustomers`' "an entry exactly when it took part" does not hold for these names in the code.
- **Ghost bookkeeping.** The processed-transaction lists in `Session` and `Request` are ghost bookkeeping that ties the in-place aggregate to its specification. They are not in the source.

## Findings

| source | as written | input that shows it | evidently intended | confidence | as-written member | corrected member |
|---|---|---|---|---|---|---|
| server/loadConfig.ts:95-107 | a key of `offset` without a `dataSize` entry makes `prevOffset` NaN, so the next overlap test and the final frame-size test are both false and the layout is accepted | frame 10, offsets sender 0, receiver 32, amount 64, timestamp 68, with sizes only for sender, receiver and amount: accepted although the fields the decoder reads reach octet 74 | every field in `offset` must have a defined size, so the overlap and frame-size checks cover it | not executed | LayoutConfig.MissingSizeSlipsThrough | LayoutConfig.StrictAcceptance |
