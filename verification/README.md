# Hyper client: verified models

Dafny models of the protocol and state-machine code of the Hyper client libraries, with proofs
about every input, every run or every reachable state. Verify with
`dafny verify dfyconfig.toml`.

## What is modelled

**Reading Arrow results** (`hyperdb-api/src/arrow_result.rs`). A result is a run of Arrow IPC
streams. The buffered constructors decode everything at once; the streaming one pulls chunks from
a source and keeps one decoder across them. `DecoderDriver` is the loop between them: it strips
end-of-stream markers, skips repeated schemas, and rolls back and swaps the decoder at stream
boundaries. The decoder of the `arrow` crate is a trusted step machine (`ArrowIpc`); the theorems
cover decoders that act on a schema which ends the buffer at once, and decoders that act on it
only with the next byte (`lag`). `LazyAgreement` and `LazyTheorems` relate the lazy form to the
buffered one, `LazyLimits` and `LazySchemas` say exactly where they agree on batches, acceptance
and schema, `DriverTermination` says when the loop ends, `RowsetRuns` follows whole runs of `next_chunk`, and
`ArrowFraming` repeats the driver on bytes, with the tests the code makes on them. The framing is
that of the Apache Arrow Columnar Format, sections "Encapsulated message format" and "IPC
Streaming Format".

**Writing Arrow data** (`hyperdb-api/src/arrow_inserter.rs`,
`hyperdb-api/src/async_arrow_inserter.rs`). Three inserters over one COPY session: lazy open,
schema flag, mode exclusion, a drained IPC writer, flush accounting, and finish, cancel or drop.
Every fallible operation on the connection or the IPC writer takes its outcome from a script, so
the theorems cover all failures. `InserterSpec` holds the three forms as functions,
`ArrowInserters` the classes proved against them, `InserterRuns` session linearity,
flushing and mode exclusion, `InserterWire` the wire of the IPC writer and its round trip through
the reader, and `InserterAgreement` the payload calls of the three forms: what each call does, what
runs put on the wire, and where the forms part.

**Data Cloud tokens** (`hyperdb-api-salesforce/src/provider.rs`, `token.rs`). Two caches with
different expiry rules, a one-shot retry and an HTTP retry loop with capped back-off, over a
scripted network and a clock that never goes back (`TokenSpec`, `TokenProvider`). `ProviderRuns`
bounds what runs send and fetch, and `ProviderReplies` traces every token back to the reply it was
read from. Time is in nanoseconds.

**Node bindings** (`hyperdb-api-node`). Producer, bounded channel and consumer of a streaming
query in every interleaving (`StreamProtocol`); columnar extraction against row extraction
(`Columnar`); the prepared-statement cache (`PreparedSpec`, `PreparedStatements`,
`PreparedRuns`); printing and counting placeholders (`Placeholders`).

**`derive(Table)`** (`hyperdb-api-derive/src/table_derive.rs`). The CREATE TABLE statement the
macro prints, and a reader that undoes it (`TableSql`).

Classes and methods carry the code's own fields and loops and are proved equal to functions; the
theorems are lemmas about those functions.

## What the proofs found

- `drive_streaming_decoder` never returns on some inputs: exactly those where a decoder that is as
  good as fresh meets a schema followed by another schema, or by a marker with bytes after it
  (`DriverTermination.DriveLoopsIff`, from every decoder state). An empty result with more bytes
  after it in one buffer is the simplest (`EmptyStreamThenMoreLoops`). Dafny methods must
  terminate, so the methods that drive the decoder require that this is not the case; the
  functions and lemmas do not.
- A marker that ends its chunk keeps the old decoder, so a later stream is read under an earlier
  stream's schema. Every cut of any messages gives the buffered result if and only if the buffered
  form accepts them and the first schema opens every stream that holds a batch
  (`LazyLimits.AgreesUnderEveryCutIff`); `StaleSchema` is the smallest case outside.
- The lazy form accepts every cut of a result if and only if the buffered form accepts it; single
  cuts of a rejected one may pass, and `LazySchemas.LazyAcceptsIff` says which
  (`LazySchemas.AcceptsEveryCutIff`, `LazyLimits.ContinuationAfterMarker`).
- The reported schema depends on the cut if the last message opens a stream, or if the last stream
  is empty and the decoder waits for the byte after its schema: then a cut between the schema and
  its marker reports the empty schema (`LazySchemas.ReportsAlikeIff`, `EmptyStreamHidden`,
  `LazyLimits.DoubledMarkerHidesSchema`).
- The `leftover` buffer of the streaming rowset is never filled: a successful drive always
  empties its buffer.
- The owned async inserter marks the schema as sent before the flush, the other two after it, so
  one failed flush makes their runs disagree for good; and it alone marks the schema as sent in
  `insert_raw`, so after a raw payload only it takes record batches
  (`InserterAgreement.OwnedRunAgreesIff`, `FlushFailureSplitsForms`, `RawSplitsForms`).
- A batch whose send or flush failed after it was serialized stays in the IPC buffer or is on the
  wire already; it is delivered once if `execute` later succeeds, although `insert_batch`
  reported an error (`InserterWire.WireReadsBack`).
- The comment on `InsertMode` says `insert_raw` belongs to the raw mode, but `insert_raw` never
  sets the mode, so `insert_batch` is not rejected after it (`InserterRuns.BatchRejectedIff`). The
  model follows the code.
- `get_token` can return a token that `bearer_token` refuses, if the server's reply grants it at
  most 300 seconds (`ProviderRuns.FetchedTokenUsableIff`, `ShortGrantUnusable`).
- An async inserter that is dropped with its session open while the connection's lock is taken
  leaves the session open (`InserterRuns.SessionIsLinear`, `DropUnderLockAbandons`).
- The comment on `ensure_cached` says a cached statement of other types is dropped before the new
  prepare; in the code it stays if that prepare fails.
- A call that overlaps `close` prepares the statement again and leaves it cached
  (`PreparedRuns.OverlappingCloseReprepares`, `OverlappingCloseRepeats`); it is the only way to
  prepare more often than needed (`InferredBlocksIff`, `TypedPreparesOnceIff`).
- `cancel` during a pending `next_chunk` that still has something to deliver is without effect
  (`StreamProtocol.CancelIsFinalIff`, `CancelDuringFirstCall`), although its comment promises null afterwards.
- The columnar path differs from the row path on BOOLEAN columns, on `get_int64` of REAL columns,
  on TIME columns, and on cells that are not null but cannot be decoded
  (`Columnar.BoolAgreesIff`, `Int64OfRealDiffers`, `StringsAgreeIff`, `NullsAgreeIff`, and one
  concrete cell for each: `TrueDiffers`, `RealDiffers`, `TimeDiffers`, `UndecodableDiffers`).
- `getString` of a timestamp in a row cuts off a rounded fraction: one microsecond after 2000-01-01
  prints as midnight, while the column prints it right (`Columnar.MicrosecondIsLost`). It is exact on
  every eighth of a millisecond, and within 35 years of 2000 it is never off by more than the one
  microsecond towards 2000 (`MicrosRoundTrip`, `MicrosWithinOne`).
- A digit after a value in a tagged template extends the printed placeholder number
  (`Placeholders.PrintThenCountIff`).

## Model

| member | source | states |
|---|---|---|
| DecoderDriver.DriveStreamingDecoder | hyperdb-api/src/arrow_result.rs:878-940 | on every run that ends, the loop's success, decoder and appended batches are those of the driver function, and success leaves the buffer empty |
| DriverTermination.LoopsIsNonTermination | hyperdb-api/src/arrow_result.rs:883-940 | the driver function reports a loop if and only if no number of rounds leaves it; a run still going after 2 rounds per message plus 2 never ends |
| DriverTermination.DriveLoopsIff | hyperdb-api/src/arrow_result.rs:887-936 | from every decoder state: the loop never ends if and only if, without failing earlier, a decoder that is as good as fresh (at the start or after a marker) meets a schema followed by a schema or by a marker with bytes after it; a second schema that ends the buffer counts unless the decoder waits for another byte |
| DriverTermination.EmptyStreamThenMoreLoops | hyperdb-api/src/arrow_result.rs:887-936 | an empty stream followed by another stream in one buffer is driven for ever |
| DriverTermination.SpacedTerminates | hyperdb-api/src/arrow_result.rs:883-940 | from every decoder state the loop ends if every schema in the buffer is followed by a batch or ends it |
| DriverTermination.SpacedProgress | hyperdb-api/src/arrow_result.rs:887-936 | each round on such a buffer consumes a message or swaps in a fresh decoder, so a swap without consuming happens at most once |
| ArrowRowset.DecodePossiblyConcatenatedStreams | hyperdb-api/src/arrow_result.rs:1001-1019 | succeeds exactly when the buffered form does, with its batches and schema |
| ArrowRowset.ArrowRowset.FromBuffer | hyperdb-api/src/arrow_result.rs:478-506 | builds the rowset the specification describes, or fails with a conversion error when it does |
| ArrowRowset.ArrowRowset.FromChunks | hyperdb-api/src/arrow_result.rs:519-542 | decodes each non-empty chunk on its own, in order, keeping the first schema that has fields; the first bad chunk fails the call |
| RowsetSpec.FirstBadChunkDecides | hyperdb-api/src/arrow_result.rs:519-542 | a prefix of chunks that fails decides `from_chunks`, whatever follows |
| RowsetSpec.SumRowsAdds | hyperdb-api/src/arrow_result.rs:732-743 | rows are counted batch by batch, starting at zero |
| LazyTheorems.FromChunksDelivers | hyperdb-api/src/arrow_result.rs:519-542 | on chunks of any schemas `from_chunks` succeeds if and only if `from_bytes` accepts each chunk, and then holds all their batches in order, each under the schema of its own chunk, and reports the first schema that has fields |
| ArrowRowset.ArrowRowset.FromStream | hyperdb-api/src/arrow_result.rs:564-580 | builds the primed streaming rowset, or returns the priming error |
| ArrowRowset.ArrowRowset.PrimeStream | hyperdb-api/src/arrow_result.rs:586-621 | pulls until a schema is known or the source ends, keeping batches for later, and records that schema |
| ArrowRowset.ArrowRowset.NextChunk | hyperdb-api/src/arrow_result.rs:684-724 | returns and leaves exactly what the specified call returns and leaves, for buffered and streaming rowsets |
| LazyAgreement.DriveDelivers | hyperdb-api/src/arrow_result.rs:878-940 | driving succeeds if and only if the messages are acceptable to a decoder of this kind, and then delivers every batch in order under the schema that opened its stream |
| LazyAgreement.BufferedDelivers | hyperdb-api/src/arrow_result.rs:478-506 | `from_bytes` succeeds exactly on the acceptable sequences, whatever their schemas, and then holds every batch, in order, under the schema of its own stream |
| LazyAgreement.DriveChunk | hyperdb-api/src/arrow_result.rs:878-940 | one chunk of an acceptable result never fails or loops, delivers its batches, and leaves a decoder fit for the rest |
| LazyAgreement.DriveFails | hyperdb-api/src/arrow_result.rs:878-940 | from a fresh or ready decoder, a run that fails has delivered every batch before the one it met without a schema, and leaves the decoder broken |
| LazyAgreement.CoveredCut | hyperdb-api/src/arrow_result.rs:887-898 | if one schema opens every stream that holds a batch, it does not matter where the chunks are cut |
| LazyTheorems.PullKeeps | hyperdb-api/src/arrow_result.rs:704-721 | part-way through an acceptable result a pull never fails and keeps the batches still owed |
| LazyTheorems.DrainPaysOwed | hyperdb-api/src/arrow_result.rs:684-724 | draining returns exactly the batches owed and then reports the end |
| LazyTheorems.LazyDelivers | hyperdb-api/src/arrow_result.rs:564-724 | whenever `from_bytes` accepts the glued messages, `from_stream` accepts every cut of them, whatever the schemas, and drains to the reference batches of that cut |
| LazyTheorems.LazyMatchesBuffered | hyperdb-api/src/arrow_result.rs:564-621 | with one schema and any message-boundary cut, empty chunks allowed, `from_stream` drains to exactly the batches of `from_bytes`; with a batch in every stream the schemas agree too |
| LazyTheorems.LazySchema | hyperdb-api/src/arrow_result.rs:586-621 | priming succeeds and reports the one schema, or the empty schema for a result without messages |
| LazyTheorems.ChunkedForm | hyperdb-api/src/arrow_result.rs:519-542 | on self-contained chunks with one schema `from_chunks` holds all batches of the glued messages, in order, and their schema |
| LazyTheorems.ThreeFormsAgree | hyperdb-api/src/arrow_result.rs:478-580 | on self-contained chunks with one schema the three constructors give the same batches and schema, and `total_rows` of the buffered ones is the number of rows the lazy one returns |
| LazyLimits.AgreesUnderEveryCutIff | hyperdb-api/src/arrow_result.rs:887-898 | for all messages: every cut is read alike if and only if the buffered form accepts them and the first schema opens every stream that holds a batch |
| LazyLimits.AgreementForcesOneSchema | hyperdb-api/src/arrow_result.rs:887-898 | agreement on the cut into single messages already forces acceptance and one schema on all batches |
| LazyLimits.StaleSchema | hyperdb-api/src/arrow_result.rs:887-898 | two streams of different schemas, cut after the marker: the lazy form returns the second batch under the first schema, the buffered form under its own |
| LazyLimits.DoubledMarkerHidesSchema | hyperdb-api/src/arrow_result.rs:887-898 | after a doubled marker the buffered form reports the empty schema, the lazy form the real one |
| LazyLimits.ContinuationAfterMarker | hyperdb-api/src/arrow_result.rs:887-898 | a batch-only continuation after a marker is read by the lazy form and rejected by the buffered one |
| LazySchemas.TakesIff | hyperdb-api/src/arrow_result.rs:878-940 | from every state the driver leaves, driving a chunk succeeds if and only if the chunk, read off its messages, is one this state takes |
| LazySchemas.LazyAcceptsIff | hyperdb-api/src/arrow_result.rs:564-724 | for every cut of any messages: the lazy form is built and reads to the end if and only if one decoder kept across the chunks takes each of them |
| LazySchemas.AcceptsEveryCutIff | hyperdb-api/src/arrow_result.rs:478-724 | the lazy form is built and reads to the end under every cut if and only if the buffered form accepts the glued messages |
| LazySchemas.HidesIff | hyperdb-api/src/arrow_result.rs:878-940 | after a successful drive, from every state the driver leaves, whether the decoder shows a schema depends on the last two messages only |
| LazySchemas.BufferedSchema | hyperdb-api/src/arrow_result.rs:478-506 | on accepted messages with one schema the buffered form reports it unless the last message opens a stream |
| LazySchemas.BufferHangsIff | hyperdb-api/src/arrow_result.rs:478-506 | `from_bytes` never returns if and only if the messages, read off one by one, make a fresh decoder loop |
| LazySchemas.ReportsAlikeIff | hyperdb-api/src/arrow_result.rs:586-621 | on accepted messages with one schema, every cut reports the buffered form's schema if and only if that schema is empty, or only markers come before the last message, or the last message does not open a stream and (for a waiting decoder) the last stream is not empty |
| LazySchemas.EmptyStreamHidden | hyperdb-api/src/arrow_result.rs:586-621 | a last empty stream, cut before its marker, is reported with the empty schema by a waiting decoder |
| RowsetRuns.CallsConserve | hyperdb-api/src/arrow_result.rs:684-724 | after any number of calls on any source, failing chunks and transport errors included: returned batches followed by pending ones are the initially pending ones followed by everything decoded from the chunks consumed; the failures reported are those of the items consumed, in order, one reply each; nothing is left over; an exhausted rowset has no source left |
| RowsetRuns.PrimeConserves | hyperdb-api/src/arrow_result.rs:586-621 | priming that succeeds loses nothing: what it decodes waits in `pending`, and no item it consumed failed |
| RowsetRuns.TransportErrorsReported | hyperdb-api/src/arrow_result.rs:684-724 | after any number of calls on any source the transport errors reported are exactly those among the items consumed, in order: none is swallowed or made up |
| RowsetRuns.FromStreamFailsIff | hyperdb-api/src/arrow_result.rs:564-621 | `from_stream` fails with an error if and only if that is the first failure of the source, with its transport code, and it is met before the decoder shows a schema |
| RowsetRuns.LeftoverComesFirst | hyperdb-api/src/arrow_result.rs:698-722 | bytes left over are read exactly as if they were the next chunk of the source, by `next_chunk` and by priming |
| RowsetRuns.PendingRows | hyperdb-api/src/arrow_result.rs:732-743 | `total_rows` of a streaming rowset is the number of rows it returns without pulling again |
| RowsetRuns.NoneIsFinal | hyperdb-api/src/arrow_result.rs:684-724 | after the first `None` every later call answers `None` |
| ArrowFraming.Le32RoundTrip | hyperdb-api/src/arrow_result.rs:967-977 | the little-endian length prefix reads back for every 32-bit length |
| ArrowFraming.PeekFrame | hyperdb-api/src/arrow_result.rs:967-994 | on any frame with a non-empty header, whatever follows, `peek_message_body` finds the header and its size and no end-of-stream marker is seen |
| ArrowFraming.PeekNeedsHeader | hyperdb-api/src/arrow_result.rs:967-977 | a prefix of a frame is recognized if and only if all of its header has arrived |
| ArrowFraming.PeekLegacyFrame | hyperdb-api/src/arrow_result.rs:967-977 | frames of the legacy format, without a continuation marker, are recognized too |
| ArrowFraming.EncodeShows | hyperdb-api/src/arrow_result.rs:863-994 | on the bytes of any message the flatbuffer code reads back, the marker test, schema test and size test answer as the message says, and the frame ends where it was written to end |
| ArrowFraming.ReadEncoded | hyperdb-api/src/arrow_result.rs:943-994 | reading the frames of an encoded message sequence, each message read back by the flatbuffer code, gives the sequence back |
| ArrowFraming.SomeFlatbuffersRead | hyperdb-api/src/arrow_result.rs:943-994 | every sequence of fewer than 2^32 messages is read back by some flatbuffer code, so the results about encoded messages are not empty |
| ArrowFraming.RoundRefines | hyperdb-api/src/arrow_result.rs:883-940 | on message-aligned bytes one round of the byte loop does what the round on messages does, and leaves the same remainder |
| ArrowFraming.DriveBytesRefines | hyperdb-api/src/arrow_result.rs:878-994 | the driver on encoded messages, deciding by the code's byte tests, equals the driver on messages, non-termination included |
| ArrowFraming.FromBytesIsFromBuffer | hyperdb-api/src/arrow_result.rs:478-506 | `from_bytes` on encoded messages is the message-level buffered constructor |
| ArrowInserters.ArrowInserter.InsertData | hyperdb-api/src/arrow_inserter.rs:299-342 | outcome and whole new state of the sync form for every payload and failure |
| ArrowInserters.ArrowInserter.InsertRecordBatches | hyperdb-api/src/arrow_inserter.rs:384-423 | outcome and whole new state |
| ArrowInserters.ArrowInserter.InsertRaw | hyperdb-api/src/arrow_inserter.rs:447-472 | outcome and whole new state; neither mode nor schema flag is set |
| ArrowInserters.ArrowInserter.InsertBatch | hyperdb-api/src/arrow_inserter.rs:619-663 | outcome and whole new state, with the schema drained on first use |
| ArrowInserters.ArrowInserter.DrainIpcBuffer | hyperdb-api/src/arrow_inserter.rs:675-698 | sends the buffered messages and clears the buffer, or keeps it when the send fails |
| ArrowInserters.ArrowInserter.InsertBatches | hyperdb-api/src/arrow_inserter.rs:721-729 | inserts in order and stops at the first batch that is not accepted |
| ArrowInserters.ArrowInserter.Execute | hyperdb-api/src/arrow_inserter.rs:497-535 | finalizes the IPC stream, sends the rest and finishes, or cancels on the error paths |
| ArrowInserters.ArrowInserter.Cancel | hyperdb-api/src/arrow_inserter.rs:540-544 | cancels an open session |
| ArrowInserters.ArrowInserter.Drop | hyperdb-api/src/arrow_inserter.rs:778-785 | cancels an open session |
| ArrowInserters.AsyncArrowInserter.InsertData | hyperdb-api/src/async_arrow_inserter.rs:157-191 | outcome and whole new state of the borrowed async form |
| ArrowInserters.AsyncArrowInserter.InsertRecordBatches | hyperdb-api/src/async_arrow_inserter.rs:204-235 | outcome and whole new state |
| ArrowInserters.AsyncArrowInserter.InsertRaw | hyperdb-api/src/async_arrow_inserter.rs:249-266 | outcome and whole new state |
| ArrowInserters.AsyncArrowInserter.Execute | hyperdb-api/src/async_arrow_inserter.rs:279-298 | finishes an open session; without one it succeeds |
| ArrowInserters.AsyncArrowInserter.Cancel | hyperdb-api/src/async_arrow_inserter.rs:303-307 | cancels an open session |
| ArrowInserters.AsyncArrowInserter.Drop | hyperdb-api/src/async_arrow_inserter.rs:374-391 | cancels an open session if the connection's lock is free, and else leaves it open |
| ArrowInserters.AsyncArrowInserterOwned.InsertData | hyperdb-api/src/async_arrow_inserter.rs:493-512 | outcome and whole new state of the owned form, with the schema flag set before the flush |
| ArrowInserters.AsyncArrowInserterOwned.InsertRecordBatches | hyperdb-api/src/async_arrow_inserter.rs:523-540 | outcome and whole new state |
| ArrowInserters.AsyncArrowInserterOwned.InsertRaw | hyperdb-api/src/async_arrow_inserter.rs:552-566 | outcome and whole new state, with the schema flag set before the flush |
| ArrowInserters.AsyncArrowInserterOwned.Execute | hyperdb-api/src/async_arrow_inserter.rs:577-591 | finishes an open session; without one it fails |
| ArrowInserters.AsyncArrowInserterOwned.Cancel | hyperdb-api/src/async_arrow_inserter.rs:594-598 | cancels an open session |
| ArrowInserters.AsyncArrowInserterOwned.Drop | hyperdb-api/src/async_arrow_inserter.rs:661-674 | cancels an open session if the connection's lock is free, and else leaves it open |
| InserterRuns.RunSound | hyperdb-api/src/arrow_inserter.rs:299-774 | over any calls and failures: one session is open if and only if one was opened, none has ended, `buffered_bytes` is what was sent since the last flush, and `total_bytes` never exceeds what was sent |
| InserterRuns.SessionIsLinear | hyperdb-api/src/arrow_inserter.rs:497-785 | for every form, run, failure and ending: at most one session is opened, and it is finished or cancelled exactly once (finished if `execute` succeeds), if and only if no async inserter is dropped with its session open and the lock taken |
| InserterRuns.SyncSessionIsLinear | hyperdb-api/src/arrow_inserter.rs:497-785 | so over every run and ending of the sync form |
| InserterRuns.DropUnderLockAbandons | hyperdb-api/src/async_arrow_inserter.rs:374-391 | one call and a drop under a taken lock open a session that never ends |
| InserterRuns.ExecuteOkIff | hyperdb-api/src/arrow_inserter.rs:497-535 | `execute` returns `Ok` if and only if everything it has to do succeeds: finalizing and sending the rest of an IPC stream, and the final round trip; with nothing inserted the owned form fails |
| InserterRuns.FinishedIff | hyperdb-api/src/arrow_inserter.rs:497-544 | the session is completed if and only if one is open, the ending is `execute`, and finalizing and sending the IPC tail succeed; every other ending cancels or leaves it |
| InserterRuns.FlushesOnlyWhenDue | hyperdb-api/src/arrow_inserter.rs:760-774 | over every run and failure the connection is flushed only when at least the threshold has been sent since the last flush |
| InserterRuns.ApplyTimely | hyperdb-api/src/arrow_inserter.rs:299-774 | an accepted call with a payload or a batch leaves less than the threshold unflushed, or nothing |
| InserterRuns.BatchRejectedIff | hyperdb-api/src/arrow_inserter.rs:619-630 | after any run of the sync form `insert_batch` is rejected if and only if a non-empty `insert_data` was accepted before |
| InserterRuns.BatchExcludesPayloads | hyperdb-api/src/arrow_inserter.rs:299-472 | once an `insert_batch` was accepted, whatever is called next, the three payload calls are rejected and change nothing |
| InserterWire.InsertBatchWriting | hyperdb-api/src/arrow_inserter.rs:619-698 | whatever fails, one `insert_batch` keeps wire plus buffer equal to the stream of the batches taken, extended by its batch or by nothing; an accepted call took its batch and left the buffer empty |
| InserterWire.RunWriting | hyperdb-api/src/arrow_inserter.rs:619-698 | the same over any run: wire plus buffer is the encoded stream of the batches taken, `total_bytes` is the wire length and `buffered_bytes` what was sent since the last flush |
| InserterWire.InsertBatchCounts | hyperdb-api/src/arrow_inserter.rs:619-663 | `insert_batch` counts its batch if and only if it is accepted, whatever fails |
| InserterWire.StopsAtRefused | hyperdb-api/src/arrow_inserter.rs:721-729 | a failing `insert_batches` accepted a prefix of its batches and returns what the next one returned, in the state that left |
| InserterWire.DrainedWire | hyperdb-api/src/arrow_inserter.rs:631-774 | after an accepted `insert_batches` the wire is the encoded schema and batches, the IPC buffer is empty, `total_bytes` is the wire length, `buffered_bytes` what was sent since the last flush, and `chunk_count` the number of batches |
| InserterWire.ExecuteAddsTail | hyperdb-api/src/arrow_inserter.rs:505-514 | a successful `execute` adds what is still buffered and the end-of-stream marker, and nothing else |
| InserterWire.ExecuteFinishesStream | hyperdb-api/src/arrow_inserter.rs:497-535 | after a successful `execute` the wire is the finished stream of all batches taken |
| InserterWire.StreamReadsBack | hyperdb-api/src/arrow_result.rs:478-506 | a finished stream with at least one batch reads back as its schema and batches |
| InserterWire.WireReadsBack | hyperdb-api/src/arrow_inserter.rs:619-698 | after any run with failures, if `execute` returns `Ok` the wire reads back as exactly the batches taken, in order |
| InserterWire.RoundTrip | hyperdb-api/src/arrow_inserter.rs:721-729 | for every non-empty list of batches and any script of failures: if `insert_batches` and `execute` succeed, `from_bytes` reads back those batches under that schema from the wire |
| InserterWire.CalmRoundTrip | hyperdb-api/src/arrow_inserter.rs:497-535 | without failures `insert_batches` and `execute` do succeed, so the round trip is unconditional |
| InserterWire.SomeRoundTrip | hyperdb-api/src/arrow_inserter.rs:721-729 | any list of fewer than 2^32 - 2 batches makes the whole round trip with a concrete flatbuffer code |
| InserterAgreement.SyncAgreesWithAsync | hyperdb-api/src/async_arrow_inserter.rs:157-266 | on every run of `insert_data`, `insert_record_batches` and `insert_raw`, whatever fails, sync and async return the same outcomes and leave the same wire, counts and flags |
| InserterAgreement.OwnedAgreesIff | hyperdb-api/src/async_arrow_inserter.rs:249-266 | for each of `insert_data`, `insert_record_batches` and `insert_raw`: one call of the owned form has the outcome of the async form, and leaves the same state unless, judged before the call, it is an `insert_data` that sends, reaches the flush threshold and fails in the flush, or an `insert_raw` that sends before the schema was marked |
| InserterAgreement.OwnedRunAgreesIff | hyperdb-api/src/async_arrow_inserter.rs:493-566 | over whole runs of the three calls owned and async return the same outcomes and leave the same state if and only if no call of the run is one of those |
| InserterAgreement.BelowThresholdAgree | hyperdb-api/src/async_arrow_inserter.rs:644-658 | without `insert_raw` they agree on every run whose bytes stay below the flush threshold, whatever fails |
| InserterAgreement.FlushFailureSplitsForms | hyperdb-api/src/async_arrow_inserter.rs:493-540 | after such a flush the next `insert_record_batches` is rejected by the async form and accepted by the owned one |
| InserterAgreement.RawSplitsForms | hyperdb-api/src/async_arrow_inserter.rs:552-566 | after a successful `insert_raw` the next `insert_record_batches` is rejected by the async form and accepted by the owned one |
| InserterAgreement.InsertFollowsPlan | hyperdb-api/src/arrow_inserter.rs:299-472 | each of the three calls, in every form, whatever fails: empty payloads and rejected calls do nothing; any other call opens if need be, sends the payload, flushes if due, stops at the first failure, is accepted if and only if all succeed, and is counted only then |
| InserterAgreement.AcceptedMeansSent | hyperdb-api/src/arrow_inserter.rs:447-472 | whatever fails, an accepted call has put exactly its payload on the wire |
| InserterAgreement.WireIsPayloads | hyperdb-api/src/arrow_inserter.rs:299-472 | over every run of the three calls without I/O failures, in every form: accepted are exactly the empty payloads and those that fit the schema flag, raw ones always; the wire is the accepted non-empty payloads in order, `total_bytes` its length and `chunk_count` their number; which these are is read off the payloads alone |
| InserterAgreement.WireShape | hyperdb-api/src/arrow_inserter.rs:299-423 | without raw payloads the wire is one `insert_data` payload followed by record-batch payloads |
| InserterAgreement.QuietRunsAgree | hyperdb-api/src/async_arrow_inserter.rs:493-540 | without I/O failures and `insert_raw` all three forms accept the same calls and leave the same wire, counts and flags |
| TokenProvider.DataCloudTokenProvider.PostWithRetry | hyperdb-api-salesforce/src/provider.rs:467-537 | the loop returns and leaves what the specified retry recursion does |
| TokenProvider.DataCloudTokenProvider.FetchOAuthAccessToken | hyperdb-api-salesforce/src/provider.rs:314-403 | one request; the caches are untouched |
| TokenProvider.DataCloudTokenProvider.ExchangeOAuthAccessTokenForDcJwt | hyperdb-api-salesforce/src/provider.rs:409-464 | one exchange of the given token, or a configuration error without a request if the exchange URL cannot be built; the caches are untouched |
| TokenProvider.DataCloudTokenProvider.GetValidOAuthAccessToken | hyperdb-api-salesforce/src/provider.rs:296-311 | a cached token that is likely valid, or a new one, which is cached |
| TokenProvider.DataCloudTokenProvider.FetchDcJwt | hyperdb-api-salesforce/src/provider.rs:253-289 | exchange, and on failure drop the OAuth token, fetch anew and exchange once more |
| TokenProvider.DataCloudTokenProvider.GetToken | hyperdb-api-salesforce/src/provider.rs:149-168 | the cached JWT if valid, else a fetched one, which is cached |
| TokenProvider.DataCloudTokenProvider.ForceRefresh | hyperdb-api-salesforce/src/provider.rs:177-181 | both caches are cleared before fetching |
| TokenProvider.DataCloudTokenProvider.RefreshToken | hyperdb-api-salesforce/src/provider.rs:194-197 | only the JWT cache is cleared before fetching |
| TokenProvider.DataCloudTokenProvider.ClearCache | hyperdb-api-salesforce/src/provider.rs:200-203 | both caches are empty afterwards |
| TokenProvider.DataCloudTokenProvider.BearerToken | hyperdb-api-salesforce/src/provider.rs:210-215 | the cached JWT's bearer value if it is still valid, else nothing |
| ProviderRuns.PostAnswersFirstDecisive | hyperdb-api-salesforce/src/provider.rs:472-537 | the answer is the first decisive reply among the first `max_retries + 1`, or an HTTP error if there is none; no send follows it, and the sleeps are the back-off of the retries made |
| ProviderRuns.TotalDelayIs | hyperdb-api-salesforce/src/provider.rs:472-537 | `r` retries sleep `2^r - 1` seconds for `r <= 5` and `16 r - 49` from then on |
| ProviderRuns.FetchJwtAccounted | hyperdb-api-salesforce/src/provider.rs:253-289 | at most four requests; a JWT it returns was exchanged last, for the OAuth token now cached; the accounting invariant is kept |
| ProviderRuns.PerformAccounted | hyperdb-api-salesforce/src/provider.rs:149-203 | every call keeps the accounting invariant, never turns the clock back, and makes at most `4 (max_retries + 1)` sends |
| ProviderRuns.FetchesAreBounded | hyperdb-api-salesforce/src/provider.rs:253-311 | over any run, successful OAuth fetches number at most 1 + clears + distinct tokens found expired + first-exchange failures |
| ProviderRuns.FetchesPerLifetime | hyperdb-api-salesforce/src/token.rs:125-165 | with no clears and no failed first exchanges a run of T seconds makes at most 1 + T/7199 of them |
| ProviderRuns.BearerIsLastExchanged | hyperdb-api-salesforce/src/provider.rs:149-215 | at any point of any run `bearer_token` hands out only the token of the most recent successful exchange, with more than 300 seconds left |
| ProviderRuns.FailureLeavesNoToken | hyperdb-api-salesforce/src/provider.rs:149-215 | after any failed `get_token`, `refresh_token` or `force_refresh`, and after `clear_cache`, `bearer_token` is `None` until the next success, however long one waits |
| ProviderRuns.FailedFetchKeepsLast | hyperdb-api-salesforce/src/provider.rs:253-289 | a failing fetch exchanged nothing and, like a failing `get_token`, leaves the JWT cache alone |
| ProviderRuns.FetchedTokenUsableIff | hyperdb-api-salesforce/src/token.rs:274-368 | after a `get_token` that had to fetch, `bearer_token` returns the token if and only if the last reply of the server grants more than 300 seconds or does not say |
| ProviderRuns.ShortGrantUnusable | hyperdb-api-salesforce/src/token.rs:274-368 | two replies, the second granting 300 seconds: `get_token` succeeds and `bearer_token` is `None` |
| ProviderReplies.FetchOf | hyperdb-api-salesforce/src/token.rs:137-152 | an OAuth token that was fetched is the access token of the last reply, which was neither an error nor empty, obtained now and good for 7199 seconds |
| ProviderReplies.ExchangeOf | hyperdb-api-salesforce/src/token.rs:274-302 | a JWT that was exchanged has the type of the last reply, or "Bearer", its access token, and the lifetime it grants, or 1800 seconds |
| ProviderReplies.FetchAnswers | hyperdb-api-salesforce/src/provider.rs:314-403 | a fetch ends at the first decisive reply, and its result is that reply's token or exactly the error this reply stands for |
| ProviderReplies.ExchangeAnswers | hyperdb-api-salesforce/src/provider.rs:409-464 | the same for an exchange |
| ProviderReplies.NothingToRequest | hyperdb-api-salesforce/src/provider.rs:409-464 | without an authentication mode, or with a URL that does not join, the answer is a configuration error and nothing is sent |
| ProviderReplies.TokensComeFromReplies | hyperdb-api-salesforce/src/provider.rs:149-311 | over every run each OAuth token and each JWT was read from the reply to its own request, and what was exchanged is the token of the last OAuth fetch before |
| ProviderReplies.BearerIsFromReply | hyperdb-api-salesforce/src/token.rs:295-311 | at any point of any run what `bearer_token` hands out is the token type, a space and the access token of the reply to the last successful exchange |
| ProviderReplies.CachedJwtUsedIff | hyperdb-api-salesforce/src/provider.rs:149-168 | a `get_token` that succeeds sends nothing, and returns the cached JWT, if and only if that has more than 300 seconds left |
| ProviderReplies.CachedOAuthUsedIff | hyperdb-api-salesforce/src/provider.rs:296-311 | in every reachable state a cached OAuth token is used again if and only if it was obtained less than 7199 seconds ago |
| ProviderReplies.RefreshExchanges | hyperdb-api-salesforce/src/provider.rs:194-197 | a successful `refresh_token` ends with a new exchange, whose JWT it caches and returns |
| ProviderReplies.ForceFetches | hyperdb-api-salesforce/src/provider.rs:177-181 | a successful `force_refresh` ends with a new exchange too, after at least one new OAuth fetch |
| StreamProtocol.RunKeepsInv | hyperdb-api-node/src/query_stream.rs:55-187 | the invariant holds in every interleaving of producer, `next_chunk` and `cancel`, overlapping calls included |
| StreamProtocol.DeliveryIsPrefix | hyperdb-api-node/src/query_stream.rs:112-187 | delivered, queued and in-hand items are a prefix of the query's; the queue never exceeds its bound; a failure comes at most once and last; no rows before the schema is set |
| StreamProtocol.GoneIsFinal | hyperdb-api-node/src/query_stream.rs:55-81 | once the receiver is dropped every later reply is null |
| StreamProtocol.NullIsAbsorbing | hyperdb-api-node/src/columnar.rs:355-381 | with non-overlapping calls every reply after the first null is null |
| StreamProtocol.NullMeansComplete | hyperdb-api-node/src/query_stream.rs:55-81 | with non-overlapping calls and no `cancel`, a null reply comes only after every chunk, and the failure if there is one, has been delivered |
| StreamProtocol.StepsCount | hyperdb-api-node/src/query_stream.rs:55-187 | every effective step of the producer, of a pending call, or into a call makes one measure smaller |
| StreamProtocol.EverythingIsDelivered | hyperdb-api-node/src/query_stream.rs:55-187 | from every reachable state in which nobody cancelled, a non-overlapping schedule no longer than the measure delivers every item still missing and then answers null: there is no deadlock |
| StreamProtocol.EveryScheduleDelivers | hyperdb-api-node/src/query_stream.rs:55-187 | every schedule of effective, non-overlapping steps without `cancel` is no longer than the measure, and once it cannot be extended everything has been delivered |
| StreamProtocol.ProducerStops | hyperdb-api-node/src/query_stream.rs:112-187 | once the receiver is gone the producer ends after at most three steps of its own, however many chunks are left and whatever else happens |
| StreamProtocol.SchemaIsReal | hyperdb-api-node/src/query_stream.rs:139-160 | in every run a schema that is set is that of a query that opened and has rows |
| StreamProtocol.CancelIsFinalIff | hyperdb-api-node/src/query_stream.rs:99-106 | in every reachable state: after `cancel` all replies in all continuations are null if and only if no call is pending that still has something to deliver |
| StreamProtocol.CancelDuringFirstCall | hyperdb-api-node/src/query_stream.rs:99-106 | `cancel` while the first call waits: the call still answers with the first rows |
| Columnar.ExtractRow | hyperdb-api-node/src/result.rs:40-109 | one value for each cell, of the column's type, dates and timestamps as rounded Unix milliseconds; a null is null, and columns beyond the schema are text |
| Columnar.ExtractChunkColumnar | hyperdb-api-node/src/columnar.rs:201-321 | the nested loops fill every column and null bitmap with the values of all rows |
| Columnar.Int32Agrees | hyperdb-api-node/src/columnar.rs:82-121 | for every number column `get_int32_column` fails if and only if `get_int32` throws on some row; otherwise it holds the rows' values, 0 at nulls |
| Columnar.Int64Agrees | hyperdb-api-node/src/columnar.rs:146-160 | for every number column but REAL `get_int64_column` holds the rows' `get_int64` values, 0 at nulls |
| Columnar.Int64OfRealDiffers | hyperdb-api-node/src/result.rs:216-239 | on a REAL column `get_int64` is null in every row, while `get_int64_column` holds the conversion of every row's `get_float64` |
| Columnar.Float64Agrees | hyperdb-api-node/src/columnar.rs:127-139 | for every number column `get_float64_column` holds the rows' `get_float64` values, zero at nulls |
| Columnar.BoolAgreesIff | hyperdb-api-node/src/columnar.rs:251-255 | `get_int32` of a boolean is null, and the column agrees with that exactly where the value is false or null |
| Columnar.BoolsAgree | hyperdb-api-node/src/result.rs:146-154 | on boolean and integer columns `get_bool` of a row is true exactly where the column is not zero, and null exactly at nulls |
| Columnar.BytesAreKept | hyperdb-api-node/src/result.rs:360-366 | byte strings go through a row unchanged, and text as its own bytes |
| Columnar.NumberColumnsThrowIff | hyperdb-api-node/src/columnar.rs:82-160 | the number columns fail if and only if the column is neither boolean nor a number, or, for 32 bits, a BIGINT does not fit |
| Columnar.MissingIsNull | hyperdb-api-node/src/columnar.rs:239-249 | a column that a row does not have is null in both paths |
| Columnar.NullsAgreeIff | hyperdb-api-node/src/columnar.rs:186-193 | `get_nulls` agrees with `is_null` in a row if and only if the cell is null or can be decoded |
| Columnar.DaysRoundTrip | hyperdb-api-node/src/result.rs:77-85 | shifting a date to Unix milliseconds and back gives its day, for every 32-bit day, with every operation rounded to floating point |
| Columnar.MidnightIsDate | hyperdb-api-node/src/result.rs:77-97 | for every day that a timestamp can hold, its midnight is extracted as the same milliseconds as the date, 86400000 a day from 946684800000; day 0 is 2000-01-01 |
| Columnar.MicrosRoundTrip | hyperdb-api-node/src/result.rs:92-97 | a timestamp on an eighth of a millisecond, of at most 2^53 microseconds, is extracted exactly and shifting it back gives its microsecond |
| Columnar.MicrosWithinOne | hyperdb-api-node/src/result.rs:344-354 | with every operation rounded to nearest, every timestamp within 35 years of 2000 comes back as its microsecond or the next one towards 2000 |
| Columnar.TimestampStringsAgree | hyperdb-api-node/src/columnar.rs:291-312 | on those eighths the timestamp columns hold the rows' `get_string`, empty at nulls |
| Columnar.TimestampStringsNear | hyperdb-api-node/src/result.rs:344-354 | within 35 years of 2000 a row's string is that of the column's microsecond or of the next one towards 2000 |
| Columnar.MicrosecondIsLost | hyperdb-api-node/src/result.rs:344-354 | one microsecond after 2000-01-01 a row prints midnight and the column the right time |
| Columnar.CastsTruncate | hyperdb-api-node/src/result.rs:340-352 | the casts back to days and microseconds cut off the fraction towards zero and saturate, for every number |
| Columnar.StringsAgreeIff | hyperdb-api-node/src/columnar.rs:291-312 | text and date columns hold the rows' `get_string`, empty at nulls; a TIME column does so in a row if and only if the time prints as the cell's raw text |
| PreparedStatements.PreparedStatement.EnsureCached | hyperdb-api-node/src/prepared.rs:276-301 | success and whole new state, the old statement kept when a prepare fails |
| PreparedStatements.PreparedStatement.Execute | hyperdb-api-node/src/prepared.rs:314-340 | a closed statement runs nothing; otherwise the parameters run on the statement left in the cache |
| PreparedStatements.PreparedStatement.Close | hyperdb-api-node/src/prepared.rs:187-192 | the statement is dead and its cache empty, nothing else changes |
| PreparedRuns.InferredTypesMatch | hyperdb-api-node/src/prepared.rs:276-340 | in every interleaving, failing prepares included, each execution uses a statement prepared with exactly its own parameters' types |
| PreparedRuns.TypedTypesMatch | hyperdb-api-node/src/prepared.rs:233-301 | in typed mode every prepare and every execution uses the explicit types |
| PreparedRuns.NoCallIsLost | hyperdb-api-node/src/prepared.rs:276-340 | in every interleaving each call past its liveness check is still waiting, was executed with its own parameters, or had its prepare fail; every request to prepare was recorded or failed |
| PreparedRuns.OidIff | hyperdb-api-node/src/prepared.rs:452-514 | a JSON parameter is BOOLEAN, INT, BIGINT, DOUBLE PRECISION or TEXT exactly by its kind, INT if and only if it is an integer of 32 bits, and untyped exactly for null |
| PreparedRuns.ParamKeepsValue | hyperdb-api-node/src/prepared.rs:487-514 | no value changes on its way into a parameter, whichever width is chosen |
| PreparedRuns.SameTypesIff | hyperdb-api-node/src/prepared.rs:276-290 | two calls have the same types if and only if they have as many parameters of the same kinds |
| PreparedRuns.PreparesAgainIff | hyperdb-api-node/src/prepared.rs:276-301 | after one call the next prepares again if and only if a parameter changes its kind |
| PreparedRuns.InferredBlocksIff | hyperdb-api-node/src/prepared.rs:276-308 | in every interleaving, prepares failing or not: the successful prepares are, in order, one for each maximal block of consecutive executions with equal types, if and only if no call finds the cache empty and prepares the last execution's types again |
| PreparedRuns.InferredPreparesAreBlocks | hyperdb-api-node/src/prepared.rs:187-308 | so whenever no call overlaps `close` |
| PreparedRuns.OverlappingCloseRepeats | hyperdb-api-node/src/prepared.rs:187-308 | in inferred mode a call that overlaps `close` prepares the same types twice for one block |
| PreparedRuns.TypedPreparesOnceIff | hyperdb-api-node/src/prepared.rs:233-301 | in typed mode there is one successful prepare for the statement's life if and only if no call takes the lock after `close` emptied the cache and prepares again |
| PreparedRuns.TypedPreparesOnceIfAlone | hyperdb-api-node/src/prepared.rs:187-301 | so without calls that overlap `close` there is exactly one, whatever later prepares would do |
| PreparedRuns.OverlappingCloseReprepares | hyperdb-api-node/src/prepared.rs:187-301 | a call between its liveness check and the lock when `close` runs prepares again and leaves the statement cached |
| Placeholders.CountPlaceholders | hyperdb-api-node/src/prepared.rs:78-97 | the index loop, which skips the digits it has read, returns the highest number after any `$` |
| Placeholders.HighestIsMaximum | hyperdb-api-node/src/prepared.rs:78-97 | that number is the maximum over all `$` positions of the digit run that follows |
| Placeholders.LeadingWraps | hyperdb-api-node/src/prepared.rs:84-89 | digit runs are read modulo 2^32, so exactly when they fit 32 bits |
| Placeholders.BuildTemplate | hyperdb-api-node/index.js:90-94 | the loop prints the parts with `$1`, `$2`, ... between them |
| Placeholders.TemplateSplits | hyperdb-api-node/index.js:90-94 | without `$` in the parts a printed template splits at its `$` signs into the first part and then each value's number followed by the part after it |
| Placeholders.TemplatesAreInjective | hyperdb-api-node/index.js:90-94 | templates with as many values print alike only if their parts are the same |
| Placeholders.CountIsLargestNumber | hyperdb-api-node/index.js:90-94 | without `$` in the parts the count of a printed template is the largest number read at a value |
| Placeholders.PrintThenCountIff | hyperdb-api-node/src/prepared.rs:78-97 | without `$` in the parts, and numbers that fit 32 bits, printing then counting gives the number of values if and only if no digits after a value extend its number beyond it |
| Placeholders.PrintThenCount | hyperdb-api-node/src/prepared.rs:78-97 | in particular if no part after a value starts with a digit |
| Placeholders.DigitAfterValueMiscounts | hyperdb-api-node/index.js:90-94 | one value followed by "0" counts as ten |
| TableSql.ToSnakeCase | hyperdb-api-derive/src/table_derive.rs:379-388 | for any case tables the loop lowers every character, with an underscore before upper-case letters but a first one; nothing upper-case is left if lowering removes it |
| TableSql.QuotedReads | hyperdb-api-derive/src/table_derive.rs:258-260 | a quoted identifier reads back whatever characters it holds, as long as no quote follows it |
| TableSql.SqlTypesArePlain | hyperdb-api-derive/src/table_derive.rs:263-312 | no type text the macro can print contains a column separator or ends like NOT NULL |
| TableSql.TableReadsBack | hyperdb-api-derive/src/table_derive.rs:54-63 | for every table name and column list, quotes, commas and parentheses in names included, the statement reads back as the table name and every column's name, type and nullability in order |
| TableSql.StatementsAreInjective | hyperdb-api-derive/src/table_derive.rs:54-63 | different tables have different statements |
| TableSql.ParseStructOpts | hyperdb-api-derive/src/table_derive.rs:118-150 | the loop succeeds if and only if every item is recognized and well formed, and of several table names the last counts |
| TableSql.ParseFieldOpts | hyperdb-api-derive/src/table_derive.rs:176-207 | the same for a field's items, with the last name and index given |
| TableSql.StandsIff | hyperdb-api-derive/src/table_derive.rs:263-312 | the types that become SQL types are exactly the thirteen supported ones, by the last name of their path, and of the vectors only those of `u8` |
| TableSql.StandsIsInjective | hyperdb-api-derive/src/table_derive.rs:263-312 | different supported types have different SQL types |
| TableSql.ColumnDefDescribes | hyperdb-api-derive/src/table_derive.rs:230-256 | a field has a column if and only if its options are recognized and its type, or `T` of an `Option<T>`, is supported; the column's name is the last `rename` or the field's own, its type that of `T`, and it is nullable if and only if the field is an `Option` or has an index |
| TableSql.DescribesOne | hyperdb-api-derive/src/table_derive.rs:230-256 | only one column meets that description |
| TableSql.OptionalKeepsType | hyperdb-api-derive/src/table_derive.rs:320-340 | making a field optional only drops NOT NULL |
| TableSql.SnakeAppend | hyperdb-api-derive/src/table_derive.rs:379-388 | one more character adds its lower case, after an underscore if it is upper case and not the first |
| TableSql.TableNameIs | hyperdb-api-derive/src/table_derive.rs:19-50 | the table's name is the last `table` option, or else the snake case of the struct's |
| TableSql.UserTable | hyperdb-api-derive/src/table_derive.rs:54-63 | the statement of a struct `User` with an `i64` id and an optional nickname, spelled out |
| TableSql.ExpandReadsBack | hyperdb-api-derive/src/table_derive.rs:19-101 | the macro succeeds if and only if it is applied to a struct with named fields, every option is recognized and every field's type supported, and its statement then reads back as the table and one column for each field, in order, with the name, type and nullability that describe the field |

## Left out

- DecoderDriver.DriveStreamingDecoder: requires that the loop ends, because the original does not return on the buffers of `DriveLoopsIff`; the lemmas cover those buffers.
- ArrowRowset.DecodePossiblyConcatenatedStreams: requires the same.
- ArrowRowset.ArrowRowset.FromBuffer: requires the same.
- ArrowRowset.ArrowRowset.FromChunks: requires the same.
- ArrowRowset.ArrowRowset.FromStream: requires the same.
- ArrowRowset.ArrowRowset.PrimeStream: requires the same.
- ArrowRowset.ArrowRowset.NextChunk: requires the same.
- LazyTheorems.LazyMatchesBuffered: chunks are cut at message boundaries; the bytes of one message are not split over two chunks.
- ArrowFraming.DriveBytesRefines: assumes of the messages at hand that the flatbuffer code reads their headers back and that a header fits its 32-bit length; header contents, compression and dictionary batches are not modelled.
- InserterWire.WireReadsBack: assumes the same of the messages on the wire; so do the other round trips.
- ArrowFraming.IterateBytes: bytes that are not whole messages fail here; the original decoder buffers a partial message for the next chunk.
- The streaming decoder after a missing-schema error fails for good; the library does not say what it does.
- `is_empty`, `parse_arrow_ipc`, the Arrow cell accessors and the Arrow type maps: conversions without state.
- InserterRuns.SessionIsLinear: a failed send or flush leaves no bytes on the wire, a failed finish still ends the session, and a cancel is one event; the CopyFail exchange below it is not part of this model.
- InserterWire.RunWriting: one schema for all batches of a run; a batch of another schema is the IPC writer's to reject.
- Errors of the inserters are collapsed to rejected and failed; SQL text, table definitions and row counts are not modelled.
- ProviderRuns.FetchesPerLifetime: network replies and their durations are a script and the clock never goes back; JWT signing and request building are one flag, parsing and joining URLs an outcome each.
- `SharedTokenProvider`, `needs_refresh`, `tenant_id`, `lakehouse_name`: a lock around the same calls, and text functions.
- StreamProtocol.DeliveryIsPrefix: the consumer's mutex and the producer task are atomic steps of one machine rather than a class; `get_schema` is the flag only.
- Columnar.MicrosWithinOne: rounding is a parameter with the laws of rounding to nearest; its bits, and which of the two microseconds is printed, are not modelled.
- Columnar.Int32Agrees: Rust's numeric conversions are uninterpreted, with zero and widening laws.
- The big-integer accessors, and the string accessors of number and binary columns: formatting.
- PreparedStatements.PreparedStatement.Execute: running the statement and decoding its rows happens at the server.
- Placeholders.CountPlaceholders: an overlong number wraps as in release builds; debug builds panic. Text is a sequence of characters, which is the same to the digit and `$` tests.
- Placeholders.PrintThenCountIff: parts with a `$` of their own are outside, since their numbers are the user's.
- TableSql.ToSnakeCase: the case tables of Unicode are parameters; the claim that no upper case is left excepts characters without a lower-case form.
- TableSql.ExpandReadsBack: attributes are their parsed items, and types their path segments; the generated trait code and the compile-time registry are not modelled.
- Inserter narrowing, catalog, connection and process bindings of the Node package, sockets, gRPC and TLS: forwarding and I/O.
