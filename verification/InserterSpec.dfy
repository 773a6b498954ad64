/**
  The Arrow inserters as functions on their state: `ArrowInserter` (arrow_inserter.rs) and the
  two async forms, `AsyncArrowInserter` and `AsyncArrowInserterOwned` (async_arrow_inserter.rs).
  The classes in module `ArrowInserters` are proved against these functions.
 */
module InserterSpec {
  import opened Common
  import opened ArrowIpc
  import opened ArrowFraming

  // ---------------------------------------------------------------------------
  // The connection
  // ---------------------------------------------------------------------------

  /** What happens on the connection. A send or flush that fails leaves no event. */
  datatype Event = Opened | Sent(data: Bytes) | Flushed | Completed | Cancelled

  /** `script` says which of the fallible operations to come succeed; beyond it all do. */
  datatype Io = Io(script: seq<bool>, log: seq<Event>)
  {
    function Next(): bool {
      script == [] || script[0]
    }

    function Rest(): seq<bool> {
      if script == [] then [] else script[1..]
    }

    /** A fallible operation on the connection. */
    function Try(e: Event): Io {
      Io(Rest(), if Next() then log + [e] else log)
    }

    /** A fallible operation that does not touch the connection, such as serializing. */
    function TryLocal(): Io {
      Io(Rest(), log)
    }

    /** Ending the session consumes the writer whether the round trip succeeds or not. */
    function End(e: Event): Io {
      Io(Rest(), log + [e])
    }
  }

  // ---------------------------------------------------------------------------
  // The inserter
  // ---------------------------------------------------------------------------

  datatype InsertMode = RawIpc | BatchIpc

  /**
    The IPC `StreamWriter`: the messages in its buffer, not yet drained, and, as a history,
    all messages it was ever given.
   */
  datatype IpcWriter = IpcWriter(buf: Buffer, written: Buffer)

  /** The three forms: sync, async with a borrowed connection, async with an owned one. */
  datatype Form = Sync | Async | Owned

  datatype Inserter = Inserter(
    open: bool,
    schemaSent: bool,
    mode: Option<InsertMode>,
    ipc: Option<IpcWriter>,
    totalBytes: nat,
    bufferedBytes: nat,
    chunkCount: nat,
    flushThreshold: nat,
    io: Io)

  /** A fresh inserter; the COPY session is begun by the first write. */
  function New(flushThreshold: nat, script: seq<bool>): Inserter {
    Inserter(false, false, None, None, 0, 0, 0, flushThreshold, Io(script, []))
  }

  datatype Outcome = Accepted | Rejected | Failed

  /** A call's outcome and the state it leaves. */
  datatype Result = Result(outcome: Outcome, state: Inserter)

  function EnsureWriter(st: Inserter): Result
  {
    if st.open then Result(Accepted, st)
    else if st.io.Next() then Result(Accepted, st.(open := true, io := st.io.Try(Opened)))
    else Result(Failed, st.(io := st.io.Try(Opened)))
  }

  /** `writer.send_direct`, skipped when there is no writer. */
  function SendDirect(st: Inserter, data: Bytes): Result
  {
    if !st.open then Result(Accepted, st)
    else Result(if st.io.Next() then Accepted else Failed, st.(io := st.io.Try(Sent(data))))
  }

  function MaybeFlush(st: Inserter): Result
  {
    if st.bufferedBytes < st.flushThreshold then Result(Accepted, st)
    else if !st.open then Result(Accepted, st.(bufferedBytes := 0))
    else if st.io.Next() then Result(Accepted, st.(bufferedBytes := 0, io := st.io.Try(Flushed)))
    else Result(Failed, st.(io := st.io.Try(Flushed)))
  }

  /** Send a payload, count it as buffered, flush if due, then count it as sent. */
  function SendPayload(st: Inserter, data: Bytes, markBeforeFlush: bool): Result
  {
    var sent := SendDirect(st, data);
    if sent.outcome.Failed? then sent
    else
      var counted := sent.state.(bufferedBytes := sent.state.bufferedBytes + |data|,
                                 schemaSent := sent.state.schemaSent || markBeforeFlush);
      var flushed := MaybeFlush(counted);
      if flushed.outcome.Failed? then flushed
      else Result(Accepted, flushed.state.(totalBytes := flushed.state.totalBytes + |data|,
                                           chunkCount := flushed.state.chunkCount + 1))
  }

  function InsertData(form: Form, st: Inserter, data: Bytes): Result
  {
    if data == [] then Result(Accepted, st)
    else if form.Sync? && st.mode == Some(BatchIpc) then Result(Rejected, st)
    else if st.schemaSent then Result(Rejected, st)
    else
      var begun := EnsureWriter(st);
      if begun.outcome.Failed? then begun
      else
        var sent := SendPayload(begun.state, data, form.Owned?);
        if sent.outcome.Failed? then sent
        else Result(Accepted, sent.state.(schemaSent := true,
                                          mode := if form.Sync? then Some(RawIpc) else sent.state.mode))
  }

  function InsertRecordBatches(form: Form, st: Inserter, data: Bytes): Result
  {
    if data == [] then Result(Accepted, st)
    else if form.Sync? && st.mode == Some(BatchIpc) then Result(Rejected, st)
    else if !st.schemaSent then Result(Rejected, st)
    else SendPayload(st, data, false)
  }

  function InsertRaw(form: Form, st: Inserter, data: Bytes): Result
  {
    if data == [] then Result(Accepted, st)
    else if form.Sync? && st.mode == Some(BatchIpc) then Result(Rejected, st)
    else
      var begun := EnsureWriter(st);
      if begun.outcome.Failed? then begun else SendPayload(begun.state, data, form.Owned?)
  }

  /** Send what the IPC writer has buffered; on a failed send the buffer is kept. */
  function DrainIpcBuffer(fb: Flatbuffers, st: Inserter): Result
    requires st.ipc.Some?
  {
    if st.ipc.value.buf == [] then Result(Accepted, st)
    else
      var data := EncodeAll(fb, st.ipc.value.buf);
      var sent := SendDirect(st, data);
      if sent.outcome.Failed? then sent
      else
        MaybeFlush(sent.state.(ipc := Some(IpcWriter([], st.ipc.value.written)),
                               bufferedBytes := sent.state.bufferedBytes + |data|,
                               totalBytes := sent.state.totalBytes + |data|))
  }

  /** `StreamWriter::write` and the schema it writes on construction append to the buffer. */
  function Append(w: IpcWriter, m: Message): IpcWriter {
    IpcWriter(w.buf + [m], w.written + [m])
  }

  /** The first use creates the IPC writer, which writes the schema, and drains it. */
  function EnsureIpcWriter(fb: Flatbuffers, st: Inserter, schema: Schema): (r: Result)
    ensures r.outcome.Accepted? ==> r.state.ipc.Some?
  {
    if st.ipc.Some? then Result(Accepted, st)
    else if !st.io.Next() then Result(Failed, st.(io := st.io.TryLocal()))
    else
      var created := st.(ipc := Some(Append(IpcWriter([], []), SchemaMsg(schema))), io := st.io.TryLocal());
      var drained := DrainIpcBuffer(fb, created);
      if drained.outcome.Failed? then drained
      else Result(Accepted, drained.state.(schemaSent := true))
  }

  /** Serialize one batch into the IPC writer and drain it. */
  function WriteBatch(fb: Flatbuffers, st: Inserter, batch: Batch): Result
    requires st.ipc.Some?
  {
    var tried := st.(io := st.io.TryLocal());
    if !st.io.Next() then Result(Failed, tried)
    else
      var drained := DrainIpcBuffer(fb, tried.(ipc := Some(Append(st.ipc.value, BatchMsg(batch)))));
      if drained.outcome.Failed? then drained
      else Result(Accepted, drained.state.(chunkCount := drained.state.chunkCount + 1))
  }

  /** `insert_batch`, which only the sync form has. */
  function InsertBatch(fb: Flatbuffers, st: Inserter, schema: Schema, batch: Batch): (r: Result)
    ensures r.outcome.Accepted? ==> r.state.ipc.Some?
  {
    if st.mode == Some(RawIpc) then Result(Rejected, st)
    else
      var begun := EnsureWriter(st);
      if begun.outcome.Failed? then begun
      else
        var ready := EnsureIpcWriter(fb, begun.state.(mode := Some(BatchIpc)), schema);
        if !ready.outcome.Accepted? then ready
        else WriteBatch(fb, ready.state, batch)
  }

  /** Try each batch in turn; return on the first that is not accepted. */
  function UntilRefused(step: (Inserter, Batch) -> Result, st: Inserter, batches: seq<Batch>): Result
    decreases |batches|
  {
    if batches == [] then Result(Accepted, st)
    else
      var first := step(st, batches[0]);
      if !first.outcome.Accepted? then first else UntilRefused(step, first.state, batches[1..])
  }

  function BatchStep(fb: Flatbuffers, schema: Schema): (Inserter, Batch) -> Result
  {
    (st: Inserter, batch: Batch) => InsertBatch(fb, st, schema, batch)
  }

  /** `insert_batches`. */
  function InsertBatches(fb: Flatbuffers, st: Inserter, schema: Schema, batches: seq<Batch>): Result
  {
    UntilRefused(BatchStep(fb, schema), st, batches)
  }

  // ---------------------------------------------------------------------------
  // Ending
  // ---------------------------------------------------------------------------

  /** How a consumed inserter ended: whether `execute` returned `Ok`, and the connection. */
  datatype Ended = Ended(ok: bool, io: Io)

  /** `cancel`: an open session is cancelled. */
  function Cancel(st: Inserter): Ended {
    Ended(false, if st.open then st.io.End(Cancelled) else st.io)
  }

  /**
    `Drop`. The sync form cancels; the async forms cannot wait for the connection's lock, and if it
    is taken they leave the session as it is.
   */
  function Drop(form: Form, st: Inserter, lockFree: bool): Ended {
    if form.Sync? || lockFree then Cancel(st) else Ended(false, st.io)
  }

  /** Take the writer and finish; without one, the owned form reports an error. */
  function Finish(form: Form, st: Inserter): Ended {
    if st.open then Ended(st.io.Next(), st.io.End(Completed)) else Ended(!form.Owned?, st.io)
  }

  /**
    `execute`: finalize the IPC writer, which appends the end-of-stream marker, then finish. On an
    error the consumed inserter is dropped; only the sync form has an IPC writer.
   */
  function Execute(fb: Flatbuffers, form: Form, st: Inserter): Ended
  {
    if st.ipc.None? then Finish(form, st)
    else
      var tried := st.(io := st.io.TryLocal(), ipc := None);
      if !st.io.Next() then Cancel(tried)
      else
        var sent := SendDirect(tried, EncodeAll(fb, st.ipc.value.buf + [Eos]));
        if sent.outcome.Failed? then Cancel(sent.state) else Finish(form, sent.state)
  }
}
