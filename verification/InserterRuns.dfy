/**
  Whole runs of an Arrow inserter, over every sequence of calls and every pattern of failing
  operations: what is on the wire, what is accounted for, and how the COPY session ends.
 */
module InserterRuns {
  import opened Common
  import opened ArrowIpc
  import opened ArrowFraming
  import opened InserterSpec

  // ---------------------------------------------------------------------------
  // Reading the connection's log
  // ---------------------------------------------------------------------------

  function SentBytes(log: seq<Event>): Bytes
  {
    if log == [] then []
    else
      var last := log[|log| - 1];
      SentBytes(log[..|log| - 1]) + (if last.Sent? then last.data else [])
  }

  /** Bytes sent since the last flush. */
  function Unflushed(log: seq<Event>): nat
  {
    if log == [] || log[|log| - 1].Flushed? then 0
    else
      var last := log[|log| - 1];
      Unflushed(log[..|log| - 1]) + (if last.Sent? then |last.data| else 0)
  }

  function Opens(log: seq<Event>): nat
  {
    if log == [] then 0 else Opens(log[..|log| - 1]) + (if log[|log| - 1].Opened? then 1 else 0)
  }

  /** Sessions finished or cancelled. */
  function Ends(log: seq<Event>): nat
  {
    if log == [] then 0
    else
      var last := log[|log| - 1];
      Ends(log[..|log| - 1]) + (if last.Completed? || last.Cancelled? then 1 else 0)
  }

  lemma Logged(log: seq<Event>, e: Event)
    ensures SentBytes(log + [e]) == SentBytes(log) + (if e.Sent? then e.data else [])
    ensures Unflushed(log + [e]) ==
            if e.Flushed? then 0 else Unflushed(log) + (if e.Sent? then |e.data| else 0)
    ensures Opens(log + [e]) == Opens(log) + (if e.Opened? then 1 else 0)
    ensures Ends(log + [e]) == Ends(log) + (if e.Completed? || e.Cancelled? then 1 else 0)
  {
    assert (log + [e])[..|log|] == log;
  }

  // ---------------------------------------------------------------------------
  // Calls
  // ---------------------------------------------------------------------------

  datatype Call =
    | Data(data: Bytes)
    | RecordBatches(data: Bytes)
    | Raw(data: Bytes)
    | OneBatch(schema: Schema, batch: Batch)

  /** `insert_batch` exists on the sync form only. */
  function Apply(fb: Flatbuffers, form: Form, st: Inserter, call: Call): Result
  {
    match call
    case Data(data) => InsertData(form, st, data)
    case RecordBatches(data) => InsertRecordBatches(form, st, data)
    case Raw(data) => InsertRaw(form, st, data)
    case OneBatch(schema, batch) =>
      if form.Sync? then InsertBatch(fb, st, schema, batch) else Result(Rejected, st)
  }

  datatype Run = Run(outcomes: seq<Outcome>, state: Inserter)

  /** Make these calls one after the other. */
  function Fold(step: (Inserter, Call) -> Result, st: Inserter, calls: seq<Call>): (r: Run)
    ensures |r.outcomes| == |calls|
    decreases |calls|
  {
    if calls == [] then Run([], st)
    else
      var first := step(st, calls[0]);
      var rest := Fold(step, first.state, calls[1..]);
      Run([first.outcome] + rest.outcomes, rest.state)
  }

  function Caller(fb: Flatbuffers, form: Form): (Inserter, Call) -> Result
  {
    (st: Inserter, call: Call) => Apply(fb, form, st, call)
  }

  function RunCalls(fb: Flatbuffers, form: Form, st: Inserter, calls: seq<Call>): Run
  {
    Fold(Caller(fb, form), st, calls)
  }

  /** A property every call keeps holds after every run. */
  lemma {:induction false} FoldKeeps(step: (Inserter, Call) -> Result, inv: Inserter -> bool, st: Inserter, calls: seq<Call>)
    requires inv(st)
    requires forall x, call :: inv(x) ==> inv(step(x, call).state)
    ensures inv(Fold(step, st, calls).state)
    decreases |calls|
  {
    if calls != [] {
      FoldKeeps(step, inv, step(st, calls[0]).state, calls[1..]);
    }
  }

  // ---------------------------------------------------------------------------
  // What every call keeps, in every form, also when it fails
  // ---------------------------------------------------------------------------

  /** One session at most, still open; every sent byte since the last flush counted as buffered. */
  ghost predicate Sound(st: Inserter)
  {
    && Opens(st.io.log) == (if st.open then 1 else 0)
    && Ends(st.io.log) == 0
    && (st.schemaSent || st.ipc.Some? ==> st.open)
    && st.bufferedBytes == Unflushed(st.io.log)
    && st.totalBytes <= |SentBytes(st.io.log)|
  }

  lemma EnsureWriterSound(st: Inserter)
    requires Sound(st)
    ensures Sound(EnsureWriter(st).state)
    ensures SentBytes(EnsureWriter(st).state.io.log) == SentBytes(st.io.log)
    ensures EnsureWriter(st).outcome.Accepted? ==> EnsureWriter(st).state.open
  {
    Logged(st.io.log, Opened);
  }

  /** Sending and counting the bytes as buffered. */
  lemma SendSound(st: Inserter, data: Bytes)
    requires Sound(st) && st.open
    ensures SendDirect(st, data).outcome.Failed? ==> Sound(SendDirect(st, data).state)
    ensures var r := SendDirect(st, data);
            r.outcome.Accepted? ==>
              && Sound(r.state.(bufferedBytes := r.state.bufferedBytes + |data|))
              && SentBytes(r.state.io.log) == SentBytes(st.io.log) + data
  {
    Logged(st.io.log, Sent(data));
  }

  lemma FlushSound(st: Inserter)
    requires Sound(st) && st.open
    ensures var r := MaybeFlush(st);
            && Sound(r.state) && SentBytes(r.state.io.log) == SentBytes(st.io.log)
            && r.state.open && r.state.totalBytes == st.totalBytes && r.state.ipc == st.ipc
            && r.state.mode == st.mode && r.state.chunkCount == st.chunkCount
            && r.state.schemaSent == st.schemaSent && r.state.flushThreshold == st.flushThreshold
  {
    Logged(st.io.log, Flushed);
  }

  lemma SendPayloadSound(st: Inserter, data: Bytes, mark: bool)
    requires Sound(st) && st.open
    ensures Sound(SendPayload(st, data, mark).state) && SendPayload(st, data, mark).state.open
    ensures var r := SendPayload(st, data, mark);
            r.outcome.Accepted? ==>
              && SentBytes(r.state.io.log) == SentBytes(st.io.log) + data
              && r.state.totalBytes == st.totalBytes + |data|
  {
    SendSound(st, data);
    var sent := SendDirect(st, data);
    if sent.outcome.Accepted? {
      FlushSound(sent.state.(bufferedBytes := sent.state.bufferedBytes + |data|,
                             schemaSent := sent.state.schemaSent || mark));
    }
  }

  lemma DrainSound(fb: Flatbuffers, st: Inserter)
    requires st.ipc.Some? && Sound(st)
    ensures Sound(DrainIpcBuffer(fb, st).state)
  {
    if st.ipc.value.buf != [] {
      var data := EncodeAll(fb, st.ipc.value.buf);
      SendSound(st, data);
      var sent := SendDirect(st, data);
      if sent.outcome.Accepted? {
        FlushSound(sent.state.(ipc := Some(IpcWriter([], st.ipc.value.written)),
                               bufferedBytes := sent.state.bufferedBytes + |data|,
                               totalBytes := sent.state.totalBytes + |data|));
      }
    }
  }

  lemma EnsureIpcWriterSound(fb: Flatbuffers, st: Inserter, schema: Schema)
    requires Sound(st) && st.open
    ensures Sound(EnsureIpcWriter(fb, st, schema).state)
  {
    if st.ipc.None? && st.io.Next() {
      DrainSound(fb, st.(ipc := Some(Append(IpcWriter([], []), SchemaMsg(schema))), io := st.io.TryLocal()));
    }
  }

  lemma WriteBatchSound(fb: Flatbuffers, st: Inserter, batch: Batch)
    requires st.ipc.Some? && Sound(st)
    ensures Sound(WriteBatch(fb, st, batch).state)
  {
    if st.io.Next() {
      DrainSound(fb, st.(io := st.io.TryLocal(), ipc := Some(Append(st.ipc.value, BatchMsg(batch)))));
    }
  }

  lemma InsertBatchSound(fb: Flatbuffers, st: Inserter, schema: Schema, batch: Batch)
    requires Sound(st)
    ensures Sound(InsertBatch(fb, st, schema, batch).state)
  {
    EnsureWriterSound(st);
    if st.mode != Some(RawIpc) && EnsureWriter(st).outcome.Accepted? {
      var ready := EnsureWriter(st).state.(mode := Some(BatchIpc));
      EnsureIpcWriterSound(fb, ready, schema);
      if EnsureIpcWriter(fb, ready, schema).outcome.Accepted? {
        WriteBatchSound(fb, EnsureIpcWriter(fb, ready, schema).state, batch);
      }
    }
  }

  lemma InsertDataSound(form: Form, st: Inserter, data: Bytes)
    requires Sound(st)
    ensures Sound(InsertData(form, st, data).state)
  {
    EnsureWriterSound(st);
    if EnsureWriter(st).outcome.Accepted? {
      SendPayloadSound(EnsureWriter(st).state, data, form.Owned?);
    }
  }

  lemma InsertRecordBatchesSound(form: Form, st: Inserter, data: Bytes)
    requires Sound(st)
    ensures Sound(InsertRecordBatches(form, st, data).state)
  {
    if st.schemaSent { SendPayloadSound(st, data, false); }
  }

  lemma InsertRawSound(form: Form, st: Inserter, data: Bytes)
    requires Sound(st)
    ensures Sound(InsertRaw(form, st, data).state)
  {
    EnsureWriterSound(st);
    if EnsureWriter(st).outcome.Accepted? {
      SendPayloadSound(EnsureWriter(st).state, data, form.Owned?);
    }
  }

  lemma ApplySound(fb: Flatbuffers, form: Form, st: Inserter, call: Call)
    requires Sound(st)
    ensures Sound(Apply(fb, form, st, call).state)
  {
    match call
    case Data(data) => InsertDataSound(form, st, data);
    case RecordBatches(data) => InsertRecordBatchesSound(form, st, data);
    case Raw(data) => InsertRawSound(form, st, data);
    case OneBatch(schema, batch) => InsertBatchSound(fb, st, schema, batch);
  }

  lemma RunSound(fb: Flatbuffers, form: Form, st: Inserter, calls: seq<Call>)
    requires Sound(st)
    ensures Sound(RunCalls(fb, form, st, calls).state)
  {
    var inv := (x: Inserter) => Sound(x);
    forall x, call | inv(x) ensures inv(Caller(fb, form)(x, call).state) {
      ApplySound(fb, form, x, call);
    }
    FoldKeeps(Caller(fb, form), inv, st, calls);
  }

  // ---------------------------------------------------------------------------
  // The COPY session is used linearly
  // ---------------------------------------------------------------------------

  /** The ways an inserter is consumed. */
  datatype Ending = ByExecute | ByCancel | ByDrop(lockFree: bool)

  function End(fb: Flatbuffers, form: Form, st: Inserter, ending: Ending): Ended
  {
    match ending
    case ByExecute => Execute(fb, form, st)
    case ByCancel => Cancel(st)
    case ByDrop(lockFree) => Drop(form, st, lockFree)
  }

  /** An async inserter with an open session is dropped while the connection's lock is taken. */
  predicate Abandons(form: Form, st: Inserter, ending: Ending) {
    !form.Sync? && st.open && ending == ByDrop(false)
  }

  /** The session of an inserter in state `st` was consumed as it should be. */
  ghost predicate Linear(st: Inserter, end: Ended)
  {
    && Opens(end.io.log) == (if st.open then 1 else 0)
    && Ends(end.io.log) == Opens(end.io.log)
    && (st.open ==> end.io.log != [] && end.io.log[|end.io.log| - 1] in {Completed, Cancelled})
    && (st.open && end.ok ==> end.io.log[|end.io.log| - 1] == Completed)
  }

  lemma CancelLinear(st: Inserter)
    requires Opens(st.io.log) == (if st.open then 1 else 0) && Ends(st.io.log) == 0
    ensures Linear(st, Cancel(st))
  {
    Logged(st.io.log, Cancelled);
  }

  lemma FinishLinear(form: Form, st: Inserter)
    requires Opens(st.io.log) == (if st.open then 1 else 0) && Ends(st.io.log) == 0
    ensures Linear(st, Finish(form, st))
  {
    Logged(st.io.log, Completed);
  }

  lemma SendThenEndLinear(form: Form, st: Inserter, data: Bytes)
    requires Opens(st.io.log) == (if st.open then 1 else 0) && Ends(st.io.log) == 0
    ensures var sent := SendDirect(st, data);
            Linear(st, if sent.outcome.Failed? then Cancel(sent.state) else Finish(form, sent.state))
  {
    Logged(st.io.log, Sent(data));
    CancelLinear(SendDirect(st, data).state);
    FinishLinear(form, SendDirect(st, data).state);
  }

  lemma ExecuteLinear(fb: Flatbuffers, form: Form, st: Inserter)
    requires Sound(st)
    ensures Linear(st, Execute(fb, form, st))
  {
    if st.ipc.None? {
      FinishLinear(form, st);
    } else {
      var tried := st.(io := st.io.TryLocal(), ipc := None);
      CancelLinear(tried);
      SendThenEndLinear(form, tried, EncodeAll(fb, st.ipc.value.buf + [Eos]));
    }
  }

  /**
    After any calls, any failures and any ending, at most one session was opened, and it was
    finished or cancelled exactly once (finished, if `execute` returned `Ok`), if and only if no
    async inserter was dropped with its session open and the lock taken; then it never ends.
   */
  lemma SessionIsLinear(fb: Flatbuffers, form: Form, threshold: nat, script: seq<bool>,
                        calls: seq<Call>, ending: Ending)
    ensures var st := RunCalls(fb, form, New(threshold, script), calls).state;
            var end := End(fb, form, st, ending);
            && (Linear(st, end) <==> !Abandons(form, st, ending))
            && (Abandons(form, st, ending) ==> Opens(end.io.log) == 1 && Ends(end.io.log) == 0)
  {
    RunSound(fb, form, New(threshold, script), calls);
    var st := RunCalls(fb, form, New(threshold, script), calls).state;
    if ending.ByExecute? { ExecuteLinear(fb, form, st); } else { CancelLinear(st); }
  }

  /** So the sync form is always linear. */
  lemma SyncSessionIsLinear(fb: Flatbuffers, threshold: nat, script: seq<bool>, calls: seq<Call>, ending: Ending)
    ensures var st := RunCalls(fb, Sync, New(threshold, script), calls).state;
            Linear(st, End(fb, Sync, st, ending))
  {
    SessionIsLinear(fb, Sync, threshold, script, calls, ending);
  }

  /** The smallest case where it is not: one call, then a drop while the lock is taken. */
  lemma DropUnderLockAbandons(fb: Flatbuffers, data: Bytes)
    requires data != []
    ensures var st := RunCalls(fb, Async, New(0, []), [Raw(data)]).state;
            var end := End(fb, Async, st, ByDrop(false));
            Opens(end.io.log) == 1 && Ends(end.io.log) == 0
  {
    var calls := [Raw(data)];
    assert calls[1..] == [];
    assert Fold(Caller(fb, Async), New(0, []), calls).state == Apply(fb, Async, New(0, []), Raw(data)).state;
    SessionIsLinear(fb, Async, 0, [], calls, ByDrop(false));
  }

  // ---------------------------------------------------------------------------
  // When `execute` succeeds
  // ---------------------------------------------------------------------------

  /** Whether the `k`-th fallible operation to come succeeds. */
  predicate Upcoming(io: Io, k: nat) {
    k >= |io.script| || io.script[k]
  }

  /**
    `execute` returns `Ok` if and only if everything it has to do succeeds: finalizing the IPC
    writer and sending the rest, if there is one, and finishing. With nothing inserted the owned
    form fails and the others succeed.
   */
  lemma ExecuteOkIff(fb: Flatbuffers, form: Form, st: Inserter)
    requires Sound(st)
    ensures Execute(fb, form, st).ok <==>
            if st.ipc.Some? then Upcoming(st.io, 0) && Upcoming(st.io, 1) && Upcoming(st.io, 2)
            else if st.open then Upcoming(st.io, 0)
            else !form.Owned?
  {
  }

  lemma {:induction false} NotYetEnded(log: seq<Event>)
    requires Ends(log) == 0
    ensures Completed !in log && Cancelled !in log
  {
    if log != [] { NotYetEnded(log[..|log| - 1]); }
  }

  /**
    A session is finished only by `execute`, and only once all that was buffered has been sent;
    every other ending cancels it or leaves it.
   */
  lemma FinishedIff(fb: Flatbuffers, form: Form, st: Inserter, ending: Ending)
    requires Sound(st)
    ensures Completed in End(fb, form, st, ending).io.log <==>
            st.open && ending.ByExecute? && (st.ipc.Some? ==> Upcoming(st.io, 0) && Upcoming(st.io, 1))
  {
    NotYetEnded(st.io.log);
  }

  // ---------------------------------------------------------------------------
  // Flushing
  // ---------------------------------------------------------------------------

  /** Every flush in the log was due: at least the threshold was unflushed. */
  ghost predicate FlushesAreDue(log: seq<Event>, threshold: nat) {
    forall i :: 0 <= i < |log| && log[i].Flushed? ==> Unflushed(log[..i]) >= threshold
  }

  ghost predicate Timely(st: Inserter) {
    Sound(st) && FlushesAreDue(st.io.log, st.flushThreshold)
  }

  /** Nothing is buffered, or less than the threshold. */
  predicate NotOverdue(st: Inserter) {
    st.bufferedBytes == 0 || st.bufferedBytes < st.flushThreshold
  }

  lemma DueOneMore(log: seq<Event>, e: Event, threshold: nat)
    requires FlushesAreDue(log, threshold) && (e.Flushed? ==> Unflushed(log) >= threshold)
    ensures FlushesAreDue(log + [e], threshold)
  {
    forall i | 0 <= i < |log + [e]| && (log + [e])[i].Flushed? ensures Unflushed((log + [e])[..i]) >= threshold {
      assert (log + [e])[..i] == log[..i];
      if i == |log| { assert log[..i] == log; }
    }
  }

  lemma EnsureWriterTimely(st: Inserter)
    requires Timely(st)
    ensures Timely(EnsureWriter(st).state)
  {
    EnsureWriterSound(st);
    DueOneMore(st.io.log, Opened, st.flushThreshold);
  }

  lemma SendTimely(st: Inserter, data: Bytes)
    requires Timely(st) && st.open
    ensures var r := SendDirect(st, data);
            && (r.outcome.Failed? ==> Timely(r.state))
            && (r.outcome.Accepted? ==> Timely(r.state.(bufferedBytes := r.state.bufferedBytes + |data|)))
  {
    SendSound(st, data);
    DueOneMore(st.io.log, Sent(data), st.flushThreshold);
  }

  lemma FlushTimely(st: Inserter)
    requires Timely(st) && st.open
    ensures Timely(MaybeFlush(st).state)
    ensures MaybeFlush(st).outcome.Accepted? ==> NotOverdue(MaybeFlush(st).state)
  {
    FlushSound(st);
    if st.bufferedBytes >= st.flushThreshold { DueOneMore(st.io.log, Flushed, st.flushThreshold); }
  }

  function CountedBuffered(st: Inserter, data: Bytes, mark: bool): Inserter {
    st.(bufferedBytes := st.bufferedBytes + |data|, schemaSent := st.schemaSent || mark)
  }

  /** After the send a payload call goes as its flush does. */
  lemma PayloadGoesAsFlush(st: Inserter, data: Bytes, mark: bool)
    ensures var sent, r := SendDirect(st, data), SendPayload(st, data, mark);
            if sent.outcome.Failed? then r == sent
            else
              var flushed := MaybeFlush(CountedBuffered(sent.state, data, mark));
              && r.outcome == flushed.outcome && r.state.io == flushed.state.io && r.state.open == flushed.state.open
              && r.state.bufferedBytes == flushed.state.bufferedBytes
              && r.state.flushThreshold == flushed.state.flushThreshold
  {
  }

  lemma SendPayloadTimely(st: Inserter, data: Bytes, mark: bool)
    requires Timely(st) && st.open
    ensures var r := SendPayload(st, data, mark);
            Timely(r.state) && r.state.open && (r.outcome.Accepted? ==> NotOverdue(r.state))
  {
    SendPayloadSound(st, data, mark);
    SendTimely(st, data);
    PayloadGoesAsFlush(st, data, mark);
    var sent := SendDirect(st, data);
    if sent.outcome.Accepted? {
      FlushTimely(CountedBuffered(sent.state, data, mark));
    }
  }

  /** Bytes that were sent and counted. */
  lemma CountedTimely(st: Inserter, data: Bytes, ipc: Option<IpcWriter>, io: Io)
    requires Timely(st) && st.open && io.log == st.io.log + [Sent(data)]
    ensures Timely(st.(io := io, ipc := ipc, bufferedBytes := st.bufferedBytes + |data|,
                       totalBytes := st.totalBytes + |data|))
  {
    Logged(st.io.log, Sent(data));
    DueOneMore(st.io.log, Sent(data), st.flushThreshold);
  }

  lemma SameLogTimely(st: Inserter, io: Io)
    requires Timely(st) && io.log == st.io.log
    ensures Timely(st.(io := io))
  {
  }

  /** Send, count, and flush if due: what draining does with its bytes. */
  function SendCounted(st: Inserter, data: Bytes, ipc: Option<IpcWriter>): Result
  {
    var io := st.io.Try(Sent(data));
    if !st.io.Next() then Result(Failed, st.(io := io))
    else
      MaybeFlush(st.(io := io, ipc := ipc, bufferedBytes := st.bufferedBytes + |data|,
                     totalBytes := st.totalBytes + |data|))
  }

  lemma SendCountedTimely(st: Inserter, data: Bytes, ipc: Option<IpcWriter>, r: Result)
    requires Timely(st) && st.open && r == SendCounted(st, data, ipc)
    ensures Timely(r.state) && (r.outcome.Accepted? ==> NotOverdue(r.state))
  {
    var io := st.io.Try(Sent(data));
    if st.io.Next() {
      CountedTimely(st, data, ipc, io);
      FlushTimely(st.(io := io, ipc := ipc, bufferedBytes := st.bufferedBytes + |data|,
                      totalBytes := st.totalBytes + |data|));
    } else {
      SameLogTimely(st, io);
    }
  }

  lemma DrainIsSendCounted(fb: Flatbuffers, st: Inserter)
    requires st.open && st.ipc.Some? && st.ipc.value.buf != []
    ensures DrainIpcBuffer(fb, st) ==
            SendCounted(st, EncodeAll(fb, st.ipc.value.buf), Some(IpcWriter([], st.ipc.value.written)))
  {
  }

  lemma DrainTimely(fb: Flatbuffers, st: Inserter)
    requires Timely(st) && st.ipc.Some?
    ensures var r := DrainIpcBuffer(fb, st);
            && Timely(r.state)
            && (r.outcome.Accepted? && st.ipc.value.buf != [] ==> NotOverdue(r.state))
  {
    if st.ipc.value.buf != [] {
      DrainIsSendCounted(fb, st);
      SendCountedTimely(st, EncodeAll(fb, st.ipc.value.buf), Some(IpcWriter([], st.ipc.value.written)),
                        DrainIpcBuffer(fb, st));
    }
  }

  lemma InsertBatchTimely(fb: Flatbuffers, st: Inserter, s: Schema, b: Batch)
    requires Timely(st)
    ensures var r := InsertBatch(fb, st, s, b);
            Timely(r.state) && (r.outcome.Accepted? ==> NotOverdue(r.state))
  {
    EnsureWriterTimely(st);
    var begun := EnsureWriter(st);
    if begun.outcome.Accepted? {
      EnsureIpcWriterTimely(fb, begun.state.(mode := Some(BatchIpc)), s);
      var ready := EnsureIpcWriter(fb, begun.state.(mode := Some(BatchIpc)), s);
      if ready.outcome.Accepted? { WriteBatchTimely(fb, ready.state, b); }
    }
  }

  lemma EnsureIpcWriterTimely(fb: Flatbuffers, st: Inserter, s: Schema)
    requires Timely(st) && st.open
    ensures Timely(EnsureIpcWriter(fb, st, s).state)
  {
    EnsureIpcWriterSound(fb, st, s);
    if st.ipc.None? && st.io.Next() {
      DrainTimely(fb, st.(ipc := Some(Append(IpcWriter([], []), SchemaMsg(s))), io := st.io.TryLocal()));
    }
  }

  lemma WriteBatchTimely(fb: Flatbuffers, st: Inserter, b: Batch)
    requires Timely(st) && st.ipc.Some?
    ensures var r := WriteBatch(fb, st, b);
            Timely(r.state) && (r.outcome.Accepted? ==> NotOverdue(r.state))
  {
    WriteBatchSound(fb, st, b);
    if st.io.Next() {
      DrainTimely(fb, st.(io := st.io.TryLocal(), ipc := Some(Append(st.ipc.value, BatchMsg(b)))));
    }
  }

  /** Whether the call has something to send. */
  predicate HasPayload(call: Call) {
    call.OneBatch? || call.data != []
  }

  lemma OpeningTimely(st: Inserter, data: Bytes, mark: bool)
    requires Timely(st)
    ensures Timely(EnsureWriter(st).state)
    ensures var begun := EnsureWriter(st);
            begun.outcome.Accepted? ==>
              var r := SendPayload(begun.state, data, mark);
              Timely(r.state) && r.state.open && (r.outcome.Accepted? ==> NotOverdue(r.state))
  {
    EnsureWriterTimely(st);
    if EnsureWriter(st).outcome.Accepted? { SendPayloadTimely(EnsureWriter(st).state, data, mark); }
  }

  lemma InsertDataTimely(form: Form, st: Inserter, data: Bytes)
    requires Timely(st)
    ensures var r := InsertData(form, st, data);
            Timely(r.state) && (r.outcome.Accepted? && data != [] ==> NotOverdue(r.state))
  {
    OpeningTimely(st, data, form.Owned?);
  }

  lemma InsertRawTimely(form: Form, st: Inserter, data: Bytes)
    requires Timely(st)
    ensures var r := InsertRaw(form, st, data);
            Timely(r.state) && (r.outcome.Accepted? && data != [] ==> NotOverdue(r.state))
  {
    OpeningTimely(st, data, form.Owned?);
  }

  lemma InsertRecordBatchesTimely(form: Form, st: Inserter, data: Bytes)
    requires Timely(st)
    ensures var r := InsertRecordBatches(form, st, data);
            Timely(r.state) && (r.outcome.Accepted? && data != [] ==> NotOverdue(r.state))
  {
    if st.schemaSent { SendPayloadTimely(st, data, false); }
  }

  /** An accepted call with something to send leaves less than the threshold unflushed. */
  lemma ApplyTimely(fb: Flatbuffers, form: Form, st: Inserter, call: Call)
    requires Timely(st)
    ensures var r := Apply(fb, form, st, call);
            Timely(r.state) && (r.outcome.Accepted? && HasPayload(call) ==> NotOverdue(r.state))
  {
    match call
    case Data(data) => InsertDataTimely(form, st, data);
    case RecordBatches(data) => InsertRecordBatchesTimely(form, st, data);
    case Raw(data) => InsertRawTimely(form, st, data);
    case OneBatch(s, b) => InsertBatchTimely(fb, st, s, b);
  }

  /** Over every run, whatever fails, the connection is flushed only when that is due. */
  lemma FlushesOnlyWhenDue(fb: Flatbuffers, form: Form, threshold: nat, script: seq<bool>, calls: seq<Call>)
    ensures var st := RunCalls(fb, form, New(threshold, script), calls).state;
            FlushesAreDue(st.io.log, st.flushThreshold)
  {
    var inv := (x: Inserter) => Timely(x);
    forall x, call | inv(x) ensures inv(Caller(fb, form)(x, call).state) {
      ApplyTimely(fb, form, x, call);
    }
    FoldKeeps(Caller(fb, form), inv, New(threshold, script), calls);
  }

  // ---------------------------------------------------------------------------
  // The two ways of inserting exclude each other
  // ---------------------------------------------------------------------------

  lemma ModeStays(fb: Flatbuffers, st: Inserter, call: Call)
    ensures st.mode.Some? ==> Apply(fb, Sync, st, call).state.mode == st.mode
    ensures Apply(fb, Sync, st, call).state.mode == Some(RawIpc) <==>
            st.mode == Some(RawIpc) ||
            (call.Data? && call.data != [] && Apply(fb, Sync, st, call).outcome.Accepted?)
  {
    assert st.mode.Some? ==> st.mode.value.RawIpc? || st.mode.value.BatchIpc?;
    match call
    case Data(data) => PayloadKeepsMode(EnsureWriter(st).state, data, false);
    case RecordBatches(data) => PayloadKeepsMode(st, data, false);
    case Raw(data) => PayloadKeepsMode(EnsureWriter(st).state, data, false);
    case OneBatch(s, b) =>
      BatchSetsMode(fb, st, s, b);
  }

  lemma PayloadKeepsMode(st: Inserter, data: Bytes, mark: bool)
    ensures SendPayload(st, data, mark).state.mode == st.mode
  {
  }

  lemma DrainKeepsMode(fb: Flatbuffers, st: Inserter)
    requires st.ipc.Some?
    ensures DrainIpcBuffer(fb, st).state.mode == st.mode
    ensures DrainIpcBuffer(fb, st).state.schemaSent == st.schemaSent
    ensures !DrainIpcBuffer(fb, st).outcome.Rejected?
  {
  }

  lemma EnsureIpcKeepsMode(fb: Flatbuffers, st: Inserter, s: Schema)
    ensures var r := EnsureIpcWriter(fb, st, s);
            && r.state.mode == st.mode && !r.outcome.Rejected?
            && (r.outcome.Accepted? && st.ipc.None? ==> r.state.schemaSent)
  {
    if st.ipc.None? {
      DrainKeepsMode(fb, st.(ipc := Some(Append(IpcWriter([], []), SchemaMsg(s))), io := st.io.TryLocal()));
    }
  }

  lemma WriteKeepsMode(fb: Flatbuffers, st: Inserter, b: Batch)
    requires st.ipc.Some?
    ensures var r := WriteBatch(fb, st, b);
            r.state.mode == st.mode && r.state.schemaSent == st.schemaSent && !r.outcome.Rejected?
  {
    DrainKeepsMode(fb, st.(io := st.io.TryLocal(), ipc := Some(Append(st.ipc.value, BatchMsg(b)))));
  }

  lemma BatchSetsMode(fb: Flatbuffers, st: Inserter, s: Schema, b: Batch)
    ensures var r := InsertBatch(fb, st, s, b);
            && r.state.mode == (if st.mode == Some(RawIpc) || EnsureWriter(st).outcome.Failed? then st.mode
                                else Some(BatchIpc))
            && (r.outcome.Rejected? <==> st.mode == Some(RawIpc))
            && (r.outcome.Accepted? && st.ipc.None? ==> r.state.schemaSent)
  {
    var ready := EnsureWriter(st).state.(mode := Some(BatchIpc));
    EnsureIpcKeepsMode(fb, ready, s);
    var made := EnsureIpcWriter(fb, ready, s).state;
    if made.ipc.Some? { WriteKeepsMode(fb, made, b); }
  }

  ghost predicate AcceptedData(calls: seq<Call>, outcomes: seq<Outcome>) {
    exists i :: 0 <= i < |calls| && i < |outcomes| && calls[i].Data? && calls[i].data != [] && outcomes[i].Accepted?
  }

  lemma {:induction false} RawModeIff(fb: Flatbuffers, st: Inserter, calls: seq<Call>)
    ensures RunCalls(fb, Sync, st, calls).state.mode == Some(RawIpc) <==>
            st.mode == Some(RawIpc) || AcceptedData(calls, RunCalls(fb, Sync, st, calls).outcomes)
    decreases |calls|
  {
    if calls != [] {
      var first := Apply(fb, Sync, st, calls[0]);
      var rest := RunCalls(fb, Sync, first.state, calls[1..]);
      ModeStays(fb, st, calls[0]);
      RawModeIff(fb, first.state, calls[1..]);
      AcceptedDataFirst(calls, first.outcome, rest.outcomes);
    }
  }

  lemma AcceptedDataFirst(calls: seq<Call>, first: Outcome, rest: seq<Outcome>)
    requires calls != []
    ensures AcceptedData(calls, [first] + rest) <==>
            (calls[0].Data? && calls[0].data != [] && first.Accepted?) || AcceptedData(calls[1..], rest)
  {
    var all := [first] + rest;
    if AcceptedData(calls, all) {
      var i :| 0 <= i < |calls| && i < |all| && calls[i].Data? && calls[i].data != [] && all[i].Accepted?;
      if i > 0 { assert calls[1..][i - 1] == calls[i] && rest[i - 1] == all[i]; }
    }
    if AcceptedData(calls[1..], rest) {
      var i :| 0 <= i < |calls[1..]| && i < |rest| && calls[1..][i].Data? && calls[1..][i].data != [] && rest[i].Accepted?;
      assert calls[i + 1] == calls[1..][i] && all[i + 1] == rest[i];
    }
    if calls[0].Data? && calls[0].data != [] && first.Accepted? { assert all[0] == first; }
  }

  /**
    After any run of the sync form, `insert_batch` is rejected if and only if a non-empty
    `insert_data` was accepted before. An `insert_raw` does not count.
   */
  lemma BatchRejectedIff(fb: Flatbuffers, threshold: nat, script: seq<bool>, calls: seq<Call>, s: Schema, b: Batch)
    ensures var run := RunCalls(fb, Sync, New(threshold, script), calls);
            InsertBatch(fb, run.state, s, b).outcome.Rejected? <==> AcceptedData(calls, run.outcomes)
  {
    RawModeIff(fb, New(threshold, script), calls);
    BatchSetsMode(fb, RunCalls(fb, Sync, New(threshold, script), calls).state, s, b);
  }

  /** Once an `insert_batch` has been accepted, every later payload call is rejected. */
  lemma BatchExcludesPayloads(fb: Flatbuffers, st: Inserter, s: Schema, b: Batch, calls: seq<Call>, data: Bytes)
    requires InsertBatch(fb, st, s, b).outcome.Accepted? && data != []
    ensures var later := RunCalls(fb, Sync, InsertBatch(fb, st, s, b).state, calls).state;
            && InsertData(Sync, later, data) == Result(Rejected, later)
            && InsertRecordBatches(Sync, later, data) == Result(Rejected, later)
            && InsertRaw(Sync, later, data) == Result(Rejected, later)
  {
    BatchSetsMode(fb, st, s, b);
    var inv := (x: Inserter) => x.mode == Some(BatchIpc);
    forall x, call | inv(x) ensures inv(Caller(fb, Sync)(x, call).state) {
      ModeStays(fb, x, call);
    }
    FoldKeeps(Caller(fb, Sync), inv, InsertBatch(fb, st, s, b).state, calls);
  }
}
