/**
  What `insert_batch` puts on the wire, and that it reads back.

  The drained IPC writer refines one that is never drained: at every moment the bytes on the
  wire followed by the bytes still buffered are the stream of all messages written so far. This
  holds through failed opens, sends and flushes, so a batch whose send failed is not lost: it
  leaves with the next successful drain.
 */
module InserterWire {
  import opened Common
  import opened ArrowIpc
  import opened ArrowFraming
  import opened InserterSpec
  import opened InserterRuns
  import opened RowsetSpec
  import opened LazyAgreement
  import opened LazyTheorems

  function BatchMsgs(batches: seq<Batch>): (msgs: Buffer)
    ensures |msgs| == |batches|
  {
    if batches == [] then [] else [BatchMsg(batches[0])] + BatchMsgs(batches[1..])
  }

  /** The messages of an undrained writer that was given these batches. */
  function StreamOf(s: Schema, batches: seq<Batch>): Buffer {
    [SchemaMsg(s)] + BatchMsgs(batches)
  }

  // ---------------------------------------------------------------------------
  // Wire plus buffer is the stream so far
  // ---------------------------------------------------------------------------

  ghost predicate Refines(fb: Flatbuffers, st: Inserter)
    requires st.ipc.Some?
  {
    && SentBytes(st.io.log) + EncodeAll(fb, st.ipc.value.buf) == EncodeAll(fb, st.ipc.value.written)
    && st.totalBytes == |SentBytes(st.io.log)|
  }

  /** An inserter used through `insert_batch` only, whose writer was given `taken`. */
  ghost predicate Writing(fb: Flatbuffers, s: Schema, st: Inserter, taken: seq<Batch>)
  {
    && Sound(st)
    && st.mode != Some(RawIpc)
    && (if st.ipc.None? then
          taken == [] && SentBytes(st.io.log) == [] && st.totalBytes == 0
        else
          Refines(fb, st) && st.ipc.value.written == StreamOf(s, taken))
  }

  lemma {:induction false} FlattenAppend<T>(a: seq<seq<T>>, b: seq<seq<T>>)
    ensures Flatten(a + b) == Flatten(a) + Flatten(b)
  {
    if a == [] {
      assert a + b == b;
    } else {
      assert (a + b)[1..] == a[1..] + b;
      FlattenAppend(a[1..], b);
    }
  }

  lemma FramesAppend(fb: Flatbuffers, a: Buffer, b: Buffer)
    ensures Frames(fb, a + b) == Frames(fb, a) + Frames(fb, b)
  {
    var all, parts := Frames(fb, a + b), Frames(fb, a) + Frames(fb, b);
    forall i | 0 <= i < |all| ensures all[i] == parts[i] {}
  }

  lemma EncodeAppend(fb: Flatbuffers, a: Buffer, b: Buffer)
    ensures EncodeAll(fb, a + b) == EncodeAll(fb, a) + EncodeAll(fb, b)
  {
    FramesAppend(fb, a, b);
    FlattenAppend(Frames(fb, a), Frames(fb, b));
  }

  /** Adding the same message to the buffer and to the history keeps wire plus buffer in step. */
  lemma SameMessageKept(fb: Flatbuffers, wire: Bytes, buf: Buffer, written: Buffer, m: Message)
    requires wire + EncodeAll(fb, buf) == EncodeAll(fb, written)
    ensures wire + EncodeAll(fb, buf + [m]) == EncodeAll(fb, written + [m])
  {
    EncodeAppend(fb, buf, [m]);
    EncodeAppend(fb, written, [m]);
    var rest, tail := EncodeAll(fb, buf), EncodeAll(fb, [m]);
    assert wire + (rest + tail) == (wire + rest) + tail;
  }

  lemma AppendRefines(fb: Flatbuffers, st: Inserter, m: Message, io: Io)
    requires st.ipc.Some? && Refines(fb, st) && io.log == st.io.log
    ensures Refines(fb, st.(ipc := Some(Append(st.ipc.value, m)), io := io))
  {
    SameMessageKept(fb, SentBytes(st.io.log), st.ipc.value.buf, st.ipc.value.written, m);
  }

  lemma EncodeNothing(fb: Flatbuffers)
    ensures EncodeAll(fb, []) == []
  {
  }

  lemma DrainRefines(fb: Flatbuffers, st: Inserter)
    requires st.ipc.Some? && Refines(fb, st) && Sound(st)
    ensures var r := DrainIpcBuffer(fb, st);
            && Sound(r.state) && r.state.ipc.Some? && Refines(fb, r.state)
            && r.state.ipc.value.written == st.ipc.value.written && r.state.mode == st.mode
            && (r.outcome.Accepted? ==> r.state.ipc.value.buf == [])
  {
    EncodeNothing(fb);
    DrainSound(fb, st);
    if st.ipc.value.buf != [] {
      DrainSends(fb, st, EncodeAll(fb, st.ipc.value.buf));
    }
  }

  lemma DrainSends(fb: Flatbuffers, st: Inserter, data: Bytes)
    requires st.ipc.Some? && Refines(fb, st) && Sound(st)
    requires st.ipc.value.buf != [] && data == EncodeAll(fb, st.ipc.value.buf)
    requires EncodeAll(fb, []) == []
    ensures var r := DrainIpcBuffer(fb, st);
            && r.state.ipc.Some? && Refines(fb, r.state)
            && r.state.ipc.value.written == st.ipc.value.written && r.state.mode == st.mode
            && (r.outcome.Accepted? ==> r.state.ipc.value.buf == [])
  {
    SendSound(st, data);
    var sent := SendDirect(st, data);
    if sent.outcome.Accepted? {
      var drained := sent.state.(ipc := Some(IpcWriter([], st.ipc.value.written)),
                                 bufferedBytes := sent.state.bufferedBytes + |data|,
                                 totalBytes := sent.state.totalBytes + |data|);
      assert Refines(fb, drained) by {
        var wire := SentBytes(drained.io.log);
        assert wire + [] == wire;
      }
      assert Sound(drained);
      FlushSound(drained);
    }
  }

  // ---------------------------------------------------------------------------
  // One call
  // ---------------------------------------------------------------------------

  /** Whether a call got as far as serializing its batch, whatever it returned. */
  function Takes(fb: Flatbuffers, st: Inserter, s: Schema, b: Batch): bool
  {
    var r := InsertBatch(fb, st, s, b).state;
    r.ipc.Some? && |r.ipc.value.written| == (if st.ipc.Some? then |st.ipc.value.written| + 1 else 2)
  }

  lemma WriterWriting(fb: Flatbuffers, s: Schema, st: Inserter, taken: seq<Batch>)
    requires Writing(fb, s, st, taken)
    ensures Writing(fb, s, EnsureWriter(st).state, taken)
    ensures EnsureWriter(st).state.ipc == st.ipc && EnsureWriter(st).state.mode == st.mode
    ensures EnsureWriter(st).outcome.Accepted? ==> EnsureWriter(st).state.open
  {
    EnsureWriterSound(st);
  }

  lemma SchemaWriting(fb: Flatbuffers, s: Schema, st: Inserter, taken: seq<Batch>)
    requires Writing(fb, s, st, taken) && st.open
    ensures var r := EnsureIpcWriter(fb, st, s);
            && Writing(fb, s, r.state, taken)
            && (st.ipc.Some? ==> r.state.ipc == st.ipc)
            && (st.ipc.None? && r.state.ipc.Some? ==> r.state.ipc.value.written == [SchemaMsg(s)])
  {
    if st.ipc.None? && st.io.Next() {
      var empty := st.(ipc := Some(IpcWriter([], [])));
      EncodeNothing(fb);
      AppendRefines(fb, empty, SchemaMsg(s), st.io.TryLocal());
      assert [] + [SchemaMsg(s)] == [SchemaMsg(s)] == StreamOf(s, []);
      DrainRefines(fb, st.(ipc := Some(Append(IpcWriter([], []), SchemaMsg(s))), io := st.io.TryLocal()));
    }
  }

  lemma {:induction false} StreamAppend(s: Schema, batches: seq<Batch>, b: Batch)
    ensures StreamOf(s, batches + [b]) == StreamOf(s, batches) + [BatchMsg(b)]
  {
    BatchMsgsAppend(batches, b);
  }

  lemma {:induction false} BatchMsgsAppend(batches: seq<Batch>, b: Batch)
    ensures BatchMsgs(batches + [b]) == BatchMsgs(batches) + [BatchMsg(b)]
  {
    if batches == [] {
      assert [b][1..] == [] && batches + [b] == [b];
    } else {
      assert (batches + [b])[1..] == batches[1..] + [b];
      BatchMsgsAppend(batches[1..], b);
    }
  }

  lemma BatchWriting(fb: Flatbuffers, s: Schema, st: Inserter, taken: seq<Batch>, b: Batch)
    requires Writing(fb, s, st, taken) && st.ipc.Some?
    ensures var r := WriteBatch(fb, st, b);
            && r.state.ipc.Some?
            && (if st.io.Next() then
                  Writing(fb, s, r.state, taken + [b])
                  && |r.state.ipc.value.written| == |st.ipc.value.written| + 1
                else
                  Writing(fb, s, r.state, taken) && r.state.ipc == st.ipc && !r.outcome.Accepted?)
            && (r.outcome.Accepted? ==> r.state.ipc.value.buf == [])
  {
    if st.io.Next() {
      AppendRefines(fb, st, BatchMsg(b), st.io.TryLocal());
      StreamAppend(s, taken, b);
      DrainRefines(fb, st.(io := st.io.TryLocal(), ipc := Some(Append(st.ipc.value, BatchMsg(b)))));
    }
  }

  /** One call of `insert_batch` extends the stream by its batch, or by nothing. */
  lemma InsertBatchWriting(fb: Flatbuffers, s: Schema, st: Inserter, taken: seq<Batch>, b: Batch)
    requires Writing(fb, s, st, taken)
    ensures var r := InsertBatch(fb, st, s, b);
            && Writing(fb, s, r.state, taken + (if Takes(fb, st, s, b) then [b] else []))
            && (r.outcome.Accepted? ==> Takes(fb, st, s, b) && r.state.ipc.Some? && r.state.ipc.value.buf == [])
  {
    assert taken + [] == taken;
    WriterWriting(fb, s, st, taken);
    if EnsureWriter(st).outcome.Accepted? {
      var ready := EnsureWriter(st).state.(mode := Some(BatchIpc));
      assert Writing(fb, s, ready, taken);
      SchemaWriting(fb, s, ready, taken);
      var made := EnsureIpcWriter(fb, ready, s);
      if made.outcome.Accepted? {
        BatchWriting(fb, s, made.state, taken, b);
      }
    }
  }

  // ---------------------------------------------------------------------------
  // Runs
  // ---------------------------------------------------------------------------

  /** Calls of `insert_batch` one after the other, going on after failures. */
  datatype Trace = Trace(state: Inserter, taken: seq<Batch>)

  function FoldBatches(step: (Inserter, Batch) -> Result, takes: (Inserter, Batch) -> bool,
                       st: Inserter, batches: seq<Batch>): Trace
    decreases |batches|
  {
    if batches == [] then Trace(st, [])
    else
      var rest := FoldBatches(step, takes, step(st, batches[0]).state, batches[1..]);
      Trace(rest.state, (if takes(st, batches[0]) then [batches[0]] else []) + rest.taken)
  }

  function Taker(fb: Flatbuffers, s: Schema): (Inserter, Batch) -> bool
  {
    (st: Inserter, b: Batch) => Takes(fb, st, s, b)
  }

  /** The state after a run, and the batches it serialized: all accepted ones among them. */
  function RunBatches(fb: Flatbuffers, st: Inserter, s: Schema, batches: seq<Batch>): Trace
  {
    FoldBatches(BatchStep(fb, s), Taker(fb, s), st, batches)
  }

  /** One call keeps the invariant, with the batch it took added to the stream. */
  ghost predicate Kept(step: (Inserter, Batch) -> Result, takes: (Inserter, Batch) -> bool,
                       inv: (Inserter, seq<Batch>) -> bool, x: Inserter, t: seq<Batch>, b: Batch)
  {
    inv(x, t) ==> inv(step(x, b).state, t + (if takes(x, b) then [b] else []))
  }

  lemma {:induction false} FoldBatchesKeeps(step: (Inserter, Batch) -> Result, takes: (Inserter, Batch) -> bool,
                                            inv: (Inserter, seq<Batch>) -> bool,
                                            st: Inserter, taken: seq<Batch>, batches: seq<Batch>)
    requires inv(st, taken)
    requires forall x, t, b :: Kept(step, takes, inv, x, t, b)
    ensures var trace := FoldBatches(step, takes, st, batches); inv(trace.state, taken + trace.taken)
    decreases |batches|
  {
    if batches == [] {
      assert taken + [] == taken;
    } else {
      var b := batches[0];
      var more := if takes(st, b) then [b] else [];
      assert Kept(step, takes, inv, st, taken, b);
      FoldBatchesKeeps(step, takes, inv, step(st, b).state, taken + more, batches[1..]);
      var later := FoldBatches(step, takes, step(st, b).state, batches[1..]).taken;
      assert (taken + more) + later == taken + (more + later);
    }
  }

  /**
    Over any run of `insert_batch` calls with one schema and any failures: wire plus buffer is
    the encoded stream of the batches taken, `total_bytes` is the wire length, and
    `buffered_bytes` is what was sent since the last flush.
   */
  lemma RunWriting(fb: Flatbuffers, s: Schema, st: Inserter, taken: seq<Batch>, batches: seq<Batch>)
    requires Writing(fb, s, st, taken)
    ensures var trace := RunBatches(fb, st, s, batches); Writing(fb, s, trace.state, taken + trace.taken)
  {
    var inv := (x: Inserter, t: seq<Batch>) => Writing(fb, s, x, t);
    forall x, t, b ensures Kept(BatchStep(fb, s), Taker(fb, s), inv, x, t, b) {
      if inv(x, t) { InsertBatchWriting(fb, s, x, t, b); }
    }
    FoldBatchesKeeps(BatchStep(fb, s), Taker(fb, s), inv, st, taken, batches);
  }

  /** `execute` adds what is still buffered and the end-of-stream marker, and nothing else. */
  lemma ExecuteAddsTail(fb: Flatbuffers, st: Inserter)
    requires st.ipc.Some? && st.open
    requires Execute(fb, Sync, st).ok
    ensures SentBytes(Execute(fb, Sync, st).io.log) ==
            SentBytes(st.io.log) + EncodeAll(fb, st.ipc.value.buf + [Eos])
  {
    SendThenFinish(st.(io := st.io.TryLocal(), ipc := None), EncodeAll(fb, st.ipc.value.buf + [Eos]));
  }

  lemma SendThenFinish(st: Inserter, data: Bytes)
    requires st.open
    ensures var sent := SendDirect(st, data);
            sent.outcome.Accepted? ==>
              SentBytes(Finish(Sync, sent.state).io.log) == SentBytes(st.io.log) + data
  {
    Logged(st.io.log, Sent(data));
    Logged(st.io.log + [Sent(data)], Completed);
  }

  /** After a successful `execute` the wire is the finished stream of the batches taken. */
  lemma ExecuteFinishesStream(fb: Flatbuffers, s: Schema, st: Inserter, taken: seq<Batch>)
    requires Writing(fb, s, st, taken) && st.ipc.Some?
    requires Execute(fb, Sync, st).ok
    ensures SentBytes(Execute(fb, Sync, st).io.log) == EncodeAll(fb, StreamOf(s, taken) + [Eos])
  {
    ExecuteAddsTail(fb, st);
    SameMessageKept(fb, SentBytes(st.io.log), st.ipc.value.buf, StreamOf(s, taken), Eos);
  }

  // ---------------------------------------------------------------------------
  // Round trip through the reader
  // ---------------------------------------------------------------------------

  /** The batches a reader gets back. */
  function AsDecoded(s: Schema, batches: seq<Batch>): seq<Decoded>
  {
    if batches == [] then [] else [Decoded(s, batches[0])] + AsDecoded(s, batches[1..])
  }

  lemma {:induction false} TailIsStream(s: Schema, batches: seq<Batch>)
    ensures var msgs := BatchMsgs(batches) + [Eos];
            Accepts(Strict, true, msgs) && OneSchema(s, true, msgs) && Under(s, msgs) == AsDecoded(s, batches)
  {
    var msgs := BatchMsgs(batches) + [Eos];
    if batches == [] {
      assert msgs == [Eos] && msgs[1..] == [];
    } else {
      TailIsStream(s, batches[1..]);
      assert msgs[1..] == BatchMsgs(batches[1..]) + [Eos];
    }
  }

  lemma FinishedStream(s: Schema, batches: seq<Batch>)
    requires batches != []
    ensures var msgs := StreamOf(s, batches) + [Eos];
            msgs != [] && Streams(msgs) && OneSchema(s, false, msgs) && Under(s, msgs) == AsDecoded(s, batches)
  {
    var tail := BatchMsgs(batches) + [Eos];
    assert tail[1..] == BatchMsgs(batches[1..]) + [Eos];
    TailIsStream(s, batches);
    TailIsStream(s, batches[1..]);
    assert StreamOf(s, batches) + [Eos] == [SchemaMsg(s)] + tail;
    SchemaBeforeTail(s, tail);
  }

  /** A schema in front of a stream's batches opens it. */
  lemma SchemaBeforeTail(s: Schema, tail: Buffer)
    requires tail != [] && tail[0].BatchMsg? && Accepts(Strict, true, tail[1..]) && OneSchema(s, true, tail)
    ensures var msgs := [SchemaMsg(s)] + tail;
            Streams(msgs) && OneSchema(s, false, msgs) && Under(s, msgs) == Under(s, tail)
  {
    var msgs := [SchemaMsg(s)] + tail;
    assert msgs[1..] == tail && msgs[2..] == tail[1..];
  }
  /** A finished stream with at least one batch reads back as its schema and batches. */
  lemma StreamReadsBack(fb: Flatbuffers, lag: bool, s: Schema, batches: seq<Batch>)
    requires fb.ReadsAll(StreamOf(s, batches) + [Eos]) && batches != []
    ensures FromBytes(fb, lag, EncodeAll(fb, StreamOf(s, batches) + [Eos])) ==
            Built(Buffered(AsDecoded(s, batches), 0), s)
  {
    var msgs := StreamOf(s, batches) + [Eos];
    FinishedStream(s, batches);
    BufferedStreams(lag, s, msgs);
    FromBytesIsFromBuffer(fb, lag, msgs);
  }

  /**
    Round trip with failures: after any run of `insert_batch` calls, if `execute` returns `Ok`
    the wire reads back as exactly the batches taken, in order. In particular an accepted batch
    is never lost, and a batch reported as failed after serialization is delivered once.
   */
  lemma WireReadsBack(fb: Flatbuffers, lag: bool, s: Schema, batches: seq<Batch>, threshold: nat, script: seq<bool>)
    ensures var trace := RunBatches(fb, New(threshold, script), s, batches);
            var end := Execute(fb, Sync, trace.state);
            end.ok && trace.taken != [] && fb.ReadsAll(StreamOf(s, trace.taken) + [Eos]) ==>
              FromBytes(fb, lag, SentBytes(end.io.log)) == Built(Buffered(AsDecoded(s, trace.taken), 0), s)
  {
    var trace := RunBatches(fb, New(threshold, script), s, batches);
    RunWriting(fb, s, New(threshold, script), [], batches);
    assert [] + trace.taken == trace.taken;
    var readable := fb.ReadsAll(StreamOf(s, trace.taken) + [Eos]);
    if Execute(fb, Sync, trace.state).ok && trace.taken != [] && readable {
      ExecuteFinishesStream(fb, s, trace.state, trace.taken);
      StreamReadsBack(fb, lag, s, trace.taken);
    }
  }

  /** An accepted call keeps the invariant, with its batch added to the stream. */
  ghost predicate KeptIfAccepted(step: (Inserter, Batch) -> Result, inv: (Inserter, seq<Batch>) -> bool,
                                 x: Inserter, t: seq<Batch>, b: Batch)
  {
    inv(x, t) && step(x, b).outcome.Accepted? ==> inv(step(x, b).state, t + [b])
  }

  lemma {:induction false} UntilRefusedKeeps(step: (Inserter, Batch) -> Result, inv: (Inserter, seq<Batch>) -> bool,
                                             st: Inserter, taken: seq<Batch>, batches: seq<Batch>)
    requires inv(st, taken)
    requires forall x, t, b :: KeptIfAccepted(step, inv, x, t, b)
    requires UntilRefused(step, st, batches).outcome.Accepted?
    ensures inv(UntilRefused(step, st, batches).state, taken + batches)
    decreases |batches|
  {
    if batches == [] {
      assert taken + [] == taken;
    } else {
      assert KeptIfAccepted(step, inv, st, taken, batches[0]);
      UntilRefusedKeeps(step, inv, step(st, batches[0]).state, taken + [batches[0]], batches[1..]);
      assert (taken + [batches[0]]) + batches[1..] == taken + batches;
    }
  }

  /** `insert_batch` counts its batch if and only if it is accepted, whatever fails. */
  lemma InsertBatchCounts(fb: Flatbuffers, s: Schema, st: Inserter, b: Batch)
    ensures var r := InsertBatch(fb, st, s, b);
            r.state.chunkCount == st.chunkCount + (if r.outcome.Accepted? then 1 else 0)
  {
    var ready := EnsureWriter(st).state.(mode := Some(BatchIpc));
    EnsureIpcKeepsCount(fb, ready, s);
    var made := EnsureIpcWriter(fb, ready, s).state;
    if made.ipc.Some? { WriteBatchCounts(fb, made, b); }
  }

  lemma EnsureIpcKeepsCount(fb: Flatbuffers, st: Inserter, s: Schema)
    ensures EnsureIpcWriter(fb, st, s).state.chunkCount == st.chunkCount
    ensures !EnsureIpcWriter(fb, st, s).outcome.Rejected?
  {
    if st.ipc.None? {
      DrainKeepsCount(fb, st.(ipc := Some(Append(IpcWriter([], []), SchemaMsg(s))), io := st.io.TryLocal()));
    }
  }

  lemma WriteBatchCounts(fb: Flatbuffers, st: Inserter, b: Batch)
    requires st.ipc.Some?
    ensures var r := WriteBatch(fb, st, b);
            r.state.chunkCount == st.chunkCount + (if r.outcome.Accepted? then 1 else 0)
  {
    DrainKeepsCount(fb, st.(io := st.io.TryLocal(), ipc := Some(Append(st.ipc.value, BatchMsg(b)))));
  }

  lemma DrainKeepsCount(fb: Flatbuffers, st: Inserter)
    requires st.ipc.Some?
    ensures DrainIpcBuffer(fb, st).state.chunkCount == st.chunkCount
    ensures !DrainIpcBuffer(fb, st).outcome.Rejected?
  {
  }

  /** `insert_batches` stops at the first batch that is not accepted, in the state it left. */
  lemma {:induction false} StopsAtRefused(step: (Inserter, Batch) -> Result, st: Inserter, batches: seq<Batch>)
    returns (k: nat)
    requires !UntilRefused(step, st, batches).outcome.Accepted?
    ensures k < |batches| && UntilRefused(step, st, batches[..k]).outcome.Accepted?
    ensures UntilRefused(step, st, batches) == step(UntilRefused(step, st, batches[..k]).state, batches[k])
    decreases |batches|
  {
    var first := step(st, batches[0]);
    if !first.outcome.Accepted? {
      return 0;
    }
    var j := StopsAtRefused(step, first.state, batches[1..]);
    assert batches[..j + 1][1..] == batches[1..][..j] && batches[..j + 1][0] == batches[0];
    return j + 1;
  }

  /** Nothing is left in the IPC buffer once a batch has been accepted. */
  ghost predicate WritingDrained(fb: Flatbuffers, s: Schema, st: Inserter, taken: seq<Batch>)
  {
    && Writing(fb, s, st, taken) && (taken != [] ==> st.ipc.Some? && st.ipc.value.buf == [])
    && st.chunkCount == |taken|
  }

  lemma DrainedStep(fb: Flatbuffers, s: Schema, st: Inserter, taken: seq<Batch>, b: Batch)
    ensures var r := InsertBatch(fb, st, s, b);
            WritingDrained(fb, s, st, taken) && r.outcome.Accepted? ==> WritingDrained(fb, s, r.state, taken + [b])
  {
    if WritingDrained(fb, s, st, taken) {
      InsertBatchWriting(fb, s, st, taken, b);
      InsertBatchCounts(fb, s, st, b);
    }
  }

  /** If `insert_batches` returns `Ok`, every batch was taken and nothing is left buffered. */
  lemma AcceptedBatches(fb: Flatbuffers, s: Schema, batches: seq<Batch>, threshold: nat, script: seq<bool>)
    requires InsertBatches(fb, New(threshold, script), s, batches).outcome.Accepted?
    ensures WritingDrained(fb, s, InsertBatches(fb, New(threshold, script), s, batches).state, batches)
  {
    var inv := (x: Inserter, t: seq<Batch>) => WritingDrained(fb, s, x, t);
    forall x, t, b ensures KeptIfAccepted(BatchStep(fb, s), inv, x, t, b) {
      DrainedStep(fb, s, x, t, b);
    }
    UntilRefusedKeeps(BatchStep(fb, s), inv, New(threshold, script), [], batches);
    assert [] + batches == batches;
  }

  /**
    Draining refines an undrained writer: after an accepted `insert_batches` the wire is the
    encoded schema and batches, the IPC buffer is empty, and `total_bytes` and the flush
    accounting add up to the wire length.
   */
  lemma DrainedWire(fb: Flatbuffers, s: Schema, batches: seq<Batch>, threshold: nat, script: seq<bool>)
    requires batches != []
    requires InsertBatches(fb, New(threshold, script), s, batches).outcome.Accepted?
    ensures var st := InsertBatches(fb, New(threshold, script), s, batches).state;
            && SentBytes(st.io.log) == EncodeAll(fb, StreamOf(s, batches))
            && st.ipc.Some? && st.ipc.value.buf == []
            && st.totalBytes == |SentBytes(st.io.log)|
            && st.bufferedBytes == Unflushed(st.io.log)
            && st.chunkCount == |batches|
  {
    AcceptedBatches(fb, s, batches, threshold, script);
    EncodeNothing(fb);
    var wire := SentBytes(InsertBatches(fb, New(threshold, script), s, batches).state.io.log);
    assert wire + [] == wire;
  }

  /** Round trip: `insert_batches` then `execute` puts on the wire what `from_bytes` reads back. */
  lemma RoundTrip(fb: Flatbuffers, lag: bool, s: Schema, batches: seq<Batch>, threshold: nat, script: seq<bool>)
    requires batches != []
    requires InsertBatches(fb, New(threshold, script), s, batches).outcome.Accepted?
    requires Execute(fb, Sync, InsertBatches(fb, New(threshold, script), s, batches).state).ok
    requires fb.ReadsAll(StreamOf(s, batches) + [Eos])
    ensures var end := Execute(fb, Sync, InsertBatches(fb, New(threshold, script), s, batches).state);
            FromBytes(fb, lag, SentBytes(end.io.log)) == Built(Buffered(AsDecoded(s, batches), 0), s)
  {
    AcceptedBatches(fb, s, batches, threshold, script);
    ExecuteFinishesStream(fb, s, InsertBatches(fb, New(threshold, script), s, batches).state, batches);
    StreamReadsBack(fb, lag, s, batches);
  }

  // ---------------------------------------------------------------------------
  // Without failures
  // ---------------------------------------------------------------------------

  /** No failure is to come, and `insert_batch` is not excluded. */
  ghost predicate Calm(st: Inserter) {
    st.io.script == [] && st.mode != Some(RawIpc)
  }

  ghost predicate AcceptedCalmly(step: (Inserter, Batch) -> Result, x: Inserter, b: Batch) {
    Calm(x) ==> step(x, b).outcome.Accepted? && Calm(step(x, b).state)
  }

  lemma {:induction false} CalmRun(step: (Inserter, Batch) -> Result, st: Inserter, batches: seq<Batch>)
    requires Calm(st)
    requires forall x, b :: AcceptedCalmly(step, x, b)
    ensures UntilRefused(step, st, batches).outcome.Accepted? && Calm(UntilRefused(step, st, batches).state)
    decreases |batches|
  {
    if batches != [] {
      assert AcceptedCalmly(step, st, batches[0]);
      CalmRun(step, step(st, batches[0]).state, batches[1..]);
    }
  }

  lemma DrainCalm(fb: Flatbuffers, st: Inserter)
    requires Calm(st) && st.ipc.Some?
    ensures var r := DrainIpcBuffer(fb, st);
            r.outcome.Accepted? && r.state.ipc.Some? && Calm(r.state)
  {
  }

  lemma InsertBatchCalm(fb: Flatbuffers, st: Inserter, s: Schema, b: Batch)
    requires Calm(st)
    ensures InsertBatch(fb, st, s, b).outcome.Accepted? && Calm(InsertBatch(fb, st, s, b).state)
  {
    var begun := EnsureWriter(st).state.(mode := Some(BatchIpc));
    if st.ipc.None? {
      DrainCalm(fb, begun.(ipc := Some(Append(IpcWriter([], []), SchemaMsg(s))), io := begun.io.TryLocal()));
    }
    var ready := EnsureIpcWriter(fb, begun, s).state;
    DrainCalm(fb, ready.(io := ready.io.TryLocal(), ipc := Some(Append(ready.ipc.value, BatchMsg(b)))));
  }

  /** Without failures nothing is rejected, so the round trip is unconditional. */
  lemma CalmRoundTrip(fb: Flatbuffers, lag: bool, s: Schema, batches: seq<Batch>, threshold: nat)
    requires batches != [] && fb.ReadsAll(StreamOf(s, batches) + [Eos])
    ensures InsertBatches(fb, New(threshold, []), s, batches).outcome.Accepted?
    ensures var end := Execute(fb, Sync, InsertBatches(fb, New(threshold, []), s, batches).state);
            end.ok && FromBytes(fb, lag, SentBytes(end.io.log)) == Built(Buffered(AsDecoded(s, batches), 0), s)
  {
    forall x, b ensures AcceptedCalmly(BatchStep(fb, s), x, b) {
      if Calm(x) { InsertBatchCalm(fb, x, s, b); }
    }
    CalmRun(BatchStep(fb, s), New(threshold, []), batches);
    AcceptedBatches(fb, s, batches, threshold, []);
    var st := InsertBatches(fb, New(threshold, []), s, batches).state;
    assert Calm(st) && st.open;
    CalmExecute(fb, st);
    RoundTrip(fb, lag, s, batches, threshold, []);
  }

  /** The round trip is about something: any batches below 2^32 make it with some flatbuffer code. */
  lemma SomeRoundTrip(lag: bool, s: Schema, batches: seq<Batch>, threshold: nat)
    requires 0 < |batches| < 0xFFFF_FFFE
    ensures var fb := Numbering(StreamOf(s, batches) + [Eos]);
            var end := Execute(fb, Sync, InsertBatches(fb, New(threshold, []), s, batches).state);
            end.ok && FromBytes(fb, lag, SentBytes(end.io.log)) == Built(Buffered(AsDecoded(s, batches), 0), s)
  {
    var msgs := StreamOf(s, batches) + [Eos];
    SomeFlatbuffersRead(msgs);
    CalmRoundTrip(Numbering(msgs), lag, s, batches, threshold);
  }

  lemma CalmExecute(fb: Flatbuffers, st: Inserter)
    requires Calm(st) && st.open
    ensures Execute(fb, Sync, st).ok
  {
  }
}
