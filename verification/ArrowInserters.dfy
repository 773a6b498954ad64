/**
  The code of the three Arrow inserters, proved against `InserterSpec`.

  Each method's contract gives its whole new state as a function of the old one. Logging and
  timing are left out.
 */
module ArrowInserters {
  import opened Common
  import opened ArrowIpc
  import opened ArrowFraming
  import opened InserterSpec

  /** The TCP connection the inserter borrows: the operations to come and what has happened. */
  class Connection {
    var io: Io

    constructor (script: seq<bool>)
      ensures io == Io(script, [])
    {
      io := Io(script, []);
    }

    method Perform(e: Event) returns (ok: bool)
      modifies this
      ensures ok == old(io).Next() && io == old(io).Try(e)
    {
      ok := io.Next();
      io := io.Try(e);
    }

    method PerformLocal() returns (ok: bool)
      modifies this
      ensures ok == old(io).Next() && io == old(io).TryLocal()
    {
      ok := io.Next();
      io := io.TryLocal();
    }

    method End(e: Event) returns (ok: bool)
      modifies this
      ensures ok == old(io).Next() && io == old(io).End(e)
    {
      ok := io.Next();
      io := io.End(e);
    }
  }

  /** `ArrowInserter`. */
  class ArrowInserter {
    const connection: Connection
    const fb: Flatbuffers
    const flushThreshold: nat
    var writer: bool
    var schemaSent: bool
    var totalBytes: nat
    var chunkCount: nat
    var bufferedBytes: nat
    var batchIpcWriter: Option<IpcWriter>
    var insertMode: Option<InsertMode>

    function State(): Inserter
      reads this, connection
    {
      Inserter(writer, schemaSent, insertMode, batchIpcWriter, totalBytes, bufferedBytes, chunkCount,
               flushThreshold, connection.io)
    }

    constructor (connection: Connection, fb: Flatbuffers, flushThreshold: nat)
      requires connection.io.log == []
      ensures this.connection == connection && this.fb == fb
      ensures State() == New(flushThreshold, connection.io.script)
    {
      this.connection, this.fb, this.flushThreshold := connection, fb, flushThreshold;
      writer, schemaSent, totalBytes, chunkCount := false, false, 0, 0;
      bufferedBytes, batchIpcWriter, insertMode := 0, None, None;
    }

    method EnsureWriter() returns (ok: bool)
      modifies this`writer, connection
      ensures InserterSpec.EnsureWriter(old(State())) == Result(if ok then Accepted else Failed, State())
    {
      if writer { return true; }
      ok := connection.Perform(Opened);
      if ok { writer := true; }
    }

    method SendDirect(data: Bytes) returns (ok: bool)
      modifies connection
      ensures InserterSpec.SendDirect(old(State()), data) == Result(if ok then Accepted else Failed, State())
    {
      if !writer { return true; }
      ok := connection.Perform(Sent(data));
    }

    method MaybeFlush() returns (ok: bool)
      modifies this`bufferedBytes, connection
      ensures InserterSpec.MaybeFlush(old(State())) == Result(if ok then Accepted else Failed, State())
    {
      if bufferedBytes >= flushThreshold {
        if writer {
          ok := connection.Perform(Flushed);
          if !ok { return; }
        }
        bufferedBytes := 0;
      }
      return true;
    }

    method InsertData(data: Bytes) returns (outcome: Outcome)
      modifies this, connection
      ensures InserterSpec.InsertData(Sync, old(State()), data) == Result(outcome, State())
    {
      if data == [] { return Accepted; }
      if insertMode == Some(BatchIpc) { return Rejected; }
      if schemaSent { return Rejected; }
      var ok := EnsureWriter();
      if !ok { return Failed; }
      ok := SendDirect(data);
      if !ok { return Failed; }
      bufferedBytes := bufferedBytes + |data|;
      ok := MaybeFlush();
      if !ok { return Failed; }
      insertMode := Some(RawIpc);
      schemaSent := true;
      totalBytes := totalBytes + |data|;
      chunkCount := chunkCount + 1;
      return Accepted;
    }

    method InsertRecordBatches(data: Bytes) returns (outcome: Outcome)
      modifies this, connection
      ensures InserterSpec.InsertRecordBatches(Sync, old(State()), data) == Result(outcome, State())
    {
      if data == [] { return Accepted; }
      if insertMode == Some(BatchIpc) { return Rejected; }
      if !schemaSent { return Rejected; }
      var ok := SendDirect(data);
      if !ok { return Failed; }
      bufferedBytes := bufferedBytes + |data|;
      ok := MaybeFlush();
      if !ok { return Failed; }
      totalBytes := totalBytes + |data|;
      chunkCount := chunkCount + 1;
      return Accepted;
    }

    method InsertRaw(data: Bytes) returns (outcome: Outcome)
      modifies this, connection
      ensures InserterSpec.InsertRaw(Sync, old(State()), data) == Result(outcome, State())
    {
      if data == [] { return Accepted; }
      if insertMode == Some(BatchIpc) { return Rejected; }
      var ok := EnsureWriter();
      if !ok { return Failed; }
      ok := SendDirect(data);
      if !ok { return Failed; }
      bufferedBytes := bufferedBytes + |data|;
      ok := MaybeFlush();
      if !ok { return Failed; }
      totalBytes := totalBytes + |data|;
      chunkCount := chunkCount + 1;
      return Accepted;
    }

    method DrainIpcBuffer() returns (ok: bool)
      requires batchIpcWriter.Some?
      modifies this, connection
      ensures InserterSpec.DrainIpcBuffer(fb, old(State())) == Result(if ok then Accepted else Failed, State())
      ensures batchIpcWriter.Some?
    {
      var ipc := batchIpcWriter.value;
      if ipc.buf == [] { return true; }
      var data := EncodeAll(fb, ipc.buf);
      ok := SendDirect(data);
      if !ok { return; }
      batchIpcWriter := Some(IpcWriter([], ipc.written));
      bufferedBytes := bufferedBytes + |data|;
      totalBytes := totalBytes + |data|;
      ok := MaybeFlush();
    }

    /** The part of `insert_batch` that creates the IPC writer and drains the schema. */
    method EnsureIpcWriter(schema: Schema) returns (ok: bool)
      modifies this, connection
      ensures InserterSpec.EnsureIpcWriter(fb, old(State()), schema) ==
              Result(if ok then Accepted else Failed, State())
      ensures ok ==> batchIpcWriter.Some?
    {
      if batchIpcWriter.Some? { return true; }
      ok := connection.PerformLocal();
      if !ok { return; }
      batchIpcWriter := Some(Append(IpcWriter([], []), SchemaMsg(schema)));
      ok := DrainIpcBuffer();
      if ok { schemaSent := true; }
    }

    /** The part of `insert_batch` that serializes the batch and drains it. */
    method WriteBatch(batch: Batch) returns (ok: bool)
      requires batchIpcWriter.Some?
      modifies this, connection
      ensures InserterSpec.WriteBatch(fb, old(State()), batch) ==
              Result(if ok then Accepted else Failed, State())
    {
      ok := connection.PerformLocal();
      if !ok { return; }
      batchIpcWriter := Some(Append(batchIpcWriter.value, BatchMsg(batch)));
      ok := DrainIpcBuffer();
      if ok { chunkCount := chunkCount + 1; }
    }

    method InsertBatch(schema: Schema, batch: Batch) returns (outcome: Outcome)
      modifies this, connection
      ensures InserterSpec.InsertBatch(fb, old(State()), schema, batch) == Result(outcome, State())
    {
      if insertMode == Some(RawIpc) { return Rejected; }
      var ok := EnsureWriter();
      if !ok { return Failed; }
      insertMode := Some(BatchIpc);
      ok := EnsureIpcWriter(schema);
      if !ok { return Failed; }
      ok := WriteBatch(batch);
      return if ok then Accepted else Failed;
    }

    method InsertBatches(schema: Schema, batches: seq<Batch>) returns (outcome: Outcome)
      modifies this, connection
      ensures InserterSpec.InsertBatches(fb, old(State()), schema, batches) == Result(outcome, State())
    {
      for i := 0 to |batches|
        invariant InserterSpec.InsertBatches(fb, State(), schema, batches[i..]) ==
                  InserterSpec.InsertBatches(fb, old(State()), schema, batches)
      {
        assert batches[i..][1..] == batches[i + 1..];
        outcome := InsertBatch(schema, batches[i]);
        if !outcome.Accepted? { return; }
      }
      return Accepted;
    }

    method Cancel() returns (ok: bool)
      modifies this, connection
      ensures Ended(ok, connection.io) == InserterSpec.Cancel(old(State()))
      ensures !writer
    {
      if writer {
        writer := false;
        var _ := connection.End(Cancelled);
      }
      return false;
    }

    method Drop(lockFree: bool) returns (ok: bool)
      modifies this, connection
      ensures Ended(ok, connection.io) == InserterSpec.Drop(Sync, old(State()), lockFree)
      ensures !writer
    {
      ok := Cancel();
    }

    /** `execute`, with the drop of the consumed inserter on its error paths. */
    method Execute() returns (ok: bool)
      modifies this, connection
      ensures Ended(ok, connection.io) == InserterSpec.Execute(fb, Sync, old(State()))
      ensures !writer
    {
      if batchIpcWriter.Some? {
        var buf := EncodeAll(fb, batchIpcWriter.value.buf + [Eos]);
        batchIpcWriter := None;
        ok := connection.PerformLocal();
        if ok {
          ok := SendDirect(buf);
        }
        if !ok {
          ok := Cancel();
          return;
        }
      }
      if !writer { return true; }
      writer := false;
      ok := connection.End(Completed);
    }
  }

  /** `AsyncArrowInserter`: the raw methods only, without an insert mode. */
  class AsyncArrowInserter {
    const connection: Connection
    const flushThreshold: nat
    var writer: bool
    var schemaSent: bool
    var totalBytes: nat
    var chunkCount: nat
    var bufferedBytes: nat

    function State(): Inserter
      reads this, connection
    {
      Inserter(writer, schemaSent, None, None, totalBytes, bufferedBytes, chunkCount,
               flushThreshold, connection.io)
    }

    constructor (connection: Connection, flushThreshold: nat)
      requires connection.io.log == []
      ensures this.connection == connection
      ensures State() == New(flushThreshold, connection.io.script)
    {
      this.connection, this.flushThreshold := connection, flushThreshold;
      writer, schemaSent, totalBytes, chunkCount, bufferedBytes := false, false, 0, 0, 0;
    }

    method EnsureWriter() returns (ok: bool)
      modifies this`writer, connection
      ensures InserterSpec.EnsureWriter(old(State())) == Result(if ok then Accepted else Failed, State())
    {
      if writer { return true; }
      ok := connection.Perform(Opened);
      if ok { writer := true; }
    }

    method SendDirect(data: Bytes) returns (ok: bool)
      modifies connection
      ensures InserterSpec.SendDirect(old(State()), data) == Result(if ok then Accepted else Failed, State())
    {
      if !writer { return true; }
      ok := connection.Perform(Sent(data));
    }

    method MaybeFlush() returns (ok: bool)
      modifies this`bufferedBytes, connection
      ensures InserterSpec.MaybeFlush(old(State())) == Result(if ok then Accepted else Failed, State())
    {
      if bufferedBytes >= flushThreshold {
        if writer {
          ok := connection.Perform(Flushed);
          if !ok { return; }
        }
        bufferedBytes := 0;
      }
      return true;
    }

    method InsertData(data: Bytes) returns (outcome: Outcome)
      modifies this, connection
      ensures InserterSpec.InsertData(Async, old(State()), data) == Result(outcome, State())
    {
      if data == [] { return Accepted; }
      if schemaSent { return Rejected; }
      var ok := EnsureWriter();
      if !ok { return Failed; }
      ok := SendDirect(data);
      if !ok { return Failed; }
      bufferedBytes := bufferedBytes + |data|;
      ok := MaybeFlush();
      if !ok { return Failed; }
      schemaSent := true;
      totalBytes := totalBytes + |data|;
      chunkCount := chunkCount + 1;
      return Accepted;
    }

    method InsertRecordBatches(data: Bytes) returns (outcome: Outcome)
      modifies this, connection
      ensures InserterSpec.InsertRecordBatches(Async, old(State()), data) == Result(outcome, State())
    {
      if data == [] { return Accepted; }
      if !schemaSent { return Rejected; }
      var ok := SendDirect(data);
      if !ok { return Failed; }
      bufferedBytes := bufferedBytes + |data|;
      ok := MaybeFlush();
      if !ok { return Failed; }
      totalBytes := totalBytes + |data|;
      chunkCount := chunkCount + 1;
      return Accepted;
    }

    method InsertRaw(data: Bytes) returns (outcome: Outcome)
      modifies this, connection
      ensures InserterSpec.InsertRaw(Async, old(State()), data) == Result(outcome, State())
    {
      if data == [] { return Accepted; }
      var ok := EnsureWriter();
      if !ok { return Failed; }
      ok := SendDirect(data);
      if !ok { return Failed; }
      bufferedBytes := bufferedBytes + |data|;
      ok := MaybeFlush();
      if !ok { return Failed; }
      totalBytes := totalBytes + |data|;
      chunkCount := chunkCount + 1;
      return Accepted;
    }

    method Execute() returns (ok: bool)
      modifies this, connection
      ensures Ended(ok, connection.io) == Finish(Async, old(State()))
      ensures !writer
    {
      if !writer { return true; }
      writer := false;
      ok := connection.End(Completed);
    }

    method Cancel() returns (ok: bool)
      modifies this, connection
      ensures Ended(ok, connection.io) == InserterSpec.Cancel(old(State()))
      ensures !writer
    {
      if writer {
        writer := false;
        var _ := connection.End(Cancelled);
      }
      return false;
    }

    /** The writer's own drop queues the CopyFail, if the lock is free. */
    method Drop(lockFree: bool) returns (ok: bool)
      modifies this, connection
      ensures Ended(ok, connection.io) == InserterSpec.Drop(Async, old(State()), lockFree)
      ensures !writer
    {
      if writer {
        writer := false;
        if lockFree {
          var _ := connection.End(Cancelled);
        }
      }
      return false;
    }
  }

  /** `AsyncArrowInserterOwned`: it marks the schema as sent before the flush. */
  class AsyncArrowInserterOwned {
    const connection: Connection
    const flushThreshold: nat
    var writer: bool
    var schemaSent: bool
    var totalBytes: nat
    var chunkCount: nat
    var bufferedBytes: nat

    function State(): Inserter
      reads this, connection
    {
      Inserter(writer, schemaSent, None, None, totalBytes, bufferedBytes, chunkCount,
               flushThreshold, connection.io)
    }

    constructor (connection: Connection, flushThreshold: nat)
      requires connection.io.log == []
      ensures this.connection == connection
      ensures State() == New(flushThreshold, connection.io.script)
    {
      this.connection, this.flushThreshold := connection, flushThreshold;
      writer, schemaSent, totalBytes, chunkCount, bufferedBytes := false, false, 0, 0, 0;
    }

    method EnsureWriter() returns (ok: bool)
      modifies this`writer, connection
      ensures InserterSpec.EnsureWriter(old(State())) == Result(if ok then Accepted else Failed, State())
    {
      if writer { return true; }
      ok := connection.Perform(Opened);
      if ok { writer := true; }
    }

    method SendDirect(data: Bytes) returns (ok: bool)
      modifies connection
      ensures InserterSpec.SendDirect(old(State()), data) == Result(if ok then Accepted else Failed, State())
    {
      if !writer { return true; }
      ok := connection.Perform(Sent(data));
    }

    method MaybeFlush() returns (ok: bool)
      modifies this`bufferedBytes, connection
      ensures InserterSpec.MaybeFlush(old(State())) == Result(if ok then Accepted else Failed, State())
    {
      if bufferedBytes >= flushThreshold {
        if writer {
          ok := connection.Perform(Flushed);
          if !ok { return; }
        }
        bufferedBytes := 0;
      }
      return true;
    }

    method InsertData(data: Bytes) returns (outcome: Outcome)
      modifies this, connection
      ensures InserterSpec.InsertData(Owned, old(State()), data) == Result(outcome, State())
    {
      if data == [] { return Accepted; }
      if schemaSent { return Rejected; }
      var ok := EnsureWriter();
      if !ok { return Failed; }
      ok := SendDirect(data);
      if !ok { return Failed; }
      schemaSent := true;
      bufferedBytes := bufferedBytes + |data|;
      ok := MaybeFlush();
      if !ok { return Failed; }
      totalBytes := totalBytes + |data|;
      chunkCount := chunkCount + 1;
      return Accepted;
    }

    method InsertRecordBatches(data: Bytes) returns (outcome: Outcome)
      modifies this, connection
      ensures InserterSpec.InsertRecordBatches(Owned, old(State()), data) == Result(outcome, State())
    {
      if data == [] { return Accepted; }
      if !schemaSent { return Rejected; }
      var ok := SendDirect(data);
      if !ok { return Failed; }
      bufferedBytes := bufferedBytes + |data|;
      ok := MaybeFlush();
      if !ok { return Failed; }
      totalBytes := totalBytes + |data|;
      chunkCount := chunkCount + 1;
      return Accepted;
    }

    method InsertRaw(data: Bytes) returns (outcome: Outcome)
      modifies this, connection
      ensures InserterSpec.InsertRaw(Owned, old(State()), data) == Result(outcome, State())
    {
      if data == [] { return Accepted; }
      var ok := EnsureWriter();
      if !ok { return Failed; }
      ok := SendDirect(data);
      if !ok { return Failed; }
      schemaSent := true;
      bufferedBytes := bufferedBytes + |data|;
      ok := MaybeFlush();
      if !ok { return Failed; }
      totalBytes := totalBytes + |data|;
      chunkCount := chunkCount + 1;
      return Accepted;
    }

    method Execute() returns (ok: bool)
      modifies this, connection
      ensures Ended(ok, connection.io) == Finish(Owned, old(State()))
      ensures !writer
    {
      if !writer { return false; }
      writer := false;
      ok := connection.End(Completed);
    }

    method Cancel() returns (ok: bool)
      modifies this, connection
      ensures Ended(ok, connection.io) == InserterSpec.Cancel(old(State()))
      ensures !writer
    {
      if writer {
        writer := false;
        var _ := connection.End(Cancelled);
      }
      return false;
    }

    /** The writer's own drop queues the CopyFail, if the lock is free. */
    method Drop(lockFree: bool) returns (ok: bool)
      modifies this, connection
      ensures Ended(ok, connection.io) == InserterSpec.Drop(Owned, old(State()), lockFree)
      ensures !writer
    {
      if writer {
        writer := false;
        if lockFree {
          var _ := connection.End(Cancelled);
        }
      }
      return false;
    }
  }
}
