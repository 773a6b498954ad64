/**
  The code of `ArrowRowset` (arrow_result.rs), proved against `RowsetSpec`.

  A method requires that its run ends: on the buffers of `DriverTermination.DriveLoopsIff` the
  original never returns, and only there.
 */
module ArrowRowset {
  import opened Common
  import opened ArrowIpc
  import opened DecoderDriver
  import opened RowsetSpec

  /** `decode_possibly_concatenated_streams`: drive until the buffer is used up. */
  method DecodePossiblyConcatenatedStreams(lag: bool, buf0: Buffer)
    returns (ok: bool, schema: Schema, batches: seq<Decoded>)
    requires !RowsetSpec.FromBuffer(lag, buf0).BuildHangs?
    ensures ok <==> FromBuffer(lag, buf0).Built?
    ensures ok ==> FromBuffer(lag, buf0) == Built(Buffered(batches, 0), schema)
  {
    var decoder, buf, pending := NewDecoder(lag), buf0, [];
    schema, batches := EMPTY_SCHEMA, [];
    while buf != []
      invariant (buf == buf0 && decoder == NewDecoder(lag) && pending == []) ||
                (buf == [] && Drive(NewDecoder(lag), buf0) == Ok(decoder, pending))
      decreases |buf|
    {
      var beforeLen := |buf|;
      var driven: bool;
      driven, decoder, buf, pending := DriveStreamingDecoder(decoder, buf, pending);
      if !driven { return false, EMPTY_SCHEMA, []; }
      if |buf| == beforeLen {
        if buf != [] { return false, EMPTY_SCHEMA, []; }
        break;
      }
    }
    return true, SchemaOr(decoder, EMPTY_SCHEMA), pending;
  }

  class ArrowRowset {
    var inner: Inner
    var schema: Schema

    constructor (inner: Inner, schema: Schema)
      ensures this.inner == inner && this.schema == schema
    {
      this.inner, this.schema := inner, schema;
    }

    /** `from_bytes` and `from_buffer`. */
    static method FromBuffer(lag: bool, buf: Buffer) returns (rowset: ArrowRowset?)
      requires !RowsetSpec.FromBuffer(lag, buf).BuildHangs?
      ensures rowset != null ==>
                fresh(rowset) && RowsetSpec.FromBuffer(lag, buf) == Built(rowset.inner, rowset.schema)
      ensures rowset == null ==> RowsetSpec.FromBuffer(lag, buf) == BuildFailed(Conversion)
    {
      if buf == [] {
        return new ArrowRowset(Buffered([], 0), EMPTY_SCHEMA);
      }
      var ok, schema, batches := DecodePossiblyConcatenatedStreams(lag, buf);
      if !ok { return null; }
      rowset := new ArrowRowset(Buffered(batches, 0), schema);
    }

    static method FromChunks(lag: bool, chunks: seq<Buffer>) returns (rowset: ArrowRowset?)
      requires !RowsetSpec.FromChunks(lag, chunks).BuildHangs?
      ensures rowset != null ==>
                fresh(rowset) && RowsetSpec.FromChunks(lag, chunks) == Built(rowset.inner, rowset.schema)
      ensures rowset == null ==> RowsetSpec.FromChunks(lag, chunks) == BuildFailed(Conversion)
    {
      var batches: seq<Decoded>, schema := [], EMPTY_SCHEMA;
      for i := 0 to |chunks|
        invariant RowsetSpec.FromChunks(lag, chunks[..i]) == Built(Buffered(batches, 0), schema)
      {
        assert chunks[..i + 1][..i] == chunks[..i];
        if chunks[i] == [] { continue; }
        if !RowsetSpec.FromChunks(lag, chunks[..i + 1]).Built? {
          FirstBadChunkDecides(lag, chunks, i + 1);
        }
        var ok, chunkSchema, chunkBatches := DecodePossiblyConcatenatedStreams(lag, chunks[i]);
        if !ok {
          return null;
        }
        if schema.fields == [] { schema := chunkSchema; }
        batches := batches + chunkBatches;
      }
      assert chunks[..|chunks|] == chunks;
      rowset := new ArrowRowset(Buffered(batches, 0), schema);
    }

    static method FromStream(lag: bool, source: seq<SourceItem>)
      returns (rowset: ArrowRowset?, error: RowsetError)
      requires !RowsetSpec.FromStream(lag, source).BuildHangs?
      ensures rowset != null ==>
                fresh(rowset) && RowsetSpec.FromStream(lag, source) == Built(rowset.inner, rowset.schema)
      ensures rowset == null ==> RowsetSpec.FromStream(lag, source) == BuildFailed(error)
    {
      var r := new ArrowRowset(Streaming(source, NewDecoder(lag), [], None, false), EMPTY_SCHEMA);
      var failure := r.PrimeStream();
      if failure.Some? { return null, failure.value; }
      return r, Conversion;
    }

    /** The body both loops share: take the leftover or the next chunk and drive the decoder. */
    method PullOnce() returns (failure: Option<RowsetError>)
      requires inner.Streaming? && !Pull(inner).PullLoops?
      modifies this`inner
      ensures failure == match Pull(old(inner)) case PullFailed(e, _) => Some(e) case _ => None
      ensures inner == Pull(old(inner)).inner
    {
      var buf: Buffer;
      if inner.leftover.Some? {
        buf := inner.leftover.value;
        inner := inner.(leftover := None);
      } else if inner.source == [] {
        inner := inner.(exhausted := true);
        return None;
      } else {
        var item := inner.source[0];
        inner := inner.(source := inner.source[1..]);
        if item.TransportError? { return Some(Transport(item.code)); }
        if item.chunk == [] { return None; }
        buf := item.chunk;
      }
      var ok, decoder, rest, pending := DriveStreamingDecoder(inner.decoder, buf, inner.pending);
      inner := inner.(decoder := decoder, pending := pending);
      if !ok { return Some(Conversion); }
      // The original stores a non-empty rest as `leftover`; the driver never leaves one.
      assert rest == [];
      return None;
    }

    method PrimeStream() returns (failure: Option<RowsetError>)
      requires inner.Streaming? && !Prime(inner).PrimeHangs?
      modifies this
      ensures Prime(old(inner)) == if failure.Some? then PrimeFailed(failure.value) else Primed(inner)
      ensures failure.None? ==> inner.Streaming? && schema == SchemaOr(inner.decoder, old(schema))
    {
      while inner.decoder.Schema().None? && !inner.exhausted
        invariant inner.Streaming? && schema == old(schema)
        invariant Prime(inner) == Prime(old(inner))
        decreases Remaining(inner)
      {
        failure := PullOnce();
        if failure.Some? { return; }
      }
      if inner.decoder.Schema().Some? {
        schema := inner.decoder.Schema().value;
      }
      return None;
    }

    method NextChunk() returns (reply: Reply)
      requires !Next(inner).Hangs?
      modifies this`inner
      ensures Next(old(inner)) == Called(reply, inner)
    {
      if inner.Buffered? {
        if inner.current >= |inner.batches| { return NoMore; }
        var batch := inner.batches[inner.current];
        inner := inner.(current := inner.current + 1);
        return Rows(batch);
      }
      while true
        invariant inner.Streaming?
        invariant Next(inner) == Next(old(inner))
        decreases Remaining(inner)
      {
        if inner.pending != [] {
          var batch := inner.pending[0];
          inner := inner.(pending := inner.pending[1..]);
          return Rows(batch);
        }
        if inner.exhausted { return NoMore; }
        var failure := PullOnce();
        if failure.Some? { return Failed(failure.value); }
      }
    }
  }
}
