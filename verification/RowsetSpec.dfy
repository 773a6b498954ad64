/**
  `ArrowRowset` (arrow_result.rs) as functions: the buffered constructors decode everything up
  front, the streaming constructor pulls chunks from a source and decodes on demand. The class
  in module `ArrowRowset` is proved against these functions.
 */
module RowsetSpec {
  import opened Common
  import opened ArrowIpc
  import opened DecoderDriver

  // ---------------------------------------------------------------------------
  // State and replies
  // ---------------------------------------------------------------------------

  /** What the remaining calls of `ChunkSource::next_chunk` answer; afterwards it is `Ok(None)`. */
  datatype SourceItem = Bytes(chunk: Buffer) | TransportError(code: int)

  datatype RowsetError = Transport(code: int) | Conversion

  datatype Inner =
    | Buffered(batches: seq<Decoded>, current: nat)
    | Streaming(source: seq<SourceItem>, decoder: Decoder, pending: seq<Decoded>,
                leftover: Option<Buffer>, exhausted: bool)

  datatype Reply = Rows(batch: Decoded) | NoMore | Failed(error: RowsetError)

  /** A call's reply and the state it leaves, or a call that never returns. */
  datatype Called = Called(reply: Reply, inner: Inner) | Hangs

  function NewDecoder(lag: bool): Decoder {
    Decoder(lag, Fresh)
  }

  // ---------------------------------------------------------------------------
  // Pulling from the source
  // ---------------------------------------------------------------------------

  datatype Pulled = Moved(inner: Inner) | PullFailed(error: RowsetError, inner: Inner) | PullLoops

  function Feed(r: Inner, buf: Buffer): Pulled
    requires r.Streaming?
  {
    match Drive(r.decoder, buf)
    case Ok(d, out) => Moved(r.(decoder := d, pending := r.pending + out))
    case Err(d, out) => PullFailed(Conversion, r.(decoder := d, pending := r.pending + out))
    case Loops(_) => PullLoops
  }

  /** One pass of the loops in `prime_stream` and `next_chunk`. */
  function Pull(r: Inner): Pulled
    requires r.Streaming?
  {
    if r.leftover.Some? then Feed(r.(leftover := None), r.leftover.value)
    else if r.source == [] then Moved(r.(exhausted := true))
    else
      var r' := r.(source := r.source[1..]);
      match r.source[0]
      case TransportError(code) => PullFailed(Transport(code), r')
      case Bytes(chunk) => if chunk == [] then Moved(r') else Feed(r', chunk)
  }

  /** Source items, a leftover and the end of the source are each consumed once. */
  function Remaining(r: Inner): nat
    requires r.Streaming?
  {
    |r.source| + (if r.leftover.Some? then 1 else 0) + (if r.exhausted then 0 else 1)
  }

  // ---------------------------------------------------------------------------
  // The calls as functions
  // ---------------------------------------------------------------------------

  /** What a rowset can still be asked for; every call that returns rows makes it smaller. */
  function Budget(r: Inner): (nat, nat)
  {
    match r
    case Buffered(batches, current) => (0, if current <= |batches| then |batches| - current else 0)
    case Streaming(_, _, pending, _, _) => (Remaining(r), |pending|)
  }

  function Next(r: Inner): (c: Called)
    ensures c.Called? && c.reply.Rows? ==>
              (c.inner.Streaming? == r.Streaming? &&
               (Budget(c.inner).0 < Budget(r).0 ||
                (Budget(c.inner).0 == Budget(r).0 && Budget(c.inner).1 < Budget(r).1)))
    decreases if r.Streaming? then Remaining(r) else 0
  {
    match r
    case Buffered(batches, current) =>
      if current >= |batches| then Called(NoMore, r)
      else Called(Rows(batches[current]), r.(current := current + 1))
    case Streaming(_, _, _, _, _) =>
      if r.pending != [] then Called(Rows(r.pending[0]), r.(pending := r.pending[1..]))
      else if r.exhausted then Called(NoMore, r)
      else
        match Pull(r)
        case Moved(r') => Next(r')
        case PullFailed(error, r') => Called(Failed(error), r')
        case PullLoops => Hangs
  }

  /** Calling `next_chunk` until it stops returning rows: the batches, and how it stopped. */
  datatype Drained = Drained(batches: seq<Decoded>, end: Called)

  function Drain(r: Inner): Drained
    decreases Budget(r).0, Budget(r).1
  {
    match Next(r)
    case Called(Rows(batch), r') =>
      var rest := Drain(r');
      Drained([batch] + rest.batches, rest.end)
    case end => Drained([], end)
  }

  datatype Primed = Primed(inner: Inner) | PrimeFailed(error: RowsetError) | PrimeHangs

  function Prime(r: Inner): (p: Primed)
    requires r.Streaming?
    ensures p.Primed? ==> p.inner.Streaming?
    decreases Remaining(r)
  {
    if r.decoder.Schema().Some? || r.exhausted then Primed(r)
    else
      match Pull(r)
      case Moved(r') => Prime(r')
      case PullFailed(error, _) => PrimeFailed(error)
      case PullLoops => PrimeHangs
  }

  /** A constructor's outcome: the rowset's two fields, an error, or no return at all. */
  datatype Built = Built(inner: Inner, schema: Schema) | BuildFailed(error: RowsetError) | BuildHangs

  function SchemaOr(d: Decoder, default: Schema): Schema {
    if d.Schema().Some? then d.Schema().value else default
  }

  /** `decode_possibly_concatenated_streams` followed by wrapping its result. */
  function FromBuffer(lag: bool, buf: Buffer): Built
  {
    match Drive(NewDecoder(lag), buf)
    case Ok(d, out) => Built(Buffered(out, 0), SchemaOr(d, EMPTY_SCHEMA))
    case Err(_, _) => BuildFailed(Conversion)
    case Loops(_) => BuildHangs
  }

  /** `from_chunks`: each chunk is decoded on its own; the first schema with fields is kept. */
  function FromChunks(lag: bool, chunks: seq<Buffer>): Built
  {
    if chunks == [] then Built(Buffered([], 0), EMPTY_SCHEMA)
    else
      var init, last := chunks[..|chunks| - 1], chunks[|chunks| - 1];
      var before := FromChunks(lag, init);
      if !before.Built? || !before.inner.Buffered? || last == [] then before
      else
        match FromBuffer(lag, last)
        case Built(Buffered(batches, _), schema) =>
          Built(Buffered(before.inner.batches + batches, 0),
                if before.schema.fields == [] then schema else before.schema)
        case other => other
  }

  function FromStream(lag: bool, source: seq<SourceItem>): Built
  {
    match Prime(Streaming(source, NewDecoder(lag), [], None, false))
    case Primed(r) => Built(r, SchemaOr(r.decoder, EMPTY_SCHEMA))
    case PrimeFailed(error) => BuildFailed(error)
    case PrimeHangs => BuildHangs
  }

  /** A chunk that fails or never returns decides `from_chunks`. */
  lemma {:induction false} FirstBadChunkDecides(lag: bool, chunks: seq<Buffer>, n: nat)
    requires n <= |chunks|
    requires !FromChunks(lag, chunks[..n]).Built?
    ensures FromChunks(lag, chunks) == FromChunks(lag, chunks[..n])
    decreases |chunks| - n
  {
    if n == |chunks| {
      assert chunks[..n] == chunks;
    } else {
      assert chunks[..n + 1][..n] == chunks[..n];
      FirstBadChunkDecides(lag, chunks, n + 1);
    }
  }

  // ---------------------------------------------------------------------------
  // Row counts
  // ---------------------------------------------------------------------------

  function SumRows(batches: seq<Decoded>): nat
  {
    if batches == [] then 0 else batches[0].batch.rows + SumRows(batches[1..])
  }

  /** The rows add up, batch by batch. */
  lemma {:induction false} SumRowsAdds(a: seq<Decoded>, d: Decoded)
    ensures SumRows([]) == 0
    ensures SumRows(a + [d]) == SumRows(a) + d.batch.rows
  {
    if a == [] {
      assert a + [d] == [d] && SumRows([d][1..]) == 0;
    } else {
      assert (a + [d])[1..] == a[1..] + [d];
      SumRowsAdds(a[1..], d);
    }
  }

  /** `total_rows`: what the rowset holds, not what a streaming result will yield. */
  function TotalRows(r: Inner): nat
  {
    if r.Buffered? then SumRows(r.batches) else SumRows(r.pending)
  }
}
