/**
  The three ways to read a result: `from_stream` drained to its end, `from_bytes` on the glued
  messages, and `from_chunks` on self-contained chunks. What each delivers, and when they agree.
 */
module LazyTheorems {
  import opened Common
  import opened ArrowIpc
  import opened DecoderDriver
  import opened RowsetSpec
  import opened LazyAgreement

  /** A source that hands out these chunks and never fails. */
  function Items(chunks: seq<Buffer>): seq<SourceItem>
  {
    if chunks == [] then [] else [Bytes(chunks[0])] + Items(chunks[1..])
  }

  /** The chunks a source still holds. */
  function Chunks(source: seq<SourceItem>): seq<Buffer>
  {
    if source == [] then []
    else [if source[0].Bytes? then source[0].chunk else []] + Chunks(source[1..])
  }

  lemma {:induction false} ChunksOfItems(chunks: seq<Buffer>)
    ensures Chunks(Items(chunks)) == chunks
    ensures forall i :: 0 <= i < |Items(chunks)| ==> Items(chunks)[i].Bytes?
  {
    if chunks != [] { ChunksOfItems(chunks[1..]); }
  }

  // ---------------------------------------------------------------------------
  // The streaming rowset, pull by pull
  // ---------------------------------------------------------------------------

  /** A streaming rowset part-way through an accepted result. */
  ghost predicate Good(mode: Mode, r: Inner)
  {
    && r.Streaming? && r.leftover.None?
    && (forall i :: 0 <= i < |r.source| ==> r.source[i].Bytes?)
    && Fits(mode, r.decoder, Flatten(Chunks(r.source)))
    && (r.exhausted ==> r.source == [])
  }

  /** The batches such a rowset has still to return. */
  function Owed(r: Inner): seq<Decoded>
    requires r.Streaming?
  {
    r.pending + DeliverCut(Current(r.decoder), Chunks(r.source))
  }

  /** From `r` to `r'` no batch is lost; a strict run never goes back to a fresh decoder. */
  ghost predicate Keeps(mode: Mode, r: Inner, r': Inner)
  {
    && Good(mode, r) && Good(mode, r')
    && Owed(r') == Owed(r)
    && (mode.Strict? && r'.decoder.state.Fresh? ==> Flatten(Chunks(r'.source)) == Flatten(Chunks(r.source)))
    && (Flatten(Chunks(r.source)) == [] ==> r'.decoder == r.decoder && Flatten(Chunks(r'.source)) == [])
  }

  /** A chunk that is fed to the decoder: its batches move from the source to `pending`. */
  lemma FeedKeeps(mode: Mode, r: Inner, chunk: Buffer, rest: seq<SourceItem>)
    requires Good(mode, r) && !r.exhausted
    requires chunk != [] && r.source == [Bytes(chunk)] + rest
    ensures Feed(r.(source := rest), chunk).Moved?
    ensures Keeps(mode, r, Feed(r.(source := rest), chunk).inner)
  {
    assert r.source[1..] == rest && r.source[0] == Bytes(chunk);
    var ahead, d := Flatten(Chunks(rest)), r.decoder;
    assert Flatten(Chunks(r.source)) == chunk + ahead;
    DriveChunk(mode, d, chunk, ahead);
    var p := DeliverChunk(Current(d), chunk);
    var later := DeliverCut(p.current, Chunks(rest));
    assert r.pending + (p.out + later) == (r.pending + p.out) + later;
  }

  /** One pull never fails, and keeps all batches. */
  lemma PullKeeps(mode: Mode, r: Inner)
    requires Good(mode, r) && !r.exhausted
    ensures Pull(r).Moved? && Keeps(mode, r, Pull(r).inner)
  {
    if r.source != [] {
      var chunk, rest := r.source[0].chunk, r.source[1..];
      assert r.source == [Bytes(chunk)] + rest;
      if chunk == [] {
        assert chunk + Flatten(Chunks(rest)) == Flatten(Chunks(rest));
      } else {
        FeedKeeps(mode, r, chunk, rest);
      }
    }
  }

  lemma {:induction false} DrainPaysOwed(mode: Mode, r: Inner)
    requires Good(mode, r)
    ensures Drain(r).batches == Owed(r)
    ensures Drain(r).end.Called? && Drain(r).end.reply.NoMore?
    decreases Remaining(r), |r.pending|
  {
    if r.pending != [] {
      DrainPaysOwed(mode, r.(pending := r.pending[1..]));
    } else if !r.exhausted {
      PullKeeps(mode, r);
      DrainPaysOwed(mode, Pull(r).inner);
    }
  }

  lemma {:induction false} PrimeKeeps(mode: Mode, r: Inner)
    requires Good(mode, r)
    ensures Prime(r).Primed? && Keeps(mode, r, Prime(r).inner)
    ensures Prime(r).inner.decoder.Schema().None? ==> Prime(r).inner.exhausted
    decreases Remaining(r)
  {
    if r.decoder.Schema().None? && !r.exhausted {
      PullKeeps(mode, r);
      PrimeKeeps(mode, Pull(r).inner);
    }
  }

  lemma {:induction false} DrainBuffered(r: Inner)
    requires r.Buffered? && r.current <= |r.batches|
    ensures Drain(r).batches == r.batches[r.current..]
    decreases |r.batches| - r.current
  {
    if r.current < |r.batches| {
      DrainBuffered(r.(current := r.current + 1));
    }
  }

  // ---------------------------------------------------------------------------
  // What the lazy form delivers
  // ---------------------------------------------------------------------------

  /**
    Whenever `from_bytes` succeeds on the glued messages, `from_stream` succeeds under this and
    every other cut, returns the batches of `DeliverCut`, and then reports the end.
   */
  lemma LazyDelivers(lag: bool, chunks: seq<Buffer>)
    requires FromBuffer(lag, Flatten(chunks)).Built?
    ensures var lazy := FromStream(lag, Items(chunks));
            && lazy.Built?
            && Drain(lazy.inner).batches == DeliverCut(None, chunks)
            && Drain(lazy.inner).end.Called? && Drain(lazy.inner).end.reply.NoMore?
  {
    var r := Streaming(Items(chunks), NewDecoder(lag), [], None, false);
    ChunksOfItems(chunks);
    BufferedDelivers(lag, Flatten(chunks));
    PrimeKeeps(Lenient(lag), r);
    DrainPaysOwed(Lenient(lag), Prime(r).inner);
  }

  /**
    With one schema the lazy form returns exactly the batches of the buffered form, under every
    cut. If every stream holds a batch, both report the same schema.
   */
  lemma LazyMatchesBuffered(lag: bool, s: Schema, chunks: seq<Buffer>)
    requires FromBuffer(lag, Flatten(chunks)).Built?
    requires OneSchema(s, false, Flatten(chunks))
    ensures var buffered := FromBuffer(lag, Flatten(chunks));
            var lazy := FromStream(lag, Items(chunks));
            && lazy.Built?
            && Drain(lazy.inner).batches == Drain(buffered.inner).batches
            && (Streams(Flatten(chunks)) ==> lazy.schema == buffered.schema)
  {
    var msgs := Flatten(chunks);
    LazyDelivers(lag, chunks);
    BufferedDelivers(lag, msgs);
    OneSchemaCovers(lag, s, None, msgs);
    CoveredCut(lag, s, None, chunks);
    CoveredDeliver(s, None, msgs);
    DrainBuffered(FromBuffer(lag, msgs).inner);
    if Streams(msgs) {
      LazySchema(lag, s, chunks);
      BufferedStreams(lag, s, msgs);
    }
  }

  /** The schema of a result whose streams are all opened by `s`. */
  function SchemaOf(s: Schema, msgs: Buffer): Schema {
    if msgs == [] then EMPTY_SCHEMA else s
  }

  lemma BufferedStreams(lag: bool, s: Schema, msgs: Buffer)
    requires Streams(msgs) && OneSchema(s, false, msgs)
    ensures FromBuffer(lag, msgs) == Built(Buffered(Under(s, msgs), 0), SchemaOf(s, msgs))
  {
    var d := NewDecoder(lag);
    assert msgs + [] == msgs;
    StrictAccepts(lag, false, msgs);
    DriveChunk(Strict, d, msgs, []);
    UniformWhole(lag, s, None, msgs);
  }

  /** Strict acceptance is acceptance. */
  lemma StrictAccepts(lag: bool, started: bool, msgs: Buffer)
    requires Accepts(Strict, started, msgs)
    ensures Accepts(Lenient(lag), started, msgs)
    decreases |msgs|
  {
  }

  /** A whole result driven as one chunk. */
  lemma UniformWhole(lag: bool, s: Schema, current: Option<Schema>, msgs: Buffer)
    requires Uniform(lag, s, current, msgs)
    ensures DeliverChunk(current, msgs).out == Under(s, msgs)
    ensures DeliverChunk(current, msgs).current in {None, Some(s)}
  {
    assert msgs + [] == msgs;
    UniformChunk(lag, s, current, msgs, []);
  }

  lemma LazySchema(lag: bool, s: Schema, chunks: seq<Buffer>)
    requires Streams(Flatten(chunks)) && OneSchema(s, false, Flatten(chunks))
    ensures FromStream(lag, Items(chunks)).Built?
    ensures FromStream(lag, Items(chunks)).schema == SchemaOf(s, Flatten(chunks))
  {
    var r := Streaming(Items(chunks), NewDecoder(lag), [], None, false);
    ChunksOfItems(chunks);
    StrictAccepts(lag, false, Flatten(chunks));
    PrimeKeeps(Strict, r);
    PrimeSchema(lag, s, r);
  }

  /** Priming stops at the one schema or at the end of a source without messages. */
  lemma {:induction false} PrimeSchema(lag: bool, s: Schema, r: Inner)
    requires Good(Strict, r)
    requires Uniform(lag, s, Current(r.decoder), Flatten(Chunks(r.source)))
    ensures Prime(r).Primed?
    ensures var d := Prime(r).inner.decoder;
            && (d.Schema() == None || d.Schema() == Some(s))
            && (d.Schema() == None ==> d.state.Fresh? && Flatten(Chunks(r.source)) == [])
    decreases Remaining(r)
  {
    PrimeKeeps(Strict, r);
    if r.decoder.Schema().None? && !r.exhausted {
      PullKeeps(Strict, r);
      if r.source != [] {
        var chunk, rest := r.source[0].chunk, Flatten(Chunks(r.source[1..]));
        assert Flatten(Chunks(r.source)) == chunk + rest;
        if chunk == [] {
          assert chunk + rest == rest;
        } else {
          DriveChunk(Strict, r.decoder, chunk, rest);
          UniformChunk(lag, s, Current(r.decoder), chunk, rest);
        }
      }
      PrimeSchema(lag, s, Pull(r).inner);
    }
  }

  // ---------------------------------------------------------------------------
  // Self-contained chunks
  // ---------------------------------------------------------------------------

  /** Gluing strict streams gives strict streams. */
  lemma {:induction false} GlueStreams(s: Schema, started: bool, a: Buffer, b: Buffer)
    requires Accepts(Strict, started, a) && OneSchema(s, started, a)
    requires Streams(b) && OneSchema(s, false, b)
    ensures Accepts(Strict, started, a + b) && OneSchema(s, started, a + b)
    decreases |a|
  {
    if a == [] {
      assert a + b == b;
      KeptDecoderFits(Strict, b);
      KeptSchemaFits(s, b);
    } else if !started {
      assert (a + b)[1..] == a[1..] + b && (a + b)[2..] == a[2..] + b;
      assert a[1..][1..] == a[2..] && (a + b)[1..][1..] == (a + b)[2..];
      assert OneSchema(s, true, a[1..]) && OneSchema(s, true, a[2..]);
      GlueStreams(s, true, a[2..], b);
    } else {
      assert (a + b)[1..] == a[1..] + b;
      GlueStreams(s, !a[0].Eos?, a[1..], b);
    }
  }

  /** Every chunk is empty or a run of strict streams opened by `s`. */
  ghost predicate SelfContained(s: Schema, chunks: seq<Buffer>)
  {
    forall i :: 0 <= i < |chunks| ==> Streams(chunks[i]) && OneSchema(s, false, chunks[i])
  }

  lemma {:induction false} FlattenLast<T>(parts: seq<seq<T>>)
    requires parts != []
    ensures Flatten(parts) == Flatten(parts[..|parts| - 1]) + parts[|parts| - 1]
  {
    if |parts| > 1 {
      FlattenLast(parts[1..]);
      assert parts[1..][..|parts| - 2] == parts[..|parts| - 1][1..];
    }
  }

  lemma {:induction false} ChunkedForm(lag: bool, s: Schema, chunks: seq<Buffer>)
    requires SelfContained(s, chunks)
    ensures Streams(Flatten(chunks)) && OneSchema(s, false, Flatten(chunks))
    ensures FromChunks(lag, chunks) ==
            Built(Buffered(Under(s, Flatten(chunks)), 0), SchemaOf(s, Flatten(chunks)))
  {
    if chunks != [] {
      var n := |chunks| - 1;
      var init, last := Flatten(chunks[..n]), chunks[n];
      ChunkedForm(lag, s, chunks[..n]);
      FlattenLast(chunks);
      GlueStreams(s, false, init, last);
      UnderConcat(s, init, last);
      BufferedStreams(lag, s, last);
      assert last == [] ==> init + last == init;
      assert init == [] ==> init + last == last;
      assert s.fields == [] ==> s == EMPTY_SCHEMA;
    }
  }

  /**
    On self-contained chunks with one schema the three constructors agree: same batches, same
    schema, and `total_rows` of the buffered forms is the number of rows the lazy form returns.
   */
  lemma ThreeFormsAgree(lag: bool, s: Schema, chunks: seq<Buffer>)
    requires SelfContained(s, chunks)
    ensures var chunked := FromChunks(lag, chunks);
            var buffered := FromBuffer(lag, Flatten(chunks));
            var lazy := FromStream(lag, Items(chunks));
            && chunked.Built? && chunked == buffered
            && lazy.Built? && lazy.schema == chunked.schema
            && Drain(lazy.inner).batches == Drain(chunked.inner).batches
            && SumRows(Drain(lazy.inner).batches) == TotalRows(chunked.inner)
  {
    ChunkedForm(lag, s, chunks);
    BufferedStreams(lag, s, Flatten(chunks));
    LazyMatchesBuffered(lag, s, chunks);
    DrainBuffered(FromChunks(lag, chunks).inner);
  }

  // ---------------------------------------------------------------------------
  // Chunks decoded on their own, whatever their schemas
  // ---------------------------------------------------------------------------

  /** The batches of the chunks, each under the schema that opens its stream. */
  function DeliverEach(chunks: seq<Buffer>): seq<Decoded>
  {
    if chunks == [] then [] else Deliver(None, chunks[0]) + DeliverEach(chunks[1..])
  }

  /** The first schema that has fields, as the chunks report them one by one. */
  function FirstWithFields(lag: bool, chunks: seq<Buffer>): Schema
  {
    if chunks == [] then EMPTY_SCHEMA
    else
      var built := FromBuffer(lag, chunks[0]);
      if built.Built? && built.schema.fields != [] then built.schema else FirstWithFields(lag, chunks[1..])
  }

  lemma {:induction false} DeliverEachLast(chunks: seq<Buffer>, last: Buffer)
    ensures DeliverEach(chunks + [last]) == DeliverEach(chunks) + Deliver(None, last)
  {
    if chunks == [] {
      assert (chunks + [last])[1..] == [] && chunks + [last] == [last];
    } else {
      assert (chunks + [last])[1..] == chunks[1..] + [last];
      DeliverEachLast(chunks[1..], last);
    }
  }

  lemma {:induction false} FirstWithFieldsLast(lag: bool, chunks: seq<Buffer>, last: Buffer)
    ensures FirstWithFields(lag, chunks + [last]) ==
            if FirstWithFields(lag, chunks).fields != [] then FirstWithFields(lag, chunks)
            else FirstWithFields(lag, [last])
  {
    if chunks == [] {
      assert chunks + [last] == [last];
    } else {
      assert (chunks + [last])[1..] == chunks[1..] + [last];
      FirstWithFieldsLast(lag, chunks[1..], last);
    }
  }

  /**
    `from_chunks` succeeds if and only if every chunk decodes on its own. It then holds the
    batches of all chunks in order, and reports the first schema that has fields.
   */
  lemma {:induction false} FromChunksDelivers(lag: bool, chunks: seq<Buffer>)
    ensures FromChunks(lag, chunks).Built? <==>
            forall i :: 0 <= i < |chunks| ==> FromBuffer(lag, chunks[i]).Built?
    ensures FromChunks(lag, chunks).Built? ==>
              FromChunks(lag, chunks) == Built(Buffered(DeliverEach(chunks), 0), FirstWithFields(lag, chunks))
    decreases |chunks|
  {
    if chunks != [] {
      var n := |chunks| - 1;
      var init, last := chunks[..n], chunks[n];
      assert chunks == init + [last];
      FromChunksDelivers(lag, init);
      BufferedDelivers(lag, last);
      DeliverEachLast(init, last);
      FirstWithFieldsLast(lag, init, last);
      assert forall i :: 0 <= i < n ==> init[i] == chunks[i];
      OneChunk(lag, last);
      var before := FirstWithFields(lag, init);
      assert before.fields == [] ==> before == EMPTY_SCHEMA;
      assert last == [] ==> DeliverEach(init) + Deliver(None, last) == DeliverEach(init);
      assert chunks[n] == last;
    }
  }

  lemma OneChunk(lag: bool, chunk: Buffer)
    ensures FromBuffer(lag, chunk).Built? ==>
              FirstWithFields(lag, [chunk]) == FromBuffer(lag, chunk).schema
    ensures chunk == [] ==> FromBuffer(lag, chunk) == Built(Buffered([], 0), EMPTY_SCHEMA)
  {
    assert [chunk][1..] == [];
    assert forall s: Schema :: s.fields == [] ==> s == EMPTY_SCHEMA;
  }
}
