/**
  What the lazy rowset accepts and which schema it reports, against the buffered one.

  The batches of an accepted result do not depend on the cut if one schema opens every stream.
  Acceptance and the reported schema are finer: this module says exactly when they agree.
 */
module LazySchemas {
  import opened Common
  import opened ArrowIpc
  import opened DecoderDriver
  import opened DriverTermination
  import opened RowsetSpec
  import opened LazyAgreement
  import opened LazyTheorems

  // ---------------------------------------------------------------------------
  // Acceptance
  // ---------------------------------------------------------------------------

  /** Under this cut the lazy form is built and reads to the end without an error. */
  ghost predicate LazyAccepts(lag: bool, chunks: seq<Buffer>)
  {
    var lazy := FromStream(lag, Items(chunks));
    lazy.Built? && Drain(lazy.inner).end.Called? && Drain(lazy.inner).end.reply.NoMore?
  }

  ghost predicate AcceptsEveryCut(lag: bool, msgs: Buffer)
  {
    forall chunks :: Flatten(chunks) == msgs ==> LazyAccepts(lag, chunks)
  }

  /** The lazy form accepts every cut of a result if and only if the buffered form accepts it. */
  lemma AcceptsEveryCutIff(lag: bool, msgs: Buffer)
    ensures AcceptsEveryCut(lag, msgs) <==> FromBuffer(lag, msgs).Built?
  {
    if FromBuffer(lag, msgs).Built? {
      forall chunks | Flatten(chunks) == msgs ensures LazyAccepts(lag, chunks) {
        LazyDelivers(lag, chunks);
      }
    }
    if AcceptsEveryCut(lag, msgs) && msgs != [] {
      var chunks := [msgs];
      assert Flatten(chunks) == msgs + Flatten(chunks[1..]) == msgs + [] == msgs;
      assert LazyAccepts(lag, chunks);
      var r := Streaming(Items(chunks), NewDecoder(lag), [], None, false);
      assert Items(chunks)[0] == Bytes(msgs);
      assert Prime(r).Primed? ==> Pull(r).Moved?;
    }
  }

  /** `from_bytes` never returns exactly on the buffers that loop. */
  lemma BufferHangsIff(lag: bool, msgs: Buffer)
    ensures FromBuffer(lag, msgs).BuildHangs? <==> LoopsSomewhere(lag, Anew, msgs)
  {
    DriveLoopsIff(NewDecoder(lag), msgs);
  }

  // ---------------------------------------------------------------------------
  // The schema after one chunk
  // ---------------------------------------------------------------------------

  /** The states the driver leaves when it succeeds. */
  predicate BetweenCalls(d: Decoder)
  {
    match d.state
    case Fresh => true
    case Held(_) => true
    case Ready(_) => true
    case Doubled(_) => true
    case Finished(last) => last.Some?
    case Broken => false
  }

  /** Driving this chunk to its end leaves a decoder that shows no schema. */
  predicate Hides(d: Decoder, chunk: Buffer)
    requires chunk != []
  {
    var n := |chunk|;
    if n == 1 then
      (match chunk[0]
       case Eos => d.Schema().None?
       case SchemaMsg(_) => d.lag && d.state.Fresh?
       case BatchMsg(_) => false)
    else chunk[n - 2].Eos? && (chunk[n - 1].Eos? || (chunk[n - 1].SchemaMsg? && d.lag))
  }

  /** Driving the chunk leaves a decoder between calls that shows a schema unless `Hides`. */
  ghost predicate Foreseen(d: Decoder, chunk: Buffer)
    requires chunk != [] && Drive(d, chunk).Ok?
  {
    var d', last := Drive(d, chunk).decoder, chunk[|chunk| - 1];
    && BetweenCalls(d') && d'.lag == d.lag
    && (d'.Schema().None? <==> Hides(d, chunk))
    && (d'.state.Fresh? ==> last.Eos? && (|chunk| == 1 ==> d.state.Fresh?))
    && (d'.state.Held? ==> last.SchemaMsg? || (chunk == [Eos] && d.state.Held?))
  }

  /** Whether a schema shows after a chunk depends on the last two messages only. */
  lemma {:induction false} HidesIff(d: Decoder, chunk: Buffer)
    requires BetweenCalls(d) && chunk != [] && Drive(d, chunk).Ok?
    ensures Foreseen(d, chunk)
    decreases |chunk|, if d.state.Fresh? then 0 else 2
  {
    if chunk[0].Eos? {
      HidesAfterMarker(d, chunk);
    } else if d.Schema().Some? && chunk[0].SchemaMsg? {
      HidesAfterSkip(d, chunk);
    } else if d.state.Fresh? && chunk[0].SchemaMsg? {
      HidesFromFresh(d, chunk);
    } else if (d.state.Ready? || d.state.Held?) && chunk[0].BatchMsg? {
      var s := if d.state.Ready? then d.state.ready else d.state.held;
      DecodeBatch(d, s, chunk);
      HidesAfterBatch(d.(state := Ready(s)), d, chunk, chunk[1..]);
    } else if d.state.Held? {
      HidesFromHeld(d, chunk);
    }
  }

  lemma {:induction false} HidesAfterMarker(d: Decoder, chunk: Buffer)
    requires BetweenCalls(d) && chunk != [] && chunk[0].Eos? && Drive(d, chunk).Ok?
    ensures Foreseen(d, chunk)
    decreases |chunk|, 0, 0
  {
    if |chunk| == 1 {
      assert chunk[1..] == [] && Drive(d, chunk) == Ok(d, []);
    } else {
      assert Iterate(d, chunk) == Again(d.Reset(), chunk[1..], []);
      HidesIff(d.Reset(), chunk[1..]);
    }
  }

  lemma {:induction false} HidesAfterSkip(d: Decoder, chunk: Buffer)
    requires BetweenCalls(d) && chunk != [] && Drive(d, chunk).Ok?
    requires d.Schema().Some? && chunk[0].SchemaMsg?
    ensures Foreseen(d, chunk)
    decreases |chunk|, 0, 0
  {
    assert Iterate(d, chunk) == Again(d, chunk[1..], []);
    if |chunk| == 1 {
      assert chunk[1..] == [] && Drive(d, chunk).decoder == d;
    } else {
      HidesIff(d, chunk[1..]);
    }
  }

  lemma {:induction false} HidesFromFresh(d: Decoder, chunk: Buffer)
    requires d.state.Fresh? && chunk != [] && chunk[0].SchemaMsg? && Drive(d, chunk).Ok?
    ensures Foreseen(d, chunk)
    decreases |chunk|, 0, 0
  {
    DecodeOpening(d, chunk);
    if |chunk| > 1 && chunk[1].BatchMsg? {
      HidesAfterBatch(d.(state := Ready(chunk[0].schema)), d, chunk, chunk[2..]);
    } else {
      assert |chunk| <= 2;
    }
  }

  lemma {:induction false} HidesFromHeld(d: Decoder, chunk: Buffer)
    requires d.state.Held? && chunk != [] && chunk[0].SchemaMsg? && Drive(d, chunk).Ok?
    ensures Foreseen(d, chunk)
    decreases |chunk|, 1
  {
    assert Decode(d, chunk) == Decode(d.(state := Ready(d.state.held)), chunk);
    if !(d.lag && |chunk| == 1) {
      assert Iterate(d, chunk) == Again(d.Reset(), chunk, []);
      HidesIff(d.Reset(), chunk);
    }
  }

  /** `before` decoded a batch, and `d` goes on with the `rest`. */
  lemma {:induction false} HidesAfterBatch(d: Decoder, before: Decoder, chunk: Buffer, rest: Buffer)
    requires d.state.Ready? && d.lag == before.lag && Drive(d, rest).Ok? && Drive(before, chunk).Ok?
    requires |rest| < |chunk| && rest == chunk[|chunk| - |rest|..] && chunk[|chunk| - |rest| - 1].BatchMsg?
    requires Drive(before, chunk).decoder == Drive(d, rest).decoder
    ensures Foreseen(before, chunk)
    decreases |rest|, 3
  {
    var n := |chunk|;
    if rest == [] {
      assert Drive(d, rest).decoder == d;
    } else {
      HidesIff(d, rest);
      assert rest[|rest| - 1] == chunk[n - 1];
      assert |rest| > 1 ==> rest[|rest| - 2] == chunk[n - 2];
    }
  }

  // ---------------------------------------------------------------------------
  // Acceptance cut by cut
  // ---------------------------------------------------------------------------

  /** A decoder that refuses the next batch skips schemas and starts anew after a marker. */
  predicate TakesRefusing(lag: bool, chunk: Buffer)
    decreases |chunk|
  {
    if chunk == [] then true
    else match chunk[0]
      case Eos => Accepts(Lenient(lag), false, chunk[1..])
      case SchemaMsg(_) => TakesRefusing(lag, chunk[1..])
      case BatchMsg(_) => false
  }

  /** The chunks this decoder takes, read off the messages. */
  predicate Takes(d: Decoder, chunk: Buffer)
  {
    match d.state
    case Fresh => Accepts(Lenient(d.lag), false, chunk)
    case Ready(_) => Accepts(Lenient(d.lag), true, chunk)
    case Held(_) =>
      if chunk == [] then true
      else if chunk[0].SchemaMsg? then (d.lag && |chunk| == 1) || Accepts(Lenient(d.lag), false, chunk)
      else Accepts(Lenient(d.lag), true, chunk)
    case Doubled(_) => TakesRefusing(d.lag, chunk)
    case Finished(_) => TakesRefusing(d.lag, chunk)
    case Broken => false
  }

  lemma {:induction false} RefusingTakesIff(d: Decoder, chunk: Buffer)
    requires d.state.Doubled? || (d.state.Finished? && d.state.last.Some?)
    ensures Drive(d, chunk).Ok? <==> TakesRefusing(d.lag, chunk)
    decreases |chunk|
  {
    if chunk != [] {
      match chunk[0]
      case Eos => MarkerTaken(d, chunk);
      case SchemaMsg(_) =>
        assert Iterate(d, chunk) == Again(d, chunk[1..], []);
        RefusingTakesIff(d, chunk[1..]);
      case BatchMsg(_) =>
        assert Iterate(d, chunk) == Again(d.Reset(), chunk, []);
        DriveDelivers(d.Reset(), chunk);
    }
  }

  lemma MarkerTaken(d: Decoder, chunk: Buffer)
    requires chunk != [] && chunk[0].Eos?
    ensures Drive(d, chunk).Ok? <==> Accepts(Lenient(d.lag), false, chunk[1..])
  {
    if |chunk| == 1 {
      assert chunk[1..] == [] && Drive(d, chunk) == Ok(d, []);
    } else {
      assert Iterate(d, chunk) == Again(d.Reset(), chunk[1..], []);
      DriveDelivers(d.Reset(), chunk[1..]);
    }
  }

  /** From every state between calls, driving a chunk succeeds exactly if the decoder takes it. */
  lemma TakesIff(d: Decoder, chunk: Buffer)
    requires BetweenCalls(d)
    ensures Drive(d, chunk).Ok? <==> Takes(d, chunk)
  {
    match d.state
    case Fresh => DriveDelivers(d, chunk);
    case Ready(_) => DriveDelivers(d, chunk);
    case Doubled(_) => RefusingTakesIff(d, chunk);
    case Finished(_) => RefusingTakesIff(d, chunk);
    case Broken =>
    case Held(s) =>
      if chunk != [] {
        if chunk[0].Eos? {
          MarkerTaken(d, chunk);
        } else if chunk[0].BatchMsg? {
          DecodeBatch(d, s, chunk);
          DriveDelivers(d.(state := Ready(s)), chunk[1..]);
        } else {
          assert Decode(d, chunk) == Decode(d.(state := Ready(s)), chunk);
          if !(d.lag && |chunk| == 1) {
            assert Iterate(d, chunk) == Again(d.Reset(), chunk, []);
            DriveDelivers(d.Reset(), chunk);
          }
        }
      }
  }

  /** The decoder a chunk that is taken leaves. */
  function DecoderAfter(d: Decoder, chunk: Buffer): Decoder {
    if Drive(d, chunk).Ok? then Drive(d, chunk).decoder else d
  }

  /** Chunk by chunk, a decoder takes the whole cut. */
  predicate TakesCut(d: Decoder, chunks: seq<Buffer>)
    decreases |chunks|
  {
    chunks == [] || (Takes(d, chunks[0]) && TakesCut(DecoderAfter(d, chunks[0]), chunks[1..]))
  }

  /** A streaming rowset on a source that only hands out chunks. */
  ghost predicate Healthy(r: Inner)
  {
    && r.Streaming? && r.leftover.None? && BetweenCalls(r.decoder)
    && (forall i :: 0 <= i < |r.source| ==> r.source[i].Bytes?)
    && (r.exhausted ==> r.source == [])
  }

  /** A pull moves on if and only if the decoder takes the next chunk. */
  lemma PullTakes(r: Inner)
    requires Healthy(r) && !r.exhausted
    ensures Pull(r).Moved? <==> r.source == [] || Takes(r.decoder, r.source[0].chunk)
    ensures Pull(r).Moved? ==> Healthy(Pull(r).inner)
    ensures Pull(r).Moved? ==>
              (TakesCut(r.decoder, Chunks(r.source)) <==> TakesCut(Pull(r).inner.decoder, Chunks(Pull(r).inner.source)))
  {
    if r.source != [] {
      var chunk := r.source[0].chunk;
      TakesIff(r.decoder, chunk);
      assert Chunks(r.source) == [chunk] + Chunks(r.source[1..]);
      assert Chunks(r.source)[1..] == Chunks(r.source[1..]);
      if chunk == [] {
        assert Drive(r.decoder, chunk) == Ok(r.decoder, []);
      } else if Drive(r.decoder, chunk).Ok? {
        HidesIff(r.decoder, chunk);
      }
    }
  }

  ghost predicate EndsWell(end: Called) {
    end.Called? && end.reply.NoMore?
  }

  lemma {:induction false} DrainTakes(r: Inner)
    requires Healthy(r)
    ensures EndsWell(Drain(r).end) <==> TakesCut(r.decoder, Chunks(r.source))
    decreases Remaining(r), |r.pending|
  {
    if r.pending != [] {
      DrainTakes(r.(pending := r.pending[1..]));
    } else if !r.exhausted {
      PullTakes(r);
      if Pull(r).Moved? {
        DrainTakes(Pull(r).inner);
      } else {
        assert Chunks(r.source)[0] == r.source[0].chunk;
      }
    }
  }

  lemma {:induction false} PrimeTakes(r: Inner)
    requires Healthy(r)
    ensures Prime(r).Primed? && EndsWell(Drain(Prime(r).inner).end) <==> TakesCut(r.decoder, Chunks(r.source))
    decreases Remaining(r)
  {
    if r.decoder.Schema().Some? || r.exhausted {
      DrainTakes(r);
    } else {
      PullTakes(r);
      if Pull(r).Moved? {
        PrimeTakes(Pull(r).inner);
      } else {
        assert Chunks(r.source)[0] == r.source[0].chunk;
      }
    }
  }

  /**
    For every cut, of accepted and rejected results alike: the lazy form is built and reads to
    the end if and only if a decoder kept across the chunks takes each of them.
   */
  lemma LazyAcceptsIff(lag: bool, chunks: seq<Buffer>)
    ensures LazyAccepts(lag, chunks) <==> TakesCut(NewDecoder(lag), chunks)
  {
    ChunksOfItems(chunks);
    PrimeTakes(Streaming(Items(chunks), NewDecoder(lag), [], None, false));
  }

  // ---------------------------------------------------------------------------
  // The reported schema
  // ---------------------------------------------------------------------------

  /** Message `i` opens a stream. */
  predicate OpensAt(msgs: Buffer, i: nat)
    requires i <= |msgs|
  {
    i == 0 || msgs[i - 1].Eos?
  }

  /** The last message opens a stream: a doubled or lone marker, or a schema not yet acted on. */
  predicate EndsBare(lag: bool, msgs: Buffer)
  {
    && msgs != [] && OpensAt(msgs, |msgs| - 1)
    && (msgs[|msgs| - 1].Eos? || (lag && msgs[|msgs| - 1].SchemaMsg?))
  }

  /** An empty stream comes last, and a decoder with `lag` reads it. */
  predicate EndsEmpty(lag: bool, msgs: Buffer)
  {
    var n := |msgs|;
    lag && n >= 2 && OpensAt(msgs, n - 2) && msgs[n - 2].SchemaMsg? && msgs[n - 1].Eos?
  }

  predicate MarkersThenOne(msgs: Buffer) {
    forall i :: 0 <= i && i + 1 < |msgs| ==> msgs[i].Eos?
  }

  lemma FromFresh(lag: bool, msgs: Buffer)
    requires FromBuffer(lag, msgs).Built? && msgs != []
    ensures var d := Drive(NewDecoder(lag), msgs).decoder; d.Schema().None? <==> EndsBare(lag, msgs)
  {
    HidesIff(NewDecoder(lag), msgs);
    BufferedDelivers(lag, msgs);
  }

  /** The buffered form shows the schema unless the last message opens a stream. */
  lemma BufferedSchema(lag: bool, s: Schema, msgs: Buffer)
    requires FromBuffer(lag, msgs).Built? && OneSchema(s, false, msgs)
    ensures FromBuffer(lag, msgs).schema == if msgs == [] || EndsBare(lag, msgs) then EMPTY_SCHEMA else s
  {
    if msgs != [] {
      var d := NewDecoder(lag);
      FromFresh(lag, msgs);
      BufferedDelivers(lag, msgs);
      assert msgs + [] == msgs;
      DriveChunk(Lenient(lag), d, msgs, []);
      UniformWhole(lag, s, None, msgs);
    }
  }

  /** In an accepted result an empty stream comes last. */
  lemma {:induction false} EmptyStreamIsLast(lag: bool, started: bool, msgs: Buffer, i: nat)
    requires Accepts(Lenient(lag), started, msgs)
    requires i + 1 < |msgs| && msgs[i].SchemaMsg? && msgs[i + 1].Eos?
    requires if i == 0 then !started else msgs[i - 1].Eos?
    ensures i + 2 == |msgs|
    decreases |msgs|
  {
    if i > 0 {
      var step := if !started && !msgs[0].Eos? then 2 else 1;
      assert step == 2 ==> |msgs| > 2 && msgs[1].BatchMsg? && i > 1;
      assert msgs[step..][i - step] == msgs[i] && msgs[step..][i + 1 - step] == msgs[i + 1];
      if i > step { assert msgs[step..][i - step - 1] == msgs[i - 1]; }
      EmptyStreamIsLast(lag, if msgs[0].Eos? then false else true, msgs[step..], i - step);
    }
  }

  /** What a decoder without a visible schema says about the messages `done` so far. */
  ghost predicate Tracks(d: Decoder, done: Buffer)
  {
    && BetweenCalls(d)
    && (d.state.Fresh? ==> OpensAt(done, |done|) && (done != [] ==> EndsBare(d.lag, done)))
    && (d.state.Held? ==> EndsEmpty(d.lag, done) || (EndsBare(d.lag, done) && done[|done| - 1].SchemaMsg?))
  }

  lemma TracksOn(d: Decoder, done: Buffer, chunk: Buffer, rest: Buffer)
    requires Tracks(d, done) && chunk != [] && Drive(d, chunk).Ok?
    requires Accepts(Lenient(d.lag), false, done + chunk + rest)
    ensures Tracks(Drive(d, chunk).decoder, done + chunk)
  {
    HidesIff(d, chunk);
    var all, n := done + chunk, |done| + |chunk|;
    assert all[n - 1] == chunk[|chunk| - 1];
    if |chunk| > 1 {
      assert all[n - 2] == chunk[|chunk| - 2];
    } else if d.state.Held? && chunk[0].Eos? {
      if EndsEmpty(d.lag, done) {
        var msgs := all + rest;
        assert msgs[|done| - 2] == done[|done| - 2] && msgs[|done| - 1] == done[|done| - 1];
        if |done| > 2 { assert msgs[|done| - 3] == done[|done| - 3]; }
        EmptyStreamIsLast(d.lag, false, msgs, |done| - 2);
      } else {
        assert all[n - 2] == done[|done| - 1];
        if |done| > 1 { assert all[n - 3] == done[|done| - 2]; }
      }
    } else if d.state.Fresh? && done != [] {
      assert all[n - 2] == done[|done| - 1];
    }
  }

  /** A streaming rowset that has consumed `done` of an accepted result with one schema. */
  ghost predicate OnTrack(lag: bool, s: Schema, r: Inner, done: Buffer)
  {
    && Good(Lenient(lag), r) && Tracks(r.decoder, done)
    && Uniform(lag, s, Current(r.decoder), Flatten(Chunks(r.source)))
    && Accepts(Lenient(lag), false, done + Flatten(Chunks(r.source)))
  }

  lemma PullOnTrack(lag: bool, s: Schema, r: Inner, done: Buffer) returns (next: Buffer)
    requires OnTrack(lag, s, r, done) && !r.exhausted
    ensures Pull(r).Moved? && OnTrack(lag, s, Pull(r).inner, next)
    ensures next + Flatten(Chunks(Pull(r).inner.source)) == done + Flatten(Chunks(r.source))
  {
    PullKeeps(Lenient(lag), r);
    next := done;
    if r.source != [] {
      var chunk, rest := r.source[0].chunk, Flatten(Chunks(r.source[1..]));
      assert Flatten(Chunks(r.source)) == chunk + rest;
      if chunk == [] {
        assert chunk + rest == rest;
      } else {
        next := done + chunk;
        assert done + (chunk + rest) == next + rest;
        FeedOnTrack(lag, s, r.decoder, done, chunk, rest);
      }
    }
  }

  lemma FeedOnTrack(lag: bool, s: Schema, d: Decoder, done: Buffer, chunk: Buffer, rest: Buffer)
    requires Fits(Lenient(lag), d, chunk + rest) && chunk != [] && Tracks(d, done)
    requires Uniform(lag, s, Current(d), chunk + rest)
    requires Accepts(Lenient(lag), false, done + chunk + rest)
    ensures Drive(d, chunk).Ok?
    ensures Tracks(Drive(d, chunk).decoder, done + chunk)
    ensures Uniform(lag, s, Current(Drive(d, chunk).decoder), rest)
  {
    DriveChunk(Lenient(lag), d, chunk, rest);
    UniformChunk(lag, s, Current(d), chunk, rest);
    TracksOn(d, done, chunk, rest);
  }

  /** Priming ends without a schema only if the last stream is bare or empty. */
  lemma {:induction false} PrimeShows(lag: bool, s: Schema, r: Inner, done: Buffer)
    requires OnTrack(lag, s, r, done)
    ensures Prime(r).Primed?
    ensures var d, msgs := Prime(r).inner.decoder, done + Flatten(Chunks(r.source));
            && d.Schema() in {None, Some(s)}
            && (d.Schema().None? ==> msgs == [] || EndsBare(lag, msgs) || EndsEmpty(lag, msgs))
    decreases Remaining(r)
  {
    if r.decoder.Schema().None? && !r.exhausted {
      var next := PullOnTrack(lag, s, r, done);
      PrimeShows(lag, s, Pull(r).inner, next);
    } else if r.exhausted {
      assert done + Flatten(Chunks(r.source)) == done;
    }
  }

  lemma LazySchemaOf(lag: bool, s: Schema, chunks: seq<Buffer>)
    requires FromBuffer(lag, Flatten(chunks)).Built? && OneSchema(s, false, Flatten(chunks))
    ensures var msgs, lazy := Flatten(chunks), FromStream(lag, Items(chunks));
            && lazy.Built? && (lazy.schema == EMPTY_SCHEMA || lazy.schema == s)
            && (msgs != [] && !EndsBare(lag, msgs) && !EndsEmpty(lag, msgs) ==> lazy.schema == s)
  {
    var r := Streaming(Items(chunks), NewDecoder(lag), [], None, false);
    ChunksOfItems(chunks);
    BufferedDelivers(lag, Flatten(chunks));
    assert [] + Flatten(chunks) == Flatten(chunks);
    PrimeShows(lag, s, r, []);
  }

  // ---------------------------------------------------------------------------
  // Cuts that hide or show the schema
  // ---------------------------------------------------------------------------

  /** Two chunks, and what priming does with the first. */
  lemma PrimeFirst(lag: bool, a: Buffer, b: Buffer)
    requires FromBuffer(lag, a + b).Built? && a != []
    ensures Flatten([a, b]) == a + b && Drive(NewDecoder(lag), a).Ok?
    ensures var run, r := Drive(NewDecoder(lag), a), Streaming(Items([a, b]), NewDecoder(lag), [], None, false);
            Prime(r) == Prime(Streaming([Bytes(b)], run.decoder, run.out, None, false))
  {
    var chunks, d := [a, b], NewDecoder(lag);
    assert chunks[1..] == [b] && [b][1..] == [];
    assert Flatten(chunks) == a + Flatten([b]) == a + (b + Flatten([b][1..])) == a + (b + []) == a + b;
    BufferedDelivers(lag, a + b);
    DriveChunk(Lenient(lag), d, a, b);
    var r := Streaming(Items(chunks), d, [], None, false);
    assert Items(chunks) == [Bytes(a)] + Items([b]) && Items([b]) == [Bytes(b)] + Items([b][1..]) == [Bytes(b)];
    assert r.source[1..] == [Bytes(b)];
    assert [] + Drive(d, a).out == Drive(d, a).out;
  }

  /** A last empty stream, cut before its marker: the lazy form never sees the schema. */
  lemma EmptyStreamHidden(lag: bool, msgs: Buffer)
    requires FromBuffer(lag, msgs).Built? && EndsEmpty(lag, msgs)
    ensures var chunks := [msgs[..|msgs| - 1], [Eos]];
            && Flatten(chunks) == msgs
            && FromStream(lag, Items(chunks)).Built? && FromStream(lag, Items(chunks)).schema == EMPTY_SCHEMA
  {
    var n := |msgs|;
    var a, d := msgs[..n - 1], NewDecoder(lag);
    assert a + [Eos] == msgs;
    PrimeFirst(lag, a, [Eos]);
    HidesIff(d, a);
    assert Hides(d, a) by {
      assert a[n - 2] == msgs[n - 2];
      if n > 2 { assert a[n - 3] == msgs[n - 3]; }
    }
    PrimeMarker(Drive(d, a).decoder, Drive(d, a).out);
  }

  /** A lone marker changes nothing in the decoder. */
  lemma PrimeMarker(d: Decoder, pending: seq<Decoded>)
    requires d.Schema().None?
    ensures Prime(Streaming([Bytes([Eos])], d, pending, None, false)) ==
            Primed(Streaming([], d, pending, None, true))
  {
    var r := Streaming([Bytes([Eos])], d, pending, None, false);
    assert [Eos][1..] == [] && Drive(d, [Eos]) == Ok(d, []);
    assert r.source[1..] == [] && pending + [] == pending;
    var r' := Streaming([], d, pending, None, false);
    assert Pull(r) == Moved(r') && Pull(r') == Moved(r'.(exhausted := true));
    assert Prime(r) == Prime(r') == Prime(r'.(exhausted := true));
  }

  /** The first batch of a result that ends bare but holds more than markers before. */
  lemma {:induction false} FirstBatch(lag: bool, msgs: Buffer) returns (k: nat)
    requires Accepts(Lenient(lag), false, msgs) && EndsBare(lag, msgs) && !MarkersThenOne(msgs)
    ensures k + 1 < |msgs| && msgs[k].SchemaMsg? && msgs[k + 1].BatchMsg?
    decreases |msgs|
  {
    if msgs[0].Eos? {
      assert EndsBare(lag, msgs[1..]) && !MarkersThenOne(msgs[1..]) by {
        var i :| 0 <= i && i + 1 < |msgs| && !msgs[i].Eos?;
        assert msgs[1..][i - 1] == msgs[i];
        assert msgs[|msgs| - 2] == msgs[1..][|msgs| - 3];
      }
      var j := FirstBatch(lag, msgs[1..]);
      k := j + 1;
    } else {
      k := 0;
    }
  }

  /** Cut after its first batch, such a result shows its schema. */
  lemma BareStreamShown(lag: bool, s: Schema, msgs: Buffer) returns (chunks: seq<Buffer>)
    requires FromBuffer(lag, msgs).Built? && OneSchema(s, false, msgs)
    requires EndsBare(lag, msgs) && !MarkersThenOne(msgs)
    ensures Flatten(chunks) == msgs
    ensures FromStream(lag, Items(chunks)).Built? && FromStream(lag, Items(chunks)).schema == s
  {
    BufferedDelivers(lag, msgs);
    var k := FirstBatch(lag, msgs);
    var a, b, d := msgs[..k + 2], msgs[k + 2..], NewDecoder(lag);
    chunks := [a, b];
    assert a + b == msgs;
    PrimeFirst(lag, a, b);
    HidesIff(d, a);
    DriveChunk(Lenient(lag), d, a, b);
    UniformChunk(lag, s, None, a, b);
  }

  /** Nothing but markers, and at the end perhaps a schema not acted on: no cut shows a schema. */
  lemma {:induction false} PrimeHides(lag: bool, r: Inner)
    requires Good(Lenient(lag), r) && r.decoder.Schema().None?
    requires var ahead := Flatten(Chunks(r.source));
             MarkersThenOne(ahead) && (ahead != [] ==> r.decoder.state.Fresh? && EndsBare(lag, ahead))
    ensures Prime(r).Primed? && Prime(r).inner.decoder.Schema().None?
    decreases Remaining(r)
  {
    if !r.exhausted {
      PullKeeps(Lenient(lag), r);
      if r.source != [] {
        var chunk, rest := r.source[0].chunk, Flatten(Chunks(r.source[1..]));
        assert Flatten(Chunks(r.source)) == chunk + rest;
        if chunk == [] {
          assert chunk + rest == rest;
        } else {
          FeedHides(lag, r.decoder, chunk, rest);
        }
      }
      PrimeHides(lag, Pull(r).inner);
    }
  }

  lemma FeedHides(lag: bool, d: Decoder, chunk: Buffer, rest: Buffer)
    requires Fits(Lenient(lag), d, chunk + rest) && d.state.Fresh? && chunk != []
    requires MarkersThenOne(chunk + rest) && EndsBare(lag, chunk + rest)
    ensures Drive(d, chunk).Ok? && Drive(d, chunk).decoder.Schema().None?
    ensures MarkersThenOne(rest)
    ensures rest != [] ==> Drive(d, chunk).decoder.state.Fresh? && EndsBare(lag, rest)
  {
    var all := chunk + rest;
    DriveChunk(Lenient(lag), d, chunk, rest);
    HidesIff(d, chunk);
    assert forall i :: 0 <= i < |chunk| ==> all[i] == chunk[i];
    assert forall i :: 0 <= i < |rest| ==> all[|chunk| + i] == rest[i];
    if rest != [] {
      assert chunk[|chunk| - 1].Eos?;
    }
  }

  // ---------------------------------------------------------------------------
  // The exact condition
  // ---------------------------------------------------------------------------

  ghost predicate ReportsAlike(lag: bool, chunks: seq<Buffer>)
  {
    var lazy, buffered := FromStream(lag, Items(chunks)), FromBuffer(lag, Flatten(chunks));
    lazy.Built? && buffered.Built? && lazy.schema == buffered.schema
  }

  ghost predicate ReportsAlikeUnderEveryCut(lag: bool, msgs: Buffer)
  {
    forall chunks :: Flatten(chunks) == msgs ==> ReportsAlike(lag, chunks)
  }

  /**
    On accepted messages with one schema, every cut reports the buffered form's schema if and only
    if that schema is empty, or there is nothing but markers before the last message, or the last
    message does not open a stream and, for a decoder with `lag`, the last stream is not empty.
   */
  lemma ReportsAlikeIff(lag: bool, s: Schema, msgs: Buffer)
    requires FromBuffer(lag, msgs).Built? && OneSchema(s, false, msgs)
    ensures ReportsAlikeUnderEveryCut(lag, msgs) <==>
            (s == EMPTY_SCHEMA || MarkersThenOne(msgs) || (!EndsBare(lag, msgs) && !EndsEmpty(lag, msgs)))
  {
    BufferedSchema(lag, s, msgs);
    if s == EMPTY_SCHEMA || MarkersThenOne(msgs) || (!EndsBare(lag, msgs) && !EndsEmpty(lag, msgs)) {
      forall chunks | Flatten(chunks) == msgs ensures ReportsAlike(lag, chunks) {
        LazySchemaOf(lag, s, chunks);
        if msgs == [] || (MarkersThenOne(msgs) && EndsBare(lag, msgs)) {
          MarkersReportNothing(lag, chunks);
        } else if MarkersThenOne(msgs) && |msgs| > 1 {
          assert msgs[|msgs| - 2].Eos?;
        }
      }
    } else if EndsBare(lag, msgs) {
      var chunks := BareStreamShown(lag, s, msgs);
      assert !ReportsAlike(lag, chunks);
    } else {
      EmptyStreamHidden(lag, msgs);
      assert !ReportsAlike(lag, [msgs[..|msgs| - 1], [Eos]]);
    }
  }

  lemma MarkersReportNothing(lag: bool, chunks: seq<Buffer>)
    requires FromBuffer(lag, Flatten(chunks)).Built?
    requires MarkersThenOne(Flatten(chunks))
    requires Flatten(chunks) != [] ==> EndsBare(lag, Flatten(chunks))
    ensures FromStream(lag, Items(chunks)).Built? && FromStream(lag, Items(chunks)).schema == EMPTY_SCHEMA
  {
    ChunksOfItems(chunks);
    BufferedDelivers(lag, Flatten(chunks));
    PrimeHides(lag, Streaming(Items(chunks), NewDecoder(lag), [], None, false));
  }
}
