/**
  The lazy rowset delivers what the buffered one delivers.

  A result is a run of IPC streams. It is cut into chunks at message boundaries, anywhere, with
  empty chunks allowed; the streaming rowset keeps one decoder across the chunks, while the
  buffered one decodes the glued messages.
 */
module LazyAgreement {
  import opened Common
  import opened ArrowIpc
  import opened DecoderDriver
  import opened RowsetSpec

  // ---------------------------------------------------------------------------
  // Reference definitions on the message sequence
  // ---------------------------------------------------------------------------

  /** Strict: every stream holds a batch, and no marker follows a marker. */
  datatype Mode = Strict | Lenient(lag: bool)

  /**
    The message sequences the buffered form accepts; those a decoder with or without `lag` takes,
    or only the strict ones. `started` says a schema is installed.
   */
  predicate Accepts(mode: Mode, started: bool, msgs: Buffer)
    decreases |msgs|
  {
    if msgs == [] then true
    else if msgs[0].Eos? then (started || mode.Lenient?) && Accepts(mode, false, msgs[1..])
    else if started then Accepts(mode, true, msgs[1..])
    else
      && msgs[0].SchemaMsg?
      && (if |msgs| > 1 && msgs[1].BatchMsg? then Accepts(mode, true, msgs[2..])
          else mode.Lenient? && (|msgs| == 1 || (|msgs| == 2 && (msgs[1].Eos? || mode.lag))))
  }

  /** One or more glued streams, each a schema, at least one batch and an optional marker. */
  predicate Streams(msgs: Buffer) {
    Accepts(Strict, false, msgs)
  }

  /** Every schema that opens a stream is `s`; repeated schemas inside a stream are skipped. */
  predicate OneSchema(s: Schema, started: bool, msgs: Buffer)
    decreases |msgs|
  {
    if msgs == [] then true
    else match msgs[0]
      case Eos => OneSchema(s, false, msgs[1..])
      case SchemaMsg(x) => (started || x == s) && OneSchema(s, true, msgs[1..])
      case BatchMsg(_) => OneSchema(s, started, msgs[1..])
  }

  /** The batches, each under the schema that opened its stream. */
  function Deliver(current: Option<Schema>, msgs: Buffer): seq<Decoded>
    decreases |msgs|
  {
    if msgs == [] then []
    else match msgs[0]
      case Eos => Deliver(None, msgs[1..])
      case SchemaMsg(x) => Deliver(if current.None? then Some(x) else current, msgs[1..])
      case BatchMsg(b) =>
        (if current.None? then [] else [Decoded(current.value, b)]) + Deliver(current, msgs[1..])
  }

  /** What one chunk adds, and the schema in force after it. */
  datatype Piece = Piece(out: seq<Decoded>, current: Option<Schema>)

  /** As `Deliver`, except that a marker which ends its chunk leaves the schema in force. */
  function DeliverChunk(current: Option<Schema>, chunk: Buffer): Piece
    decreases |chunk|
  {
    if chunk == [] then Piece([], current)
    else match chunk[0]
      case Eos => DeliverChunk(if |chunk| == 1 then current else None, chunk[1..])
      case SchemaMsg(x) => DeliverChunk(if current.None? then Some(x) else current, chunk[1..])
      case BatchMsg(b) =>
        var p := DeliverChunk(current, chunk[1..]);
        Piece((if current.None? then [] else [Decoded(current.value, b)]) + p.out, p.current)
  }

  /** What a decoder kept across the chunks delivers. */
  function DeliverCut(current: Option<Schema>, chunks: seq<Buffer>): seq<Decoded>
    decreases |chunks|
  {
    if chunks == [] then []
    else
      var p := DeliverChunk(current, chunks[0]);
      p.out + DeliverCut(p.current, chunks[1..])
  }

  /** All batches, under one schema. */
  function Under(s: Schema, msgs: Buffer): seq<Decoded>
  {
    if msgs == [] then []
    else (if msgs[0].BatchMsg? then [Decoded(s, msgs[0].batch)] else []) + Under(s, msgs[1..])
  }

  // ---------------------------------------------------------------------------
  // The buffered form, on all inputs
  // ---------------------------------------------------------------------------

  /** Accepting is exactly succeeding, and success delivers the reference batches. */
  lemma {:induction false} DriveDelivers(d: Decoder, msgs: Buffer)
    requires d.state.Fresh? || d.state.Ready?
    ensures Drive(d, msgs).Ok? <==> Accepts(Lenient(d.lag), d.state.Ready?, msgs)
    ensures Drive(d, msgs).Ok? ==> Drive(d, msgs).out == Deliver(d.Schema(), msgs)
    decreases |msgs|
  {
    if msgs == [] {
    } else if msgs[0].Eos? {
      if |msgs| == 1 {
        assert msgs[1..] == [] && Drive(d, []) == Ok(d, []);
      } else {
        DriveDelivers(d.Reset(), msgs[1..]);
      }
    } else if d.state.Ready? {
      if msgs[0].BatchMsg? { DecodeBatch(d, d.state.ready, msgs); }
      DriveDelivers(d, msgs[1..]);
    } else if msgs[0].SchemaMsg? {
      DecodeOpening(d, msgs);
      if |msgs| > 1 && msgs[1].BatchMsg? {
        assert msgs[1..][1..] == msgs[2..];
        DriveDelivers(d.(state := Ready(msgs[0].schema)), msgs[2..]);
      } else if |msgs| > 1 {
        if |msgs| == 2 { assert msgs[1..][1..] == [] && Deliver(Some(msgs[0].schema), msgs[1..]) == []; }
      }
    }
  }

  /**
    `from_bytes` succeeds exactly on the accepted sequences, whatever their schemas, and then
    holds every batch, in order, under the schema that opened its stream.
   */
  lemma BufferedDelivers(lag: bool, msgs: Buffer)
    ensures FromBuffer(lag, msgs).Built? <==> Accepts(Lenient(lag), false, msgs)
    ensures FromBuffer(lag, msgs).Built? ==>
              FromBuffer(lag, msgs).inner == Buffered(Deliver(None, msgs), 0)
  {
    DriveDelivers(NewDecoder(lag), msgs);
  }

  /** The batches before the first one that no schema covers. */
  function BeforeFailure(current: Option<Schema>, msgs: Buffer): seq<Decoded>
    decreases |msgs|
  {
    if msgs == [] then []
    else match msgs[0]
      case Eos => BeforeFailure(None, msgs[1..])
      case SchemaMsg(x) => BeforeFailure(if current.None? then Some(x) else current, msgs[1..])
      case BatchMsg(b) =>
        if current.None? then [] else [Decoded(current.value, b)] + BeforeFailure(current, msgs[1..])
  }

  /** A failing drive has delivered every batch before the failure, and leaves a broken decoder. */
  lemma {:induction false} DriveFails(d: Decoder, msgs: Buffer)
    requires d.state.Fresh? || d.state.Ready?
    requires Drive(d, msgs).Err?
    ensures Drive(d, msgs).out == BeforeFailure(d.Schema(), msgs)
    ensures Drive(d, msgs).decoder.state.Broken?
    decreases |msgs|
  {
    if msgs[0].Eos? {
      if |msgs| == 1 {
        assert msgs[1..] == [] && Drive(d, []) == Ok(d, []);
      } else {
        DriveFails(d.Reset(), msgs[1..]);
      }
    } else if d.state.Ready? {
      if msgs[0].BatchMsg? { DecodeBatch(d, d.state.ready, msgs); }
      DriveFails(d, msgs[1..]);
    } else if msgs[0].SchemaMsg? {
      DecodeOpening(d, msgs);
      if |msgs| > 1 && msgs[1].BatchMsg? {
        assert msgs[1..][1..] == msgs[2..];
        DriveFails(d.(state := Ready(msgs[0].schema)), msgs[2..]);
      }
    }
  }

  // ---------------------------------------------------------------------------
  // One chunk
  // ---------------------------------------------------------------------------

  /** The schema the decoder will use next; a held schema counts, it only is not visible yet. */
  function Current(d: Decoder): Option<Schema>
  {
    match d.state
    case Held(s) => Some(s)
    case Ready(s) => Some(s)
    case Doubled(s) => Some(s)
    case Finished(last) => last
    case _ => None
  }

  /** Decoder `d` is a good continuation for the messages still to come. */
  ghost predicate Fits(mode: Mode, d: Decoder, msgs: Buffer)
  {
    && (mode.Lenient? ==> mode.lag == d.lag)
    && (match d.state
        case Fresh => Accepts(mode, false, msgs)
        case Held(_) =>
          if msgs != [] && msgs[0].BatchMsg? then Accepts(mode, true, msgs)
          else mode.Lenient? && d.lag && |msgs| <= 1
        case Ready(_) => Accepts(mode, true, msgs)
        case Doubled(_) => mode.Lenient? && msgs == []
        case Finished(_) => mode.Lenient? && msgs == []
        case Broken => false)
  }

  /** A decoder that already has a schema fits wherever a fresh one does. */
  lemma KeptDecoderFits(mode: Mode, msgs: Buffer)
    requires Accepts(mode, false, msgs)
    ensures Accepts(mode, true, msgs)
  {
    if msgs != [] && msgs[0].SchemaMsg? {
      if |msgs| > 1 { assert msgs[1..][1..] == msgs[2..]; }
    }
  }

  /** What driving `chunk` with `rest` still to come achieves. */
  ghost predicate Drives(mode: Mode, d: Decoder, chunk: Buffer, rest: Buffer)
  {
    var run, p := Drive(d, chunk), DeliverChunk(Current(d), chunk);
    && run.Ok?
    && run.out == p.out
    && Current(run.decoder) == p.current
    && Fits(mode, run.decoder, rest)
    && (mode.Strict? && chunk != [] ==> !run.decoder.state.Fresh?)
  }

  /** Driving one chunk of an accepted result never fails, loops or loses a batch. */
  lemma {:induction false} DriveChunk(mode: Mode, d: Decoder, chunk: Buffer, rest: Buffer)
    requires Fits(mode, d, chunk + rest)
    ensures Drives(mode, d, chunk, rest)
    decreases |chunk|, 1
  {
    var msgs := chunk + rest;
    if chunk == [] {
      assert msgs == rest;
    } else {
      assert msgs[0] == chunk[0] && msgs[1..] == chunk[1..] + rest;
      if chunk[0].Eos? {
        DriveMarker(mode, d, chunk, rest);
      } else if d.state.Fresh? {
        DriveOpening(mode, d, chunk, rest);
      } else if d.state.Held? && chunk[0].SchemaMsg? {
        DriveSecondSchema(mode, d, chunk, rest);
      } else if chunk[0].SchemaMsg? {
        DriveRepeatedSchema(mode, d, chunk, rest);
      } else {
        DriveBatch(mode, d, chunk, rest);
      }
    }
  }

  lemma {:induction false} DriveRepeatedSchema(mode: Mode, d: Decoder, chunk: Buffer, rest: Buffer)
    requires d.state.Ready? && chunk != [] && chunk[0].SchemaMsg?
    requires Fits(mode, d, chunk + rest)
    ensures Drives(mode, d, chunk, rest)
    decreases |chunk|, 0
  {
    var tail := chunk[1..];
    assert (chunk + rest)[1..] == tail + rest && (chunk + rest)[0] == chunk[0];
    DriveChunk(mode, d, tail, rest);
    assert Iterate(d, chunk) == Again(d, tail, []);
    assert tail == [] ==> Drive(d, tail) == Ok(d, []);
    assert [] + Drive(d, tail).out == Drive(d, tail).out;
    assert DeliverChunk(Current(d), chunk) == DeliverChunk(Current(d), tail);
  }

  lemma {:induction false} DriveBatch(mode: Mode, d: Decoder, chunk: Buffer, rest: Buffer)
    requires (d.state.Ready? || d.state.Held?) && chunk != [] && chunk[0].BatchMsg?
    requires Fits(mode, d, chunk + rest)
    ensures Drives(mode, d, chunk, rest)
    decreases |chunk|, 0
  {
    var s := Current(d).value;
    assert (chunk + rest)[1..] == chunk[1..] + rest && (chunk + rest)[0] == chunk[0];
    DecodeBatch(d, s, chunk);
    DriveChunk(mode, d.(state := Ready(s)), chunk[1..], rest);
  }

  /** A second schema after a held one ends an accepted result. */
  lemma DriveSecondSchema(mode: Mode, d: Decoder, chunk: Buffer, rest: Buffer)
    requires d.state.Held? && chunk != [] && chunk[0].SchemaMsg?
    requires Fits(mode, d, chunk + rest)
    ensures Drives(mode, d, chunk, rest)
  {
    assert chunk == [chunk[0]] && chunk[1..] == [] && rest == [];
    var s := d.state.held;
    assert Decode(d, chunk) == Decode(d.(state := Ready(s)), chunk);
    assert Drive(d, chunk) == Ok(d.(state := Doubled(s)), []);
  }

  /** A marker at the head: the decoder is replaced only if bytes follow in this chunk. */
  lemma {:induction false} DriveMarker(mode: Mode, d: Decoder, chunk: Buffer, rest: Buffer)
    requires chunk != [] && chunk[0].Eos?
    requires Fits(mode, d, chunk + rest)
    ensures Drives(mode, d, chunk, rest)
    decreases |chunk|, 0
  {
    assert (chunk + rest)[1..] == chunk[1..] + rest;
    if |chunk| == 1 {
      assert chunk[1..] == [] && chunk[1..] + rest == rest;
      assert Drive(d, chunk) == Drive(d, []).After([]);
      if d.state.Ready? { KeptDecoderFits(mode, rest); }
    } else {
      DriveChunk(mode, d.Reset(), chunk[1..], rest);
    }
  }

  /** A fresh decoder on the schema that opens a stream. */
  lemma {:induction false} DriveOpening(mode: Mode, d: Decoder, chunk: Buffer, rest: Buffer)
    requires chunk != [] && !chunk[0].Eos? && d.state.Fresh?
    requires Fits(mode, d, chunk + rest)
    ensures Drives(mode, d, chunk, rest)
    decreases |chunk|, 0
  {
    var msgs, s := chunk + rest, chunk[0].schema;
    assert msgs[1..] == chunk[1..] + rest;
    DecodeOpening(d, chunk);
    if |chunk| == 1 {
      assert msgs[1..] == rest && chunk[1..] == [];
      if rest != [] && rest[0].BatchMsg? { assert msgs[2..] == rest[1..]; }
    } else if chunk[1].BatchMsg? {
      assert msgs[2..] == chunk[2..] + rest && chunk[1..][1..] == chunk[2..];
      DriveChunk(mode, d.(state := Ready(s)), chunk[2..], rest);
      assert DeliverChunk(None, chunk) == DeliverChunk(Some(s), chunk[1..]);
    } else {
      assert rest == [] && chunk[1..] == [chunk[1]] && chunk[1..][1..] == [];
      assert DeliverChunk(Some(s), chunk[1..]) == DeliverChunk(Some(s), []);
    }
  }

  // ---------------------------------------------------------------------------
  // One schema
  // ---------------------------------------------------------------------------

  /** The part of a result with one schema that lies ahead of a decoder's current schema. */
  ghost predicate Uniform(lag: bool, s: Schema, current: Option<Schema>, msgs: Buffer)
  {
    && (current == None || current == Some(s))
    && Accepts(Lenient(lag), current.Some?, msgs)
    && OneSchema(s, current.Some?, msgs)
  }

  /** With one schema it does not matter which markers end a chunk. */
  lemma {:induction false} UniformChunk(lag: bool, s: Schema, current: Option<Schema>, chunk: Buffer, rest: Buffer)
    requires Uniform(lag, s, current, chunk + rest)
    ensures DeliverChunk(current, chunk).out == Under(s, chunk)
    ensures Uniform(lag, s, DeliverChunk(current, chunk).current, rest)
    decreases |chunk|
  {
    var msgs := chunk + rest;
    if chunk == [] {
      assert msgs == rest;
    } else {
      assert msgs[0] == chunk[0] && msgs[1..] == chunk[1..] + rest;
      if chunk[0].Eos? {
        KeptDecoderFits(Lenient(lag), msgs[1..]);
        assert OneSchema(s, true, msgs[1..]) by { KeptSchemaFits(s, msgs[1..]); }
        UniformChunk(lag, s, if |chunk| == 1 then current else None, chunk[1..], rest);
      } else {
        assert Accepts(Lenient(lag), true, msgs[1..]) by {
          if |msgs| > 1 { assert msgs[1..][1..] == msgs[2..]; }
        }
        UniformChunk(lag, s, Some(s), chunk[1..], rest);
      }
    }
  }

  lemma KeptSchemaFits(s: Schema, msgs: Buffer)
    requires OneSchema(s, false, msgs)
    ensures OneSchema(s, true, msgs)
    decreases |msgs|
  {
    if msgs != [] && msgs[0].BatchMsg? { KeptSchemaFits(s, msgs[1..]); }
  }

  lemma {:induction false} UnderConcat(s: Schema, a: Buffer, b: Buffer)
    ensures Under(s, a + b) == Under(s, a) + Under(s, b)
  {
    if a == [] {
      assert a + b == b;
    } else {
      assert (a + b)[1..] == a[1..] + b;
      UnderConcat(s, a[1..], b);
    }
  }

  // ---------------------------------------------------------------------------
  // One schema for all batches
  // ---------------------------------------------------------------------------

  /**
    Every batch lies in a stream opened by `s`. Streams without a batch may be opened by any
    schema.
   */
  predicate Covers(s: Schema, current: Option<Schema>, msgs: Buffer)
    decreases |msgs|
  {
    if msgs == [] then true
    else match msgs[0]
      case Eos => Covers(s, None, msgs[1..])
      case SchemaMsg(x) => Covers(s, if current.None? then Some(x) else current, msgs[1..])
      case BatchMsg(_) => current == Some(s) && Covers(s, current, msgs[1..])
  }

  /** What lies ahead of a decoder with this current schema; one opened by another is at its end. */
  ghost predicate Covered(lag: bool, s: Schema, current: Option<Schema>, msgs: Buffer)
  {
    && Accepts(Lenient(lag), current.Some?, msgs)
    && Covers(s, current, msgs)
    && (current == None || current == Some(s) || |msgs| <= 1)
  }

  lemma {:induction false} OneSchemaCovers(lag: bool, s: Schema, current: Option<Schema>, msgs: Buffer)
    requires Uniform(lag, s, current, msgs)
    ensures Covered(lag, s, current, msgs)
    decreases |msgs|
  {
    if msgs != [] {
      if msgs[0].Eos? {
        OneSchemaCovers(lag, s, None, msgs[1..]);
      } else {
        assert Accepts(Lenient(lag), true, msgs[1..]) by {
          if |msgs| > 1 { assert msgs[1..][1..] == msgs[2..]; }
        }
        OneSchemaCovers(lag, s, Some(s), msgs[1..]);
      }
    }
  }

  /** A kept schema does no harm if it is the one of the batches. */
  lemma {:induction false} KeptCovers(s: Schema, msgs: Buffer)
    requires Covers(s, None, msgs)
    ensures Covers(s, Some(s), msgs)
  {
    if msgs != [] && msgs[0].SchemaMsg? && msgs[0].schema != s {
      OtherCovers(s, msgs[0].schema, msgs[1..]);
    }
  }

  /** In a stream of another schema no batch comes before the next marker. */
  lemma {:induction false} OtherCovers(s: Schema, x: Schema, msgs: Buffer)
    requires x != s && Covers(s, Some(x), msgs)
    ensures Covers(s, Some(s), msgs)
    decreases |msgs|
  {
    if msgs != [] && msgs[0].SchemaMsg? { OtherCovers(s, x, msgs[1..]); }
  }

  lemma {:induction false} CoveredChunk(lag: bool, s: Schema, current: Option<Schema>, chunk: Buffer, rest: Buffer)
    requires Covered(lag, s, current, chunk + rest)
    ensures DeliverChunk(current, chunk).out == Under(s, chunk)
    ensures Covered(lag, s, DeliverChunk(current, chunk).current, rest)
    decreases |chunk|
  {
    var msgs := chunk + rest;
    if chunk == [] {
      assert msgs == rest;
    } else {
      assert msgs[0] == chunk[0] && msgs[1..] == chunk[1..] + rest;
      match chunk[0]
      case Eos =>
        KeptDecoderFits(Lenient(lag), msgs[1..]);
        KeptCovers(s, msgs[1..]);
        CoveredChunk(lag, s, if |chunk| == 1 then current else None, chunk[1..], rest);
      case SchemaMsg(x) =>
        OpenedAhead(lag, s, current, x, msgs);
        CoveredChunk(lag, s, if current.None? then Some(x) else current, chunk[1..], rest);
      case BatchMsg(_) =>
        CoveredChunk(lag, s, current, chunk[1..], rest);
    }
  }

  lemma OpenedAhead(lag: bool, s: Schema, current: Option<Schema>, x: Schema, msgs: Buffer)
    requires Covered(lag, s, current, msgs) && msgs != [] && msgs[0] == SchemaMsg(x)
    ensures Covered(lag, s, if current.None? then Some(x) else current, msgs[1..])
  {
    if current.None? && |msgs| > 1 {
      assert msgs[1..][0] == msgs[1] && msgs[1..][1..] == msgs[2..];
    }
  }

  /** Wherever such a result is cut, its batches come back under `s`. */
  lemma {:induction false} CoveredCut(lag: bool, s: Schema, current: Option<Schema>, chunks: seq<Buffer>)
    requires Covered(lag, s, current, Flatten(chunks))
    ensures DeliverCut(current, chunks) == Under(s, Flatten(chunks))
    decreases |chunks|
  {
    if chunks != [] {
      CoveredChunk(lag, s, current, chunks[0], Flatten(chunks[1..]));
      CoveredCut(lag, s, DeliverChunk(current, chunks[0]).current, chunks[1..]);
      UnderConcat(s, chunks[0], Flatten(chunks[1..]));
    }
  }

  lemma {:induction false} CoveredDeliver(s: Schema, current: Option<Schema>, msgs: Buffer)
    requires Covers(s, current, msgs)
    ensures Deliver(current, msgs) == Under(s, msgs)
    decreases |msgs|
  {
    if msgs != [] {
      match msgs[0]
      case Eos => CoveredDeliver(s, None, msgs[1..]);
      case SchemaMsg(x) => CoveredDeliver(s, if current.None? then Some(x) else current, msgs[1..]);
      case BatchMsg(_) => CoveredDeliver(s, current, msgs[1..]);
    }
  }
}
