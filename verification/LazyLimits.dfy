/**
  Where the agreement of the lazy and the buffered form ends.

  A marker that ends its chunk leaves the old decoder in place, so a later stream is decoded
  under the schema of an earlier one. This is harmless exactly when all streams are opened by
  one schema.
 */
module LazyLimits {
  import opened Common
  import opened ArrowIpc
  import opened DecoderDriver
  import opened RowsetSpec
  import opened LazyAgreement
  import opened LazyTheorems
  import opened DriverTermination

  /** Under this cut the lazy form returns the buffered form's batches. */
  ghost predicate AgreesUnder(lag: bool, chunks: seq<Buffer>)
  {
    var lazy, buffered := FromStream(lag, Items(chunks)), FromBuffer(lag, Flatten(chunks));
    && lazy.Built? && buffered.Built?
    && Drain(lazy.inner).batches == Drain(buffered.inner).batches
  }

  /** Every message its own chunk. */
  function Singles(msgs: Buffer): seq<Buffer>
  {
    if msgs == [] then [] else [[msgs[0]]] + Singles(msgs[1..])
  }

  /** Cut into single messages, every marker ends its chunk and the first schema stays. */
  lemma {:induction false} SinglesDeliver(s: Schema, msgs: Buffer)
    ensures Flatten(Singles(msgs)) == msgs
    ensures DeliverCut(Some(s), Singles(msgs)) == Under(s, msgs)
  {
    if msgs != [] {
      SinglesDeliver(s, msgs[1..]);
      var one := [msgs[0]];
      assert one[1..] == [];
      assert DeliverChunk(Some(s), one).current == Some(s);
    }
  }

  /** The first schema of the messages. */
  function FirstSchema(msgs: Buffer): Schema
  {
    if msgs == [] then EMPTY_SCHEMA
    else if msgs[0].SchemaMsg? then msgs[0].schema
    else FirstSchema(msgs[1..])
  }

  /** Cut into single messages, all batches come back under the first schema. */
  lemma {:induction false} SinglesUnderFirst(lag: bool, msgs: Buffer)
    requires Accepts(Lenient(lag), false, msgs)
    ensures DeliverCut(None, Singles(msgs)) == Under(FirstSchema(msgs), msgs)
  {
    if msgs != [] {
      var one := [msgs[0]];
      assert one[1..] == [];
      if msgs[0].Eos? {
        SinglesUnderFirst(lag, msgs[1..]);
        assert DeliverChunk(None, one) == Piece([], None);
      } else {
        SinglesDeliver(msgs[0].schema, msgs[1..]);
        assert DeliverChunk(None, one) == Piece([], Some(msgs[0].schema));
      }
    }
  }

  /** If every batch of an accepted result is delivered under `s`, every batch's stream is opened by `s`. */
  lemma {:induction false} DeliveredUnderOne(lag: bool, s: Schema, current: Option<Schema>, msgs: Buffer)
    requires Accepts(Lenient(lag), current.Some?, msgs)
    requires Deliver(current, msgs) == Under(s, msgs)
    ensures Covers(s, current, msgs)
    decreases |msgs|
  {
    if msgs != [] {
      match msgs[0]
      case Eos =>
        DeliveredUnderOne(lag, s, None, msgs[1..]);
      case SchemaMsg(x) =>
        assert Accepts(Lenient(lag), true, msgs[1..]) by {
          if |msgs| > 1 { assert msgs[1..][1..] == msgs[2..]; }
        }
        DeliveredUnderOne(lag, s, if current.None? then Some(x) else current, msgs[1..]);
      case BatchMsg(b) =>
        assert Deliver(current, msgs)[0] == Under(s, msgs)[0];
        assert Deliver(current, msgs[1..]) == Deliver(current, msgs)[1..];
        assert Under(s, msgs[1..]) == Under(s, msgs)[1..];
        DeliveredUnderOne(lag, s, current, msgs[1..]);
    }
  }

  /** Agreement on the cut into single messages already forces one schema on all batches. */
  lemma AgreementForcesOneSchema(lag: bool, msgs: Buffer)
    requires AgreesUnder(lag, Singles(msgs))
    ensures FromBuffer(lag, msgs).Built? && Covers(FirstSchema(msgs), None, msgs)
  {
    var s := FirstSchema(msgs);
    SinglesDeliver(s, msgs);
    BufferedDelivers(lag, msgs);
    LazyDelivers(lag, Singles(msgs));
    DrainBuffered(FromBuffer(lag, msgs).inner);
    SinglesUnderFirst(lag, msgs);
    DeliveredUnderOne(lag, s, None, msgs);
  }

  /** Every cut of these messages is read alike. */
  ghost predicate AgreesUnderEveryCut(lag: bool, msgs: Buffer)
  {
    forall chunks :: Flatten(chunks) == msgs ==> AgreesUnder(lag, chunks)
  }

  /** An accepted result whose batches all lie under one schema agrees under this and every cut. */
  lemma CoveredAgrees(lag: bool, s: Schema, chunks: seq<Buffer>)
    requires FromBuffer(lag, Flatten(chunks)).Built? && Covers(s, None, Flatten(chunks))
    ensures AgreesUnder(lag, chunks)
  {
    var msgs := Flatten(chunks);
    LazyDelivers(lag, chunks);
    BufferedDelivers(lag, msgs);
    CoveredCut(lag, s, None, chunks);
    CoveredDeliver(s, None, msgs);
    DrainBuffered(FromBuffer(lag, msgs).inner);
  }

  /**
    The exact condition, for all messages: every cut is read alike if and only if the buffered
    form accepts them and the first schema opens every stream that holds a batch.
   */
  lemma AgreesUnderEveryCutIff(lag: bool, msgs: Buffer)
    ensures AgreesUnderEveryCut(lag, msgs) <==>
            FromBuffer(lag, msgs).Built? && Covers(FirstSchema(msgs), None, msgs)
  {
    if FromBuffer(lag, msgs).Built? && Covers(FirstSchema(msgs), None, msgs) {
      forall chunks | Flatten(chunks) == msgs ensures AgreesUnder(lag, chunks) {
        CoveredAgrees(lag, FirstSchema(msgs), chunks);
      }
    }
    if AgreesUnderEveryCut(lag, msgs) {
      SinglesDeliver(EMPTY_SCHEMA, msgs);
      AgreementForcesOneSchema(lag, msgs);
    }
  }

  /** For runs of streams that all hold a batch the condition is one schema for all streams. */
  lemma {:induction false} CoversStreams(s: Schema, current: Option<Schema>, msgs: Buffer)
    requires Accepts(Strict, current.Some?, msgs) && (current == None || current == Some(s))
    ensures Covers(s, current, msgs) <==> OneSchema(s, current.Some?, msgs)
    decreases |msgs|
  {
    if msgs != [] {
      if msgs[0].Eos? {
        CoversStreams(s, None, msgs[1..]);
      } else if current.None? {
        assert msgs[1..][0] == msgs[1] && msgs[1..][1..] == msgs[2..];
        assert OneSchema(s, true, msgs[1..]) == OneSchema(s, true, msgs[2..]);
        if msgs[0].schema == s { CoversStreams(s, Some(s), msgs[2..]); }
      } else {
        CoversStreams(s, current, msgs[1..]);
      }
    }
  }

  /** A second stream with its own schema: the batch comes back under the first schema. */
  lemma StaleSchema(lag: bool, s: Schema, t: Schema, a: Batch, b: Batch)
    requires s != t
    ensures var chunks := [[SchemaMsg(s), BatchMsg(a), Eos], [SchemaMsg(t), BatchMsg(b)]];
            var lazy, buffered := FromStream(lag, Items(chunks)), FromBuffer(lag, Flatten(chunks));
            && lazy.Built? && buffered.Built?
            && Drain(lazy.inner).batches == [Decoded(s, a), Decoded(s, b)]
            && Drain(buffered.inner).batches == [Decoded(s, a), Decoded(t, b)]
  {
    var first, second := [SchemaMsg(s), BatchMsg(a), Eos], [SchemaMsg(t), BatchMsg(b)];
    var chunks := [first, second];
    var msgs := first + second;
    assert chunks[1..] == [second];
    assert Flatten(chunks) == first + Flatten([second]) == first + (second + []) == msgs;
    Tails(msgs);
    Tails(first);
    Tails(second);
    assert Accepts(Lenient(lag), false, msgs) by {
      assert Accepts(Lenient(lag), true, msgs[5..]) && Accepts(Lenient(lag), false, msgs[3..]) && Accepts(Lenient(lag), true, msgs[2..]);
    }
    BufferedDelivers(lag, msgs);
    LazyDelivers(lag, chunks);
    DrainBuffered(FromBuffer(lag, msgs).inner);
    assert DeliverChunk(Some(s), first[1..]) == Piece([Decoded(s, a)], Some(s)) by {
      assert DeliverChunk(Some(s), first[2..]) == Piece([], Some(s));
    }
    assert DeliverChunk(None, first) == Piece([Decoded(s, a)], Some(s));
    assert DeliverChunk(Some(s), second) == Piece([Decoded(s, b)], Some(s)) by {
      assert DeliverChunk(Some(s), second[1..]) == Piece([Decoded(s, b)], Some(s));
    }
    assert DeliverCut(Some(s), [second]) == [Decoded(s, b)];
    assert Deliver(None, msgs[3..]) == [Decoded(t, b)] by {
      assert Deliver(Some(t), msgs[4..]) == [Decoded(t, b)] + Deliver(Some(t), msgs[5..]);
    }
    assert Deliver(Some(s), msgs[1..]) == [Decoded(s, a)] + Deliver(Some(s), msgs[2..]);
  }

  /**
    Why the schema claim needs streams without doubled markers: after a marker that bytes
    follow, the buffered form ends on a fresh decoder and reports the empty schema.
   */
  lemma DoubledMarkerHidesSchema(lag: bool, s: Schema, a: Batch)
    ensures var chunks := [[SchemaMsg(s), BatchMsg(a), Eos], [Eos]];
            && FromBuffer(lag, Flatten(chunks)).Built?
            && FromBuffer(lag, Flatten(chunks)).schema == EMPTY_SCHEMA
            && FromStream(lag, Items(chunks)).Built?
            && FromStream(lag, Items(chunks)).schema == s
  {
    var first := [SchemaMsg(s), BatchMsg(a), Eos];
    var chunks, msgs := [first, [Eos]], first + [Eos];
    var d, ready := NewDecoder(lag), NewDecoder(lag).(state := Ready(s));
    assert chunks[1..] == [[Eos]];
    assert Flatten(chunks) == first + Flatten([[Eos]]) == first + ([Eos] + []) == msgs;
    Tails(msgs);
    DecodeOpening(d, msgs);
    assert Drive(d, msgs[3..]) == Ok(d, []) by { assert Drive(d, msgs[4..]) == Ok(d, []); }
    assert Drive(ready, msgs[2..]) == Ok(d, []);
    assert Drive(d, msgs) == Ok(d, [Decoded(s, a)]);
    var r := Streaming(Items(chunks), d, [], None, false);
    DriveOneStream(lag, s, a);
    assert r.pending + [Decoded(s, a)] == [Decoded(s, a)];
    assert Prime(r) == Prime(Pull(r).inner);
  }

  /**
    A batch-only continuation after a marker: the lazy form goes on with the kept schema when
    the marker ends its chunk, while the buffered form rejects the glued messages.
   */
  lemma ContinuationAfterMarker(lag: bool, s: Schema, a: Batch, b: Batch)
    ensures var chunks := [[SchemaMsg(s), BatchMsg(a), Eos], [BatchMsg(b)]];
            && FromBuffer(lag, Flatten(chunks)).BuildFailed?
            && FromStream(lag, Items(chunks)).Built?
            && Drain(FromStream(lag, Items(chunks)).inner).batches == [Decoded(s, a), Decoded(s, b)]
  {
    var first, second := [SchemaMsg(s), BatchMsg(a), Eos], [BatchMsg(b)];
    var chunks := [first, second];
    assert chunks[1..] == [second];
    assert Flatten(chunks) == first + Flatten([second]) == first + (second + []) == first + second;
    GluedContinuationFails(lag, s, a, b);
    var ready := NewDecoder(lag).(state := Ready(s));
    var r := Streaming(Items(chunks), NewDecoder(lag), [], None, false);
    var r1 := Streaming([Bytes(second)], ready, [Decoded(s, a)], None, false);
    assert Items([second]) == [Bytes(second)] && Items(chunks)[1..] == [Bytes(second)];
    assert Pull(r) == Moved(r1) by {
      DriveOneStream(lag, s, a);
      assert r.pending + [Decoded(s, a)] == [Decoded(s, a)];
    }
    assert Prime(r) == Prime(r1) == Primed(r1);
    DrainContinuation(lag, s, b);
    assert Drain(r1).batches == [Decoded(s, a)] + Drain(r1.(pending := [])).batches;
  }

  lemma GluedContinuationFails(lag: bool, s: Schema, a: Batch, b: Batch)
    ensures FromBuffer(lag, [SchemaMsg(s), BatchMsg(a), Eos] + [BatchMsg(b)]).BuildFailed?
  {
    var msgs := [SchemaMsg(s), BatchMsg(a), Eos] + [BatchMsg(b)];
    Tails(msgs);
    BufferedDelivers(lag, msgs);
    SpacedTerminates(NewDecoder(lag), msgs);
    assert !Accepts(Lenient(lag), false, msgs[3..]) && !Accepts(Lenient(lag), true, msgs[2..]);
  }

  lemma DriveOneStream(lag: bool, s: Schema, a: Batch)
    ensures Drive(NewDecoder(lag), [SchemaMsg(s), BatchMsg(a), Eos]) ==
            Ok(NewDecoder(lag).(state := Ready(s)), [Decoded(s, a)])
  {
    var buf, ready := [SchemaMsg(s), BatchMsg(a), Eos], NewDecoder(lag).(state := Ready(s));
    Tails(buf);
    DecodeOpening(NewDecoder(lag), buf);
    assert Drive(ready, buf[3..]) == Ok(ready, []);
    assert Drive(ready, buf[2..]) == Ok(ready, []);
  }

  lemma DrainContinuation(lag: bool, s: Schema, b: Batch)
    ensures Drain(Streaming([Bytes([BatchMsg(b)])], NewDecoder(lag).(state := Ready(s)), [], None, false)).batches
            == [Decoded(s, b)]
  {
    var second, ready := [BatchMsg(b)], NewDecoder(lag).(state := Ready(s));
    var r := Streaming([Bytes(second)], ready, [], None, false);
    assert second[1..] == [] && r.source[1..] == [];
    DecodeBatch(ready, s, second);
    assert Drive(ready, second) == Ok(ready, [Decoded(s, b)]);
    var r' := Streaming([], ready, [], None, false);
    assert r.pending + [Decoded(s, b)] == [Decoded(s, b)];
    assert Pull(r) == Moved(r'.(pending := [Decoded(s, b)]));
    assert Next(r) == Called(Rows(Decoded(s, b)), r');
    assert Drain(r').batches == [];
  }

  /** Dropping one message at a time. */
  lemma Tails(msgs: Buffer)
    ensures forall i: nat :: i < |msgs| ==> msgs[i..][0] == msgs[i] && msgs[i..][1..] == msgs[i + 1..]
    ensures msgs[|msgs|..] == []
  {
  }
}
