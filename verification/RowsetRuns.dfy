/**
  Whole runs of `next_chunk` on a streaming rowset, over every source: chunks that fail to
  decode, transport errors and chunks from any server included.
 */
module RowsetRuns {
  import opened Common
  import opened ArrowIpc
  import opened DecoderDriver
  import opened RowsetSpec

  /** A run of `next_chunk` calls: the replies so far and the rowset they leave. */
  datatype Run = Run(replies: seq<Reply>, inner: Inner) | Stalled

  function Calls(r: Inner, n: nat): Run
    decreases n
  {
    if n == 0 then Run([], r)
    else
      match Next(r)
      case Hangs => Stalled
      case Called(reply, r') =>
        match Calls(r', n - 1)
        case Run(replies, last) => Run([reply] + replies, last)
        case Stalled => Stalled
  }

  function Returned(replies: seq<Reply>): seq<Decoded>
  {
    if replies == [] then []
    else (if replies[0].Rows? then [replies[0].batch] else []) + Returned(replies[1..])
  }

  /** Everything the decoder produces on these source items, failing chunks included. */
  datatype Fed = Fed(decoder: Decoder, out: seq<Decoded>)

  function FeedAll(d: Decoder, items: seq<SourceItem>): Fed
    decreases |items|
  {
    if items == [] then Fed(d, [])
    else if items[0].TransportError? || items[0].chunk == [] then FeedAll(d, items[1..])
    else
      var run := Drive(d, items[0].chunk);
      if run.Loops? then Fed(d, run.out)
      else
        var rest := FeedAll(run.decoder, items[1..]);
        Fed(rest.decoder, run.out + rest.out)
  }

  /** The failures among these source items: transport errors, and chunks that do not decode. */
  function Failures(d: Decoder, items: seq<SourceItem>): seq<RowsetError>
    decreases |items|
  {
    if items == [] then []
    else if items[0].TransportError? then [Transport(items[0].code)] + Failures(d, items[1..])
    else if items[0].chunk == [] then Failures(d, items[1..])
    else
      match Drive(d, items[0].chunk)
      case Ok(d', _) => Failures(d', items[1..])
      case Err(d', _) => [Conversion] + Failures(d', items[1..])
      case Loops(_) => []
  }

  /** The failures the caller was told. */
  function Reported(replies: seq<Reply>): seq<RowsetError>
  {
    if replies == [] then [] else FailureOf(replies[0]) + Reported(replies[1..])
  }

  function FailureOf(reply: Reply): seq<RowsetError> {
    if reply.Failed? then [reply.error] else []
  }

  ghost predicate NoLoop(d: Decoder, items: seq<SourceItem>)
    decreases |items|
  {
    items == [] ||
    if items[0].TransportError? || items[0].chunk == [] then NoLoop(d, items[1..])
    else !Drive(d, items[0].chunk).Loops? && NoLoop(Drive(d, items[0].chunk).decoder, items[1..])
  }

  /** What every call keeps: nothing is left over, and an exhausted source has nothing left. */
  ghost predicate Settled(r: Inner)
  {
    r.Streaming? && r.leftover.None? && (r.exhausted ==> r.source == [])
  }

  /** `r'` comes after `r`: `used` items were consumed, `got` was handed out and `failed` reported. */
  ghost predicate Conserves(r: Inner, r': Inner, used: nat, got: seq<Decoded>, failed: seq<RowsetError>)
  {
    && Settled(r) && Settled(r')
    && used <= |r.source| && r'.source == r.source[used..]
    && NoLoop(r.decoder, r.source[..used])
    && r'.decoder == FeedAll(r.decoder, r.source[..used]).decoder
    && got + r'.pending == r.pending + FeedAll(r.decoder, r.source[..used]).out
    && failed == Failures(r.decoder, r.source[..used])
  }

  /** Bytes that were left over are read as if they were the next chunk of the source. */
  lemma LeftoverComesFirst(r: Inner, buf: Buffer)
    requires r.Streaming? && r.leftover == Some(buf) && !r.exhausted
    ensures var asChunk := r.(leftover := None, source := [Bytes(buf)] + r.source);
            && (r.pending == [] ==> Next(r) == Next(asChunk))
            && (r.decoder.Schema().None? ==> Prime(r) == Prime(asChunk))
  {
    var asChunk := r.(leftover := None, source := [Bytes(buf)] + r.source);
    assert asChunk.source[1..] == r.source;
    if buf == [] {
      assert r.pending + [] == r.pending;
    }
    assert Pull(r) == Pull(asChunk);
  }

  lemma NothingHappened(r: Inner)
    requires Settled(r)
    ensures Conserves(r, r, 0, [], [])
  {
  }

  lemma {:induction false} FeedInTwo(d: Decoder, a: seq<SourceItem>, b: seq<SourceItem>)
    requires NoLoop(d, a)
    ensures FeedAll(d, a + b).decoder == FeedAll(FeedAll(d, a).decoder, b).decoder
    ensures FeedAll(d, a + b).out == FeedAll(d, a).out + FeedAll(FeedAll(d, a).decoder, b).out
    ensures NoLoop(FeedAll(d, a).decoder, b) ==> NoLoop(d, a + b)
    decreases |a|
  {
    if a == [] {
      assert a + b == b;
    } else {
      assert (a + b)[1..] == a[1..] + b;
      var d' := if a[0].TransportError? || a[0].chunk == [] then d else Drive(d, a[0].chunk).decoder;
      FeedInTwo(d', a[1..], b);
    }
  }

  lemma {:induction false} FailuresInTwo(d: Decoder, a: seq<SourceItem>, b: seq<SourceItem>)
    requires NoLoop(d, a)
    ensures Failures(d, a + b) == Failures(d, a) + Failures(FeedAll(d, a).decoder, b)
    decreases |a|
  {
    if a == [] {
      assert a + b == b;
    } else {
      assert (a + b)[1..] == a[1..] + b;
      var d' := if a[0].TransportError? || a[0].chunk == [] then d else Drive(d, a[0].chunk).decoder;
      FailuresInTwo(d', a[1..], b);
    }
  }

  lemma ConservesInTwo(r: Inner, r': Inner, r'': Inner, u: nat, v: nat, got: seq<Decoded>, more: seq<Decoded>,
                       failed: seq<RowsetError>, later: seq<RowsetError>)
    requires Conserves(r, r', u, got, failed) && Conserves(r', r'', v, more, later)
    ensures Conserves(r, r'', u + v, got + more, failed + later)
  {
    var a, b := r.source[..u], r'.source[..v];
    assert r.source[..u + v] == a + b;
    FeedInTwo(r.decoder, a, b);
    FailuresInTwo(r.decoder, a, b);
    Regroup(got, more, r''.pending, r'.pending, r.pending, FeedAll(r.decoder, a).out, FeedAll(r'.decoder, b).out);
  }

  lemma Regroup<T>(got: seq<T>, more: seq<T>, last: seq<T>, middle: seq<T>, start: seq<T>, fedA: seq<T>, fedB: seq<T>)
    requires got + middle == start + fedA && more + last == middle + fedB
    ensures (got + more) + last == start + (fedA + fedB)
  {
    assert (got + more) + last == got + (more + last) == got + (middle + fedB)
        == (got + middle) + fedB == (start + fedA) + fedB == start + (fedA + fedB);
  }

  function PullFailure(p: Pulled): seq<RowsetError> {
    if p.PullFailed? then [p.error] else []
  }

  lemma PullConserves(r: Inner) returns (used: nat)
    requires Settled(r) && !r.exhausted && !Pull(r).PullLoops?
    ensures Conserves(r, Pull(r).inner, used, [], PullFailure(Pull(r)))
  {
    if r.source == [] {
      used := 0;
    } else {
      used := 1;
      var items := r.source[..1];
      assert items[1..] == [] && items[0] == r.source[0];
      if r.source[0].Bytes? && r.source[0].chunk != [] {
        var run := Drive(r.decoder, r.source[0].chunk);
        assert FeedAll(r.decoder, items).out == run.out + [];
      }
    }
  }

  /** A call that goes on after a pull. */
  lemma PullThenNext(r: Inner, pulled: Inner, c: Called, used: nat, more: nat)
    requires c.Called? && Conserves(r, pulled, used, [], [])
    requires Conserves(pulled, c.inner, more, Got(c.reply), FailureOf(c.reply))
    ensures Conserves(r, c.inner, used + more, Got(c.reply), FailureOf(c.reply))
  {
    var got, failed := Got(c.reply), FailureOf(c.reply);
    assert [] + got == got && [] + failed == failed;
    ConservesInTwo(r, pulled, c.inner, used, more, [], got, [], failed);
  }

  /** A call that only takes from `pending`. */
  lemma TakeConserves(r: Inner)
    requires Settled(r) && r.pending != []
    ensures Conserves(r, r.(pending := r.pending[1..]), 0, [r.pending[0]], [])
  {
    assert [r.pending[0]] + r.pending[1..] == r.pending == r.pending + [];
  }

  lemma {:induction false} NextConserves(r: Inner) returns (used: nat)
    requires Settled(r) && Next(r).Called?
    ensures Conserves(r, Next(r).inner, used, Got(Next(r).reply), FailureOf(Next(r).reply))
    decreases Remaining(r)
  {
    if r.pending != [] {
      TakeConserves(r);
      return 0;
    }
    if r.exhausted {
      NothingHappened(r);
      return 0;
    }
    used := PullConserves(r);
    var pulled := Pull(r).inner;
    if Pull(r).Moved? {
      var c := Next(pulled);
      assert Next(r) == c;
      var more := NextConserves(pulled);
      PullThenNext(r, pulled, c, used, more);
      return used + more;
    }
    assert Next(r) == Called(Failed(Pull(r).error), pulled);
  }

  /**
    Conservation: after any number of calls, the batches returned followed by those pending are
    exactly those pending at the start followed by everything decoded from the chunks consumed
    since; the failures reported are, in order, those of the items consumed, one reply each;
    nothing is ever left over, and an exhausted rowset has no source left.
   */
  lemma {:induction false} CallsConserve(r: Inner, n: nat) returns (used: nat)
    requires Settled(r) && Calls(r, n).Run?
    ensures Conserves(r, Calls(r, n).inner, used, Returned(Calls(r, n).replies), Reported(Calls(r, n).replies))
    decreases n
  {
    if n == 0 {
      NothingHappened(r);
      return 0;
    }
    CallsFirst(r, n);
    var first := NextConserves(r);
    var next := Next(r).inner;
    assert Settled(next) && Calls(next, n - 1).Run?;
    var rest := CallsConserve(next, n - 1);
    FirstThenRest(r, n, first, rest);
    return first + rest;
  }

  lemma FirstThenRest(r: Inner, n: nat, first: nat, rest: nat)
    requires n > 0 && Calls(r, n).Run? && Next(r).Called? && Calls(Next(r).inner, n - 1).Run?
    requires Conserves(r, Next(r).inner, first, Got(Next(r).reply), FailureOf(Next(r).reply))
    requires var more := Calls(Next(r).inner, n - 1);
             Conserves(Next(r).inner, more.inner, rest, Returned(more.replies), Reported(more.replies))
    ensures Conserves(r, Calls(r, n).inner, first + rest, Returned(Calls(r, n).replies), Reported(Calls(r, n).replies))
  {
    var c, more := Next(r), Calls(Next(r).inner, n - 1);
    CallsFirst(r, n);
    ConservesInTwo(r, c.inner, more.inner, first, rest, Got(c.reply), Returned(more.replies),
                   FailureOf(c.reply), Reported(more.replies));
  }

  function Got(reply: Reply): seq<Decoded> {
    if reply.Rows? then [reply.batch] else []
  }

  lemma CallsFirst(r: Inner, n: nat)
    requires n > 0 && Calls(r, n).Run?
    ensures Next(r).Called? && Calls(Next(r).inner, n - 1).Run?
    ensures Calls(r, n).inner == Calls(Next(r).inner, n - 1).inner
    ensures Returned(Calls(r, n).replies) == Got(Next(r).reply) + Returned(Calls(Next(r).inner, n - 1).replies)
    ensures Reported(Calls(r, n).replies) == FailureOf(Next(r).reply) + Reported(Calls(Next(r).inner, n - 1).replies)
  {
    var reply, replies := Next(r).reply, Calls(Next(r).inner, n - 1).replies;
    assert ([reply] + replies)[1..] == replies;
  }

  // ---------------------------------------------------------------------------
  // Transport errors
  // ---------------------------------------------------------------------------

  /** The codes of the transport errors among these items. */
  function Codes(items: seq<SourceItem>): seq<int>
  {
    if items == [] then []
    else (if items[0].TransportError? then [items[0].code] else []) + Codes(items[1..])
  }

  function CodesOf(failures: seq<RowsetError>): seq<int>
  {
    if failures == [] then []
    else (if failures[0].Transport? then [failures[0].code] else []) + CodesOf(failures[1..])
  }

  lemma {:induction false} TransportFailures(d: Decoder, items: seq<SourceItem>)
    requires NoLoop(d, items)
    ensures CodesOf(Failures(d, items)) == Codes(items)
    decreases |items|
  {
    if items != [] {
      if items[0].TransportError? {
        TransportFailures(d, items[1..]);
        assert ([Transport(items[0].code)] + Failures(d, items[1..]))[1..] == Failures(d, items[1..]);
      } else if items[0].chunk == [] {
        TransportFailures(d, items[1..]);
      } else {
        var d' := Drive(d, items[0].chunk).decoder;
        TransportFailures(d', items[1..]);
        assert ([Conversion] + Failures(d', items[1..]))[1..] == Failures(d', items[1..]);
      }
    }
  }

  /**
    No transport error is swallowed: after any number of calls on any source, the transport
    errors reported are exactly those among the items consumed, in order.
   */
  lemma TransportErrorsReported(r: Inner, n: nat) returns (used: nat)
    requires Settled(r) && Calls(r, n).Run?
    ensures used <= |r.source| && Calls(r, n).inner.Streaming? && Calls(r, n).inner.source == r.source[used..]
    ensures CodesOf(Reported(Calls(r, n).replies)) == Codes(r.source[..used])
  {
    used := CallsConserve(r, n);
    TransportFailures(r.decoder, r.source[..used]);
  }

  /** This failure is met before the decoder shows a schema. */
  predicate FailsFirst(d: Decoder, source: seq<SourceItem>, error: RowsetError)
    decreases |source|
  {
    && d.Schema().None? && source != []
    && (match source[0]
        case TransportError(code) => error == Transport(code)
        case Bytes(chunk) =>
          if chunk == [] then FailsFirst(d, source[1..], error)
          else
            match Drive(d, chunk)
            case Ok(d', _) => FailsFirst(d', source[1..], error)
            case Err(_, _) => error == Conversion
            case Loops(_) => false)
  }

  lemma {:induction false} PrimeFailsIff(r: Inner, error: RowsetError)
    requires Settled(r)
    ensures Prime(r) == PrimeFailed(error) <==> FailsFirst(r.decoder, r.source, error)
    decreases Remaining(r)
  {
    if r.decoder.Schema().None? && !r.exhausted {
      if Pull(r).Moved? { PrimeFailsIff(Pull(r).inner, error); }
    }
  }

  /** `from_stream` fails with an error if and only if it is met before a schema shows. */
  lemma FromStreamFailsIff(lag: bool, source: seq<SourceItem>, error: RowsetError)
    ensures FromStream(lag, source) == BuildFailed(error) <==> FailsFirst(NewDecoder(lag), source, error)
  {
    PrimeFailsIff(Streaming(source, NewDecoder(lag), [], None, false), error);
  }

  // ---------------------------------------------------------------------------
  // Row counts
  // ---------------------------------------------------------------------------

  /** `total_rows` of a streaming rowset counts exactly the rows it returns without pulling. */
  lemma {:induction false} PendingRows(r: Inner)
    requires r.Streaming?
    ensures Calls(r, |r.pending|).Run? && Calls(r, |r.pending|).inner == r.(pending := [])
    ensures TotalRows(r) == SumRows(Returned(Calls(r, |r.pending|).replies))
    decreases |r.pending|
  {
    if r.pending != [] {
      var next := r.(pending := r.pending[1..]);
      PendingRows(next);
      CallsFirst(r, |r.pending|);
      assert ([r.pending[0]] + Returned(Calls(next, |next.pending|).replies))[1..] ==
             Returned(Calls(next, |next.pending|).replies);
    }
  }

  /** Priming loses nothing either: the batches it decodes wait in `pending`, and no item failed. */
  lemma {:induction false} PrimeConserves(r: Inner) returns (used: nat)
    requires Settled(r) && Prime(r).Primed?
    ensures Conserves(r, Prime(r).inner, used, [], [])
    decreases Remaining(r)
  {
    if r.decoder.Schema().Some? || r.exhausted {
      used := 0;
    } else {
      used := PullConserves(r);
      var more := PrimeConserves(Pull(r).inner);
      var none: seq<Decoded>, well: seq<RowsetError> := [], [];
      assert none + none == none && well + well == well;
      ConservesInTwo(r, Pull(r).inner, Prime(r).inner, used, more, none, none, well, well);
      used := used + more;
    }
  }

  /** A rowset that has answered `None` answers `None` for ever, buffered or streaming. */
  lemma {:induction false} NoneIsFinal(r: Inner, n: nat)
    requires Next(r).Called? && Next(r).reply.NoMore?
    ensures Calls(Next(r).inner, n).Run?
    ensures |Calls(Next(r).inner, n).replies| == n
    ensures forall i :: 0 <= i < n ==> Calls(Next(r).inner, n).replies[i].NoMore?
    decreases n
  {
    EndIsStable(r);
    if n > 0 { NoneIsFinal(Next(r).inner, n - 1); }
  }

  lemma {:induction false} EndIsStable(r: Inner)
    requires Next(r).Called? && Next(r).reply.NoMore?
    ensures Next(Next(r).inner) == Called(NoMore, Next(r).inner)
    decreases if r.Streaming? then Remaining(r) else 0
  {
    if r.Streaming? && r.pending == [] && !r.exhausted {
      EndIsStable(Pull(r).inner);
    }
  }
}
