/**
  `drive_streaming_decoder` (arrow_result.rs): the loop that feeds a buffer to the decoder,
  strips end-of-stream markers, skips repeated schemas, and rolls back and swaps the decoder
  at stream boundaries.
 */
module DecoderDriver {
  import opened ArrowIpc

  // ---------------------------------------------------------------------------
  // One iteration of the loop
  // ---------------------------------------------------------------------------

  /** What one iteration does: leave the loop, fail, or go round again. */
  datatype Iteration =
    | Leave(decoder: Decoder)
    | Fail(decoder: Decoder)
    | Again(decoder: Decoder, buf: Buffer, out: seq<Decoded>)

  function Iterate(d: Decoder, buf: Buffer): Iteration
  {
    if buf == [] then Leave(d)
    else if buf[0].Eos? then
      Again(if buf[1..] != [] then d.Reset() else d, buf[1..], [])
    else if d.Schema().Some? && buf[0].SchemaMsg? then
      Again(d, buf[1..], [])
    else
      var r := Decode(d, buf);
      match r.reply
      case Got(b) => Again(r.decoder, r.rest, [b])
      case NeedMore => Leave(r.decoder)
      case SecondSchema => Again(d.Reset(), buf, [])
      case UnexpectedEos => Again(d.Reset(), buf, [])
      case MissingSchema => Fail(r.decoder)
  }

  // ---------------------------------------------------------------------------
  // The whole loop
  // ---------------------------------------------------------------------------

  /** How a run of the driver ends; `Loops` is the run that never does. */
  datatype Outcome =
    | Ok(decoder: Decoder, out: seq<Decoded>)
    | Err(decoder: Decoder, out: seq<Decoded>)
    | Loops(out: seq<Decoded>)
  {
    /** The same ending with batches decoded earlier put in front. */
    function After(earlier: seq<Decoded>): Outcome {
      match this
      case Ok(d, out) => Ok(d, earlier + out)
      case Err(d, out) => Err(d, earlier + out)
      case Loops(out) => Loops(earlier + out)
    }
  }

  /**
    The driver as a function. The measure is lexicographic: remaining messages, then whether
    the decoder is not fresh, so a swap without consuming anything happens at most once.
   */
  function Drive(d: Decoder, buf: Buffer): Outcome
    decreases |buf|, if d.state.Fresh? then 0 else 1
  {
    match Iterate(d, buf)
    case Leave(d') => Ok(d', [])
    case Fail(d') => Err(d', [])
    case Again(d', buf', out) =>
      if d' == d && buf' == buf then Loops([]) else Drive(d', buf').After(out)
  }

  lemma AfterTwice(o: Outcome, first: seq<Decoded>, second: seq<Decoded>)
    ensures o.After(second).After(first) == o.After(first + second)
  {
    match o
    case Ok(_, out) => assert first + (second + out) == first + second + out;
    case Err(_, out) => assert first + (second + out) == first + second + out;
    case Loops(out) => assert first + (second + out) == first + second + out;
  }

  /** Going round the loop once more, seen from a run that has already decoded `sofar`. */
  lemma DriveAgain(d: Decoder, buf: Buffer, sofar: seq<Decoded>)
    requires Iterate(d, buf).Again?
    requires !Drive(d, buf).Loops?
    ensures var i := Iterate(d, buf);
            && Drive(d, buf).After(sofar) == Drive(i.decoder, i.buf).After(sofar + i.out)
            && (|i.buf| < |buf| || (i.buf == buf && i.decoder.state.Fresh? && !d.state.Fresh?))
  {
    var i := Iterate(d, buf);
    AfterTwice(Drive(i.decoder, i.buf), sofar, i.out);
  }

  /** `drive_streaming_decoder`: the three arguments it mutates are its results. */
  method DriveStreamingDecoder(decoder0: Decoder, buf0: Buffer, pending0: seq<Decoded>)
    returns (ok: bool, decoder: Decoder, buf: Buffer, pending: seq<Decoded>)
    requires !Drive(decoder0, buf0).Loops?
    ensures ok == Drive(decoder0, buf0).Ok?
    ensures decoder == Drive(decoder0, buf0).decoder
    ensures pending == pending0 + Drive(decoder0, buf0).out
    ensures ok ==> buf == []
  {
    decoder, buf, pending := decoder0, buf0, pending0;
    ghost var out: seq<Decoded> := [];
    ghost var whole := Drive(decoder0, buf0);
    while true
      invariant pending == pending0 + out
      invariant !Drive(decoder, buf).Loops?
      invariant whole == Drive(decoder, buf).After(out)
      decreases |buf|, if decoder.state.Fresh? then 0 else 1
    {
      if buf == [] {
        return true, decoder, buf, pending;
      }
      ghost var i := Iterate(decoder, buf);
      if i.Again? {
        DriveAgain(decoder, buf, out);
      }
      if buf[0].Eos? {
        buf := buf[1..];
        if buf != [] {
          decoder := decoder.Reset();
        }
      } else if decoder.Schema().Some? && buf[0].SchemaMsg? {
        buf := buf[1..];
      } else {
        var bufBefore := buf;
        var r := Decode(decoder, buf);
        decoder, buf := r.decoder, r.rest;
        match r.reply
        case Got(b) =>
          pending := pending + [b];
        case NeedMore =>
          return true, decoder, buf, pending;
        case SecondSchema =>
          decoder, buf := decoder.Reset(), bufBefore;
        case UnexpectedEos =>
          decoder, buf := decoder.Reset(), bufBefore;
        case MissingSchema =>
          return false, decoder, buf, pending;
      }
      out := out + i.out;
    }
  }
}
