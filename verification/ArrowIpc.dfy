/**
  Arrow IPC messages and the streaming decoder of the `arrow` crate.

  The decoder is a library the repository calls, so it is a trusted step machine here: what
  it accepts and which errors it raises is what arrow_result.rs relies on.
 */
module ArrowIpc {
  import opened Common

  /** A result schema. `Schema([])` is the empty schema of a rowset that has seen none. */
  datatype Schema = Schema(fields: seq<string>)

  const EMPTY_SCHEMA := Schema([])

  /** A record batch as it travels: a row count and a non-empty opaque body. */
  datatype Batch = Batch(rows: nat, body: seq<int>)

  datatype Message = SchemaMsg(schema: Schema) | BatchMsg(batch: Batch) | Eos

  type Buffer = seq<Message>

  /** A decoded batch remembers the schema it was decoded under. */
  datatype Decoded = Decoded(schema: Schema, batch: Batch)

  /**
    - `Fresh`: no message seen;
    - `Held(s)`: a schema message has been read to its last byte, but no byte has followed,
      so the schema is not installed yet (only decoders with `lag` wait like this);
    - `Ready(s)`: schema installed, batches expected;
    - `Doubled(s)`: a second schema message has been read to its last byte, and the next byte
      will be refused (left by a refusal, and by decoders with `lag` also before one);
    - `Finished`: an end-of-stream marker went through `decode`;
    - `Broken`: a batch was met without a schema.
   */
  datatype State =
    | Fresh
    | Held(held: Schema)
    | Ready(ready: Schema)
    | Doubled(first: Schema)
    | Finished(last: Option<Schema>)
    | Broken

  /**
    `lag` says when a schema message that ends the buffer is acted on: at once, or only when the
    next byte arrives. Every theorem covers both kinds of decoder.
   */
  datatype Decoder = Decoder(lag: bool, state: State)
  {
    /** What `decoder.schema()` answers. */
    function Schema(): Option<Schema> {
      match state
      case Ready(s) => Some(s)
      case Doubled(s) => Some(s)
      case Finished(last) => last
      case _ => None
    }

    /** A brand-new decoder of the same kind. */
    function Reset(): Decoder {
      Decoder(lag, Fresh)
    }
  }

  datatype DecodeReply = Got(batch: Decoded) | NeedMore | SecondSchema | UnexpectedEos | MissingSchema

  datatype DecodeResult = DecodeResult(reply: DecodeReply, decoder: Decoder, rest: Buffer)

  /** One call of `decode`: it runs past schemas and markers and returns at the first batch. */
  function Decode(d: Decoder, buf: Buffer): (r: DecodeResult)
    ensures r.reply.NeedMore? ==> r.rest == []
    ensures r.reply.Got? ==> |r.rest| < |buf|
    ensures r.decoder.lag == d.lag
    decreases |buf|, if d.state.Held? then 1 else 0
  {
    if buf == [] then DecodeResult(NeedMore, d, [])
    else match d.state
      case Held(s) => Decode(d.(state := Ready(s)), buf)
      case Finished(_) => DecodeResult(UnexpectedEos, d, buf)
      case Doubled(_) => DecodeResult(SecondSchema, d, buf)
      case Broken => DecodeResult(MissingSchema, d, [])
      case Fresh =>
        (match buf[0]
         case SchemaMsg(s) =>
           Decode(d.(state := if d.lag && |buf| == 1 then Held(s) else Ready(s)), buf[1..])
         case BatchMsg(_) => DecodeResult(MissingSchema, d.(state := Broken), buf[1..])
         case Eos => Decode(d.(state := Finished(None)), buf[1..]))
      case Ready(s) =>
        (match buf[0]
         case SchemaMsg(_) =>
           var doubled := d.(state := Doubled(s));
           if d.lag && |buf| == 1 then DecodeResult(NeedMore, doubled, [])
           else DecodeResult(SecondSchema, doubled, buf[1..])
         case BatchMsg(b) => DecodeResult(Got(Decoded(s, b)), d, buf[1..])
         case Eos => Decode(d.(state := Finished(Some(s))), buf[1..]))
  }

  /** A batch under an installed schema. */
  lemma DecodeBatch(d: Decoder, s: Schema, buf: Buffer)
    requires d.state == Ready(s) || d.state == Held(s)
    requires buf != [] && buf[0].BatchMsg?
    ensures Decode(d, buf) ==
            DecodeResult(Got(Decoded(s, buf[0].batch)), d.(state := Ready(s)), buf[1..])
  {
    assert Decode(d, buf) == Decode(d.(state := Ready(s)), buf);
  }

  /** A schema that opens a stream. */
  lemma DecodeOpening(d: Decoder, buf: Buffer)
    requires d.state.Fresh? && buf != [] && buf[0].SchemaMsg?
    ensures var s := buf[0].schema;
            if |buf| == 1 then
              Decode(d, buf) == DecodeResult(NeedMore, d.(state := if d.lag then Held(s) else Ready(s)), [])
            else if buf[1].BatchMsg? then
              Decode(d, buf) ==
              DecodeResult(Got(Decoded(s, buf[1].batch)), d.(state := Ready(s)), buf[2..])
            else if buf[1..] == [Eos] then
              Decode(d, buf) == DecodeResult(NeedMore, d.(state := Finished(Some(s))), [])
            else if d.lag && |buf| == 2 then
              Decode(d, buf) == DecodeResult(NeedMore, d.(state := Doubled(s)), [])
            else
              Decode(d, buf).reply.SecondSchema? || Decode(d, buf).reply.UnexpectedEos?
  {
    var s := buf[0].schema;
    var ready := d.(state := Ready(s));
    if |buf| == 1 {
      assert buf[1..] == [];
    } else {
      assert Decode(d, buf) == Decode(ready, buf[1..]);
      assert buf[1..][1..] == buf[2..];
      if buf[1].Eos? {
        assert Decode(ready, buf[1..]) == Decode(d.(state := Finished(Some(s))), buf[2..]);
        assert buf[1..] == [Eos] <==> buf[2..] == [];
      }
    }
  }
}
