/**
  Bytes: the framing of Arrow IPC messages and the byte tests of `drive_streaming_decoder`.

  Framing follows the Apache Arrow Columnar Format specification, sections "Encapsulated
  message format" and "IPC Streaming Format": a continuation marker of four 0xFF bytes, the
  metadata length as a little-endian 32-bit number, the metadata, then the message body.
 */
module ArrowFraming {
  import opened Common
  import opened ArrowIpc
  import opened DecoderDriver
  import opened RowsetSpec

  newtype byte = x: int | 0 <= x < 256

  type Bytes = seq<byte>

  const CONTINUATION: Bytes := [0xFF, 0xFF, 0xFF, 0xFF]
  const ARROW_IPC_EOS: Bytes := [0xFF, 0xFF, 0xFF, 0xFF, 0, 0, 0, 0]

  // ---------------------------------------------------------------------------
  // The flatbuffer library
  // ---------------------------------------------------------------------------

  datatype Header = SchemaHeader | RecordBatchHeader | OtherHeader

  /**
    What the flatbuffer code writes for a message and reads back from its metadata. No law is
    assumed of it as a whole: metadata longer than its 32-bit length field cannot be read back.
   */
  datatype Flatbuffers = Flatbuffers(
    headerType: Bytes -> Option<Header>,
    bodyLength: Bytes -> nat,
    schemaMeta: Schema -> Bytes,
    batchMeta: Batch -> Bytes,
    batchBody: Batch -> Bytes,
    readSchema: Bytes -> Schema,
    readBatch: (Bytes, Bytes) -> Batch)
  {
    /** Reading undoes writing for this message; its metadata is non-empty and fits its length field. */
    predicate Reads(m: Message)
    {
      match m
      case SchemaMsg(s) =>
        && 0 < |schemaMeta(s)| < 0xFFFF_FFFF
        && headerType(schemaMeta(s)) == Some(SchemaHeader)
        && bodyLength(schemaMeta(s)) == 0
        && readSchema(schemaMeta(s)) == s
      case BatchMsg(b) =>
        && 0 < |batchMeta(b)| < 0xFFFF_FFFF
        && headerType(batchMeta(b)) == Some(RecordBatchHeader)
        && bodyLength(batchMeta(b)) == |batchBody(b)|
        && readBatch(batchMeta(b), batchBody(b)) == b
      case Eos => headerType([]) == None
    }

    ghost predicate ReadsAll(msgs: Buffer) {
      forall i :: 0 <= i < |msgs| ==> Reads(msgs[i])
    }
  }

  // ---------------------------------------------------------------------------
  // Writing
  // ---------------------------------------------------------------------------

  /** The low 32 bits of `n`, little-endian. */
  function Le32(n: nat): (b: Bytes)
    ensures |b| == 4
  {
    [(n % 256) as byte, (n / 256 % 256) as byte, (n / 65536 % 256) as byte, (n / 16777216 % 256) as byte]
  }

  function FromLe32(b: Bytes): nat
    requires |b| == 4
  {
    b[0] as nat + 256 * b[1] as nat + 65536 * b[2] as nat + 16777216 * b[3] as nat
  }

  lemma Le32RoundTrip(n: nat)
    requires n < 0x1_0000_0000
    ensures FromLe32(Le32(n)) == n
  {
    assert n / 65536 == n / 256 / 256 && n / 16777216 == n / 256 / 256 / 256;
  }

  function Frame(meta: Bytes, body: Bytes): Bytes {
    CONTINUATION + Le32(|meta|) + meta + body
  }

  function Encode(fb: Flatbuffers, m: Message): Bytes
  {
    match m
    case SchemaMsg(s) => Frame(fb.schemaMeta(s), [])
    case BatchMsg(b) => Frame(fb.batchMeta(b), fb.batchBody(b))
    case Eos => ARROW_IPC_EOS
  }

  /** The frames of a message sequence, and the bytes they make up. */
  function Frames(fb: Flatbuffers, msgs: Buffer): seq<Bytes> {
    seq(|msgs|, i requires 0 <= i < |msgs| => Encode(fb, msgs[i]))
  }

  function EncodeAll(fb: Flatbuffers, msgs: Buffer): Bytes {
    Flatten(Frames(fb, msgs))
  }

  // ---------------------------------------------------------------------------
  // The byte tests of arrow_result.rs
  // ---------------------------------------------------------------------------

  /** `peek_message_body`: header plus metadata size, and the metadata, of the first message. */
  function PeekMessageBody(buf: Bytes): Option<(nat, Bytes)>
  {
    var lengthOffset := if |buf| >= 4 && buf[..4] == CONTINUATION then 4 else 0;
    if |buf| - lengthOffset < 4 then None
    else
      var length := FromLe32(buf[lengthOffset..lengthOffset + 4]);
      var bodyStart := lengthOffset + 4;
      if |buf| < bodyStart + length then None
      else Some((bodyStart + length, buf[bodyStart..bodyStart + length]))
  }

  function PeekMessageTotalSize(buf: Bytes): Option<nat>
  {
    var p := PeekMessageBody(buf);
    if p.None? then None else Some(p.value.0)
  }

  predicate PeekIsSchemaMessage(fb: Flatbuffers, buf: Bytes)
  {
    var p := PeekMessageBody(buf);
    p.Some? && fb.headerType(p.value.1) == Some(SchemaHeader)
  }

  predicate StartsWithEos(buf: Bytes) {
    |buf| >= |ARROW_IPC_EOS| && buf[..|ARROW_IPC_EOS|] == ARROW_IPC_EOS
  }

  /** The first message of a buffer and the size of its frame. */
  function ReadFrame(fb: Flatbuffers, buf: Bytes): (r: Option<(Message, nat)>)
    ensures r.Some? ==> 0 < r.value.1 <= |buf|
  {
    if StartsWithEos(buf) then Some((Eos, |ARROW_IPC_EOS|))
    else
      var p := PeekMessageBody(buf);
      if p.None? then None
      else
        var (size, meta) := p.value;
        match fb.headerType(meta)
        case Some(SchemaHeader) => Some((SchemaMsg(fb.readSchema(meta)), size))
        case Some(RecordBatchHeader) =>
          var total := size + fb.bodyLength(meta);
          if total > |buf| then None else Some((BatchMsg(fb.readBatch(meta, buf[size..total])), total))
        case _ => None
  }

  function ReadAll(fb: Flatbuffers, buf: Bytes): Option<Buffer>
  {
    if buf == [] then Some([])
    else
      var first := ReadFrame(fb, buf);
      if first.None? then None
      else
        var rest := ReadAll(fb, buf[first.value.1..]);
        if rest.None? then None else Some([first.value.0] + rest.value)
  }

  // ---------------------------------------------------------------------------
  // Framed bytes read back
  // ---------------------------------------------------------------------------

  lemma PeekFrame(meta: Bytes, body: Bytes, rest: Bytes)
    requires 0 < |meta| < 0x1_0000_0000
    ensures var buf := Frame(meta, body) + rest;
            && !StartsWithEos(buf)
            && PeekMessageBody(buf) == Some((8 + |meta|, meta))
            && buf[8 + |meta|..] == body + rest
  {
    var buf := Frame(meta, body) + rest;
    Le32RoundTrip(|meta|);
    assert buf[..4] == CONTINUATION && buf[4..8] == Le32(|meta|);
    assert buf[8..8 + |meta|] == meta;
    assert ARROW_IPC_EOS[4..8] == [0, 0, 0, 0];
    assert buf[..8][4..8] == buf[4..8];
  }

  /** A frame is not recognized before all of its header has arrived. */
  lemma PeekNeedsHeader(meta: Bytes, body: Bytes, n: nat)
    requires 0 < |meta| < 0x1_0000_0000 && n <= |Frame(meta, body)|
    ensures PeekMessageBody(Frame(meta, body)[..n]).Some? <==> n >= 8 + |meta|
  {
    var frame := Frame(meta, body);
    var buf := frame[..n];
    Le32RoundTrip(|meta|);
    assert frame[..4] == CONTINUATION && frame[4..8] == Le32(|meta|);
    if n >= 4 { assert buf[..4] == frame[..4]; }
    if n >= 8 { assert buf[4..8] == frame[4..8]; }
  }

  /** Frames of the legacy format, without the continuation marker, are recognized too. */
  lemma PeekLegacyFrame(meta: Bytes, rest: Bytes)
    requires |meta| < 0xFFFF_FFFF
    ensures PeekMessageBody(Le32(|meta|) + meta + rest) == Some((4 + |meta|, meta))
  {
    var buf := Le32(|meta|) + meta + rest;
    Le32RoundTrip(|meta|);
    assert buf[..4] == buf[0..4] == Le32(|meta|) && buf[4..4 + |meta|] == meta;
    assert FromLe32(CONTINUATION) == 0xFFFF_FFFF;
  }

  /** At the head of `buf`, every byte test of arrow_result.rs sees message `m` in `size` bytes. */
  ghost predicate Shows(fb: Flatbuffers, buf: Bytes, m: Message, size: nat)
  {
    && ReadFrame(fb, buf) == Some((m, size))
    && (StartsWithEos(buf) <==> m.Eos?)
    && (m.Eos? ==> size == |ARROW_IPC_EOS|)
    && (PeekIsSchemaMessage(fb, buf) <==> m.SchemaMsg?)
    && (m.SchemaMsg? ==> PeekMessageTotalSize(buf) == Some(size))
  }

  /** `frame` is a frame of `m`, whatever follows it. */
  ghost predicate FrameOf(fb: Flatbuffers, frame: Bytes, m: Message)
  {
    frame != [] && forall rest: Bytes :: Shows(fb, frame + rest, m, |frame|)
  }

  ghost predicate FramesOf(fb: Flatbuffers, frames: seq<Bytes>, msgs: Buffer)
  {
    |frames| == |msgs| && forall i :: 0 <= i < |frames| ==> FrameOf(fb, frames[i], msgs[i])
  }

  lemma EncodeShows(fb: Flatbuffers, m: Message, rest: Bytes)
    requires fb.Reads(m)
    ensures Shows(fb, Encode(fb, m) + rest, m, |Encode(fb, m)|)
  {
    var buf := Encode(fb, m) + rest;
    match m
    case SchemaMsg(s) =>
      PeekFrame(fb.schemaMeta(s), [], rest);
    case BatchMsg(b) =>
      var meta, body := fb.batchMeta(b), fb.batchBody(b);
      PeekFrame(meta, body, rest);
      assert buf[8 + |meta|..8 + |meta| + |body|] == (body + rest)[..|body|] == body;
    case Eos =>
      assert buf[..8] == ARROW_IPC_EOS && buf[..4] == CONTINUATION && buf[4..8] == [0, 0, 0, 0];
      assert PeekMessageBody(buf) == Some((8, buf[8..8])) && buf[8..8] == [];
  }

  /** What the writer produces are frames in this sense. */
  lemma FramesAreFrames(fb: Flatbuffers, msgs: Buffer)
    requires fb.ReadsAll(msgs)
    ensures FramesOf(fb, Frames(fb, msgs), msgs)
  {
    forall i | 0 <= i < |msgs| ensures FrameOf(fb, Frames(fb, msgs)[i], msgs[i]) {
      forall rest: Bytes ensures Shows(fb, Encode(fb, msgs[i]) + rest, msgs[i], |Encode(fb, msgs[i])|) {
        EncodeShows(fb, msgs[i], rest);
      }
    }
  }

  lemma FlattenHead(frames: seq<Bytes>)
    requires frames != []
    ensures Flatten(frames)[|frames[0]|..] == Flatten(frames[1..])
  {
  }

  lemma ReadMore(fb: Flatbuffers, buf: Bytes, m: Message, size: nat, msgs: Buffer)
    requires ReadFrame(fb, buf) == Some((m, size))
    requires ReadAll(fb, buf[size..]) == Some(msgs)
    ensures ReadAll(fb, buf) == Some([m] + msgs)
  {
  }

  lemma ReadStep(fb: Flatbuffers, frame: Bytes, rest: Bytes, m: Message, msgs: Buffer)
    requires FrameOf(fb, frame, m)
    requires ReadAll(fb, rest) == Some(msgs)
    ensures ReadAll(fb, frame + rest) == Some([m] + msgs)
  {
    assert Shows(fb, frame + rest, m, |frame|);
    assert (frame + rest)[|frame|..] == rest;
    ReadMore(fb, frame + rest, m, |frame|, msgs);
  }

  lemma {:induction false} ReadFrames(fb: Flatbuffers, frames: seq<Bytes>, msgs: Buffer)
    requires FramesOf(fb, frames, msgs)
    ensures ReadAll(fb, Flatten(frames)) == Some(msgs)
    decreases |frames|
  {
    if msgs != [] {
      ReadFrames(fb, frames[1..], msgs[1..]);
      ReadStep(fb, frames[0], Flatten(frames[1..]), msgs[0], msgs[1..]);
      assert [msgs[0]] + msgs[1..] == msgs;
    }
  }

  /** Round trip: reading the frames of encoded messages gives the messages. */
  lemma ReadEncoded(fb: Flatbuffers, msgs: Buffer)
    requires fb.ReadsAll(msgs)
    ensures ReadAll(fb, EncodeAll(fb, msgs)) == Some(msgs)
  {
    FramesAreFrames(fb, msgs);
    ReadFrames(fb, Frames(fb, msgs), msgs);
  }

  // ---------------------------------------------------------------------------
  // The hypothesis can be met
  // ---------------------------------------------------------------------------

  /** The first position of `m`. */
  function IndexOf(msgs: Buffer, m: Message): (i: nat)
    ensures i <= |msgs|
    ensures m in msgs ==> i < |msgs| && msgs[i] == m
  {
    if msgs == [] || msgs[0] == m then 0 else 1 + IndexOf(msgs[1..], m)
  }

  /** A flatbuffer code that numbers the given messages. */
  function Numbering(msgs: Buffer): Flatbuffers
  {
    Flatbuffers(
      (meta: Bytes) => if |meta| != 5 then None else Some(if meta[0] == 0 then SchemaHeader else RecordBatchHeader),
      (meta: Bytes) => if |meta| == 5 && meta[0] == 1 then 1 else 0,
      (s: Schema) => [0] + Le32(IndexOf(msgs, SchemaMsg(s))),
      (b: Batch) => [1] + Le32(IndexOf(msgs, BatchMsg(b))),
      (b: Batch) => [0],
      (meta: Bytes) => if |meta| != 5 then EMPTY_SCHEMA else
        var i := FromLe32(meta[1..]); if i < |msgs| && msgs[i].SchemaMsg? then msgs[i].schema else EMPTY_SCHEMA,
      (meta: Bytes, body: Bytes) => if |meta| != 5 then Batch(0, []) else
        var i := FromLe32(meta[1..]); if i < |msgs| && msgs[i].BatchMsg? then msgs[i].batch else Batch(0, []))
  }

  /** Every sequence of fewer than 2^32 messages is read back by some flatbuffer code. */
  lemma SomeFlatbuffersRead(msgs: Buffer)
    requires |msgs| < 0x1_0000_0000
    ensures Numbering(msgs).ReadsAll(msgs)
  {
    var fb := Numbering(msgs);
    forall k | 0 <= k < |msgs| ensures fb.Reads(msgs[k]) {
      var i := IndexOf(msgs, msgs[k]);
      assert msgs[k] in msgs;
      Le32RoundTrip(i);
      assert ([0] + Le32(i))[1..] == Le32(i) && ([1] + Le32(i))[1..] == Le32(i);
    }
  }

  // ---------------------------------------------------------------------------
  // The driver on bytes
  // ---------------------------------------------------------------------------

  /** Skip `n` frames. */
  function SkipFrames(fb: Flatbuffers, buf: Bytes, n: nat): (rest: Bytes)
    decreases n
  {
    if n == 0 || ReadFrame(fb, buf).None? then buf
    else SkipFrames(fb, buf[ReadFrame(fb, buf).value.1..], n - 1)
  }

  /** All that `drive_streaming_decoder` and its decoder ask of the bytes. */
  datatype Framing = Framing(
    startsWithEos: Bytes -> bool,
    isSchema: Bytes -> bool,
    totalSize: Bytes -> Option<nat>,
    messages: Bytes -> Option<Buffer>,
    skip: (Bytes, nat) -> Bytes)

  /** The tests the code makes. */
  function CodeFraming(fb: Flatbuffers): Framing
  {
    Framing(
      (b: Bytes) => StartsWithEos(b),
      (b: Bytes) => PeekIsSchemaMessage(fb, b),
      (b: Bytes) => PeekMessageTotalSize(b),
      (b: Bytes) => ReadAll(fb, b),
      (b: Bytes, n: nat) => SkipFrames(fb, b, n))
  }

  datatype ByteIteration =
    | LeaveB(decoder: Decoder)
    | FailB(decoder: Decoder)
    | AgainB(decoder: Decoder, buf: Bytes, out: seq<Decoded>)

  /** One round of `drive_streaming_decoder` on bytes. */
  function IterateBytes(f: Framing, d: Decoder, buf: Bytes): ByteIteration
  {
    if buf == [] then LeaveB(d)
    else if f.startsWithEos(buf) && |buf| >= |ARROW_IPC_EOS| then
      var rest := buf[|ARROW_IPC_EOS|..];
      AgainB(if rest != [] then d.Reset() else d, rest, [])
    else
      var total := f.totalSize(buf);
      if d.Schema().Some? && f.isSchema(buf) && total.Some? && total.value <= |buf| then
        AgainB(d, buf[total.value..], [])
      else
        var msgs := f.messages(buf);
        if msgs.None? then FailB(d)  // not cut at message boundaries: outside this model
        else
          var r := Decode(d, msgs.value);
          match r.reply
          case Got(b) =>
            if |r.rest| > |msgs.value| then FailB(d)
            else AgainB(r.decoder, f.skip(buf, |msgs.value| - |r.rest|), [b])
          case NeedMore => LeaveB(r.decoder)
          case SecondSchema => AgainB(d.Reset(), buf, [])
          case UnexpectedEos => AgainB(d.Reset(), buf, [])
          case MissingSchema => FailB(r.decoder)
  }

  /** The loop: it goes on as long as bytes are consumed or a fresh decoder is swapped in. */
  function DriveBytes(f: Framing, d: Decoder, buf: Bytes): Outcome
    decreases |buf|, if d.state.Fresh? then 0 else 1
  {
    match IterateBytes(f, d, buf)
    case LeaveB(d') => Ok(d', [])
    case FailB(d') => Err(d', [])
    case AgainB(d', buf', out) =>
      if |buf'| < |buf| || (buf' == buf && d'.state.Fresh? && !d.state.Fresh?) then
        DriveBytes(f, d', buf').After(out)
      else
        Loops([])
  }

  /** At frame `k` the framing answers as the message sequence says. */
  ghost predicate ViewAt(f: Framing, frames: seq<Bytes>, msgs: Buffer, k: nat)
    requires |frames| == |msgs| && k < |msgs|
  {
    var buf, tail := Flatten(frames[k..]), Flatten(frames[k + 1..]);
    && buf != [] && |tail| < |buf|
    && (f.startsWithEos(buf) <==> msgs[k].Eos?)
    && (msgs[k].Eos? ==> |buf| >= 8 && buf[8..] == tail)
    && (f.isSchema(buf) <==> msgs[k].SchemaMsg?)
    && (msgs[k].SchemaMsg? ==> f.totalSize(buf).Some? && f.totalSize(buf).value <= |buf|
                               && buf[f.totalSize(buf).value..] == tail)
    && f.messages(buf) == Some(msgs[k..])
    && forall n: nat :: 0 < n <= |msgs| - k ==> SkipAt(f, frames, k, n)
  }

  ghost predicate SkipAt(f: Framing, frames: seq<Bytes>, k: nat, n: nat)
    requires k + n <= |frames|
  {
    f.skip(Flatten(frames[k..]), n) == Flatten(frames[k + n..])
    && |Flatten(frames[k + n..])| < |Flatten(frames[k..])|
  }

  ghost predicate Views(f: Framing, frames: seq<Bytes>, msgs: Buffer)
  {
    |frames| == |msgs| && forall k: nat :: k < |msgs| ==> ViewAt(f, frames, msgs, k)
  }

  lemma {:induction false} DecodeLeavesSuffix(d: Decoder, buf: Buffer)
    ensures Decode(d, buf).reply.Got? ==>
              Decode(d, buf).rest == buf[|buf| - |Decode(d, buf).rest|..]
    decreases |buf|, if d.state.Held? then 1 else 0
  {
    if buf != [] {
      match d.state
      case Held(s) => DecodeLeavesSuffix(d.(state := Ready(s)), buf);
      case Fresh =>
        if buf[0].SchemaMsg? {
          var s := buf[0].schema;
          DecodeLeavesSuffix(d.(state := if d.lag && |buf| == 1 then Held(s) else Ready(s)), buf[1..]);
        } else if buf[0].Eos? {
          DecodeLeavesSuffix(d.(state := Finished(None)), buf[1..]);
        }
      case Ready(s) =>
        if buf[0].Eos? { DecodeLeavesSuffix(d.(state := Finished(Some(s))), buf[1..]); }
      case _ =>
    }
  }

  /** A round that is not the last drops a prefix, or swaps in a fresh decoder. */
  lemma AgainShrinks(d: Decoder, buf: Buffer)
    requires Iterate(d, buf).Again?
    ensures var i := Iterate(d, buf);
            || (|i.buf| < |buf| && i.buf == buf[|buf| - |i.buf|..])
            || (i.buf == buf && i.decoder == d.Reset())
  {
    DecodeLeavesSuffix(d, buf);
  }

  /** The messages a round leaves, as an index into the frames. */
  function IndexAfter(d: Decoder, msgs: Buffer, k: nat): nat
    requires k <= |msgs|
  {
    var i := Iterate(d, msgs[k..]);
    if i.Again? && |i.buf| <= |msgs| then |msgs| - |i.buf| else k
  }

  /** On message-aligned bytes every byte test decides as the message-level loop does. */
  lemma RoundRefines(f: Framing, d: Decoder, frames: seq<Bytes>, msgs: Buffer, k: nat)
    requires Views(f, frames, msgs) && k <= |msgs|
    ensures k <= IndexAfter(d, msgs, k) <= |msgs|
    ensures IterateBytes(f, d, Flatten(frames[k..])) ==
            match Iterate(d, msgs[k..])
            case Leave(d') => LeaveB(d')
            case Fail(d') => FailB(d')
            case Again(d', _, out) => AgainB(d', Flatten(frames[IndexAfter(d, msgs, k)..]), out)
  {
    if k < |msgs| {
      assert ViewAt(f, frames, msgs, k);
      assert msgs[k..][1..] == msgs[k + 1..];
      if k + 1 < |msgs| { assert ViewAt(f, frames, msgs, k + 1); }
      var r := Decode(d, msgs[k..]);
      if r.reply.Got? {
        assert SkipAt(f, frames, k, |msgs| - k - |r.rest|);
      }
    }
  }

  /** The driver on the bytes of a message sequence does what the driver on messages does. */
  lemma {:induction false} DriveFrames(f: Framing, d: Decoder, frames: seq<Bytes>, msgs: Buffer, k: nat)
    requires Views(f, frames, msgs) && k <= |msgs|
    ensures DriveBytes(f, d, Flatten(frames[k..])) == Drive(d, msgs[k..])
    decreases |msgs| - k, if d.state.Fresh? then 0 else 1
  {
    RoundRefines(f, d, frames, msgs, k);
    var i := Iterate(d, msgs[k..]);
    if i.Again? {
      AgainShrinks(d, msgs[k..]);
      var n := IndexAfter(d, msgs, k);
      assert i.buf == msgs[n..];
      if n > k {
        assert ViewAt(f, frames, msgs, k) && SkipAt(f, frames, k, n - k);
        DriveFrames(f, i.decoder, frames, msgs, n);
      } else if !d.state.Fresh? {
        DriveFrames(f, i.decoder, frames, msgs, k);
      }
    }
  }

  // ---------------------------------------------------------------------------
  // The code's tests on encoded messages
  // ---------------------------------------------------------------------------

  lemma {:induction false} SkipSome(fb: Flatbuffers, frames: seq<Bytes>, msgs: Buffer, n: nat)
    requires FramesOf(fb, frames, msgs) && n <= |msgs|
    ensures SkipFrames(fb, Flatten(frames), n) == Flatten(frames[n..])
    ensures n > 0 ==> |Flatten(frames[n..])| < |Flatten(frames)|
    decreases n
  {
    if n > 0 {
      FlattenHead(frames);
      assert Shows(fb, frames[0] + Flatten(frames[1..]), msgs[0], |frames[0]|);
      SkipSome(fb, frames[1..], msgs[1..], n - 1);
      assert frames[1..][n - 1..] == frames[n..];
    }
  }

  lemma CodeViewAt(fb: Flatbuffers, frames: seq<Bytes>, msgs: Buffer, k: nat)
    requires FramesOf(fb, frames, msgs) && k < |msgs|
    ensures ViewAt(CodeFraming(fb), frames, msgs, k)
  {
    var rest := frames[k..];
    FlattenHead(rest);
    assert rest[1..] == frames[k + 1..];
    assert FrameOf(fb, rest[0], msgs[k]);
    assert Shows(fb, rest[0] + Flatten(rest[1..]), msgs[k], |rest[0]|);
    ReadFrames(fb, rest, msgs[k..]);
    forall n: nat | 0 < n <= |msgs| - k ensures SkipAt(CodeFraming(fb), frames, k, n) {
      SkipSome(fb, rest, msgs[k..], n);
      assert rest[n..] == frames[k + n..];
    }
  }

  /** The driver on encoded messages decides every byte test as it would on the messages. */
  lemma DriveBytesRefines(fb: Flatbuffers, d: Decoder, msgs: Buffer)
    requires fb.ReadsAll(msgs)
    ensures DriveBytes(CodeFraming(fb), d, EncodeAll(fb, msgs)) == Drive(d, msgs)
  {
    var frames := Frames(fb, msgs);
    FramesAreFrames(fb, msgs);
    forall k: nat | k < |msgs| ensures ViewAt(CodeFraming(fb), frames, msgs, k) {
      CodeViewAt(fb, frames, msgs, k);
    }
    assert frames[0..] == frames && msgs[0..] == msgs;
    DriveFrames(CodeFraming(fb), d, frames, msgs, 0);
  }

  /** `from_bytes`. */
  function FromBytes(fb: Flatbuffers, lag: bool, bytes: Bytes): Built
  {
    match DriveBytes(CodeFraming(fb), NewDecoder(lag), bytes)
    case Ok(d, out) => Built(Buffered(out, 0), SchemaOr(d, EMPTY_SCHEMA))
    case Err(_, _) => BuildFailed(Conversion)
    case Loops(_) => BuildHangs
  }

  lemma FromBytesIsFromBuffer(fb: Flatbuffers, lag: bool, msgs: Buffer)
    requires fb.ReadsAll(msgs)
    ensures FromBytes(fb, lag, EncodeAll(fb, msgs)) == FromBuffer(lag, msgs)
  {
    DriveBytesRefines(fb, NewDecoder(lag), msgs);
  }
}
