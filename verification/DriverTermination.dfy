/**
  When `drive_streaming_decoder` terminates.

  The rollback branches put the buffer back and swap in a fresh decoder. If the decoder was
  anew already, the same prefix is replayed and the loop never ends. This module shows that
  `Drive(..).Loops?` is exactly that, bounds the number of rounds of every other run, and
  says which buffers loop.
 */
module DriverTermination {
  import opened Common
  import opened ArrowIpc
  import opened DecoderDriver

  /** After `n` rounds the loop has not been left. */
  ghost predicate StillRunning(d: Decoder, buf: Buffer, n: nat)
    decreases n
  {
    n == 0 || (
      var i := Iterate(d, buf);
      i.Again? && StillRunning(i.decoder, i.buf, n - 1))
  }

  /** Two rounds for each message, one more for a decoder that is not fresh, one to leave. */
  function RoundBound(d: Decoder, buf: Buffer): nat
  {
    2 * |buf| + (if d.state.Fresh? then 0 else 1) + 1
  }

  lemma {:induction false} StopsInTime(d: Decoder, buf: Buffer, n: nat)
    requires !Drive(d, buf).Loops?
    requires n >= RoundBound(d, buf)
    ensures !StillRunning(d, buf, n)
    decreases n
  {
    if Iterate(d, buf).Again? {
      DriveAgain(d, buf, []);
      StopsInTime(Iterate(d, buf).decoder, Iterate(d, buf).buf, n - 1);
    }
  }

  lemma {:induction false} NeverStops(d: Decoder, buf: Buffer, n: nat)
    requires Drive(d, buf).Loops?
    ensures StillRunning(d, buf, n)
    decreases n
  {
    if n > 0 {
      var i := Iterate(d, buf);
      NeverStops(i.decoder, i.buf, n - 1);
    }
  }

  /** `Loops` is non-termination, and a run still going at the bound never ends. */
  lemma LoopsIsNonTermination(d: Decoder, buf: Buffer)
    ensures Drive(d, buf).Loops? <==> forall n: nat :: StillRunning(d, buf, n)
    ensures Drive(d, buf).Loops? <==> StillRunning(d, buf, RoundBound(d, buf))
  {
    if Drive(d, buf).Loops? {
      forall n: nat ensures StillRunning(d, buf, n) { NeverStops(d, buf, n); }
    } else {
      StopsInTime(d, buf, RoundBound(d, buf));
    }
  }

  // ---------------------------------------------------------------------------
  // Which buffers loop
  // ---------------------------------------------------------------------------

  /**
    A schema with no batch before the next schema, or before a marker that bytes follow. A second
    schema that ends the buffer is not acted on by a decoder with `lag`.
   */
  ghost predicate Stuck(lag: bool, buf: Buffer)
  {
    && |buf| >= 2
    && buf[0].SchemaMsg?
    && (buf[1].SchemaMsg? || buf[1].Eos?)
    && (|buf| >= 3 || (buf[1].SchemaMsg? && !lag))
  }

  /**
    How the driver meets a message: with a decoder that is as good as fresh, inside a stream,
    with one that refuses the next batch, or with one that is broken.
   */
  datatype Stance = Anew | Inside | Refusing | Failing

  /** A held schema yields to another one; a finished or doubled decoder still skips schemas. */
  function StanceOf(d: Decoder, buf: Buffer): Stance
  {
    match d.state
    case Fresh => Anew
    case Held(_) => if buf != [] && buf[0].SchemaMsg? then Anew else Inside
    case Ready(_) => Inside
    case Doubled(_) => Refusing
    case Finished(last) => if last.Some? then Refusing else Anew
    case Broken => Failing
  }

  /** A marker starts anew, and the schema that opens a stream leads inside. */
  function NextStance(stance: Stance, m: Message): Stance {
    if m.Eos? then Anew else if stance.Anew? then Inside else stance
  }

  predicate FailsOn(stance: Stance, m: Message)
  {
    match stance
    case Anew => m.BatchMsg?
    case Inside => false
    case Refusing => m.BatchMsg?
    case Failing => !m.Eos?
  }

  /** The stance at message `i`. */
  function StanceAt(stance: Stance, buf: Buffer, i: nat): Stance
    requires i <= |buf|
  {
    if i == 0 then stance else NextStance(StanceAt(stance, buf, i - 1), buf[i - 1])
  }

  /** Message `i` opens a stuck prefix for a decoder that is as good as fresh, and nothing fails before. */
  ghost predicate LoopsAt(lag: bool, stance: Stance, buf: Buffer, i: nat)
  {
    && i <= |buf|
    && StanceAt(stance, buf, i).Anew?
    && Stuck(lag, buf[i..])
    && forall j: nat :: j < i ==> !FailsOn(StanceAt(stance, buf, j), buf[j])
  }

  lemma {:induction false} StanceAfter(stance: Stance, buf: Buffer, i: nat)
    requires i < |buf|
    ensures StanceAt(stance, buf, i + 1) == StanceAt(NextStance(stance, buf[0]), buf[1..], i)
  {
    if i == 0 {
      assert StanceAt(stance, buf, 1) == NextStance(StanceAt(stance, buf, 0), buf[0]);
    } else {
      StanceAfter(stance, buf, i - 1);
      assert buf[i] == buf[1..][i - 1];
    }
  }

  lemma {:induction false} ShiftLoopsAt(lag: bool, stance: Stance, buf: Buffer, i: nat)
    requires buf != [] && !FailsOn(stance, buf[0])
    ensures LoopsAt(lag, stance, buf, i + 1) <==> LoopsAt(lag, NextStance(stance, buf[0]), buf[1..], i)
  {
    if i < |buf| {
      var next, rest := NextStance(stance, buf[0]), buf[1..];
      assert buf[i + 1..] == rest[i..];
      forall j: nat | j < |buf| ensures StanceAt(stance, buf, j + 1) == StanceAt(next, rest, j) {
        StanceAfter(stance, buf, j);
      }
      if LoopsAt(lag, next, rest, i) {
        forall j: nat | j < i + 1 ensures !FailsOn(StanceAt(stance, buf, j), buf[j]) {
          if j > 0 { assert buf[j] == rest[j - 1] && !FailsOn(StanceAt(next, rest, j - 1), rest[j - 1]); }
        }
      }
      if LoopsAt(lag, stance, buf, i + 1) {
        forall j: nat | j < i ensures !FailsOn(StanceAt(next, rest, j), rest[j]) {
          assert !FailsOn(StanceAt(stance, buf, j + 1), buf[j + 1]);
        }
      }
    }
  }

  ghost predicate LoopsSomewhere(lag: bool, stance: Stance, buf: Buffer) {
    exists i: nat :: LoopsAt(lag, stance, buf, i)
  }

  lemma LoopsHereOrLater(lag: bool, stance: Stance, buf: Buffer, i: nat)
    requires buf != [] && LoopsAt(lag, stance, buf, i)
    ensures (stance.Anew? && Stuck(lag, buf)) ||
            (!FailsOn(stance, buf[0]) && LoopsSomewhere(lag, NextStance(stance, buf[0]), buf[1..]))
  {
    if i == 0 {
      assert buf[0..] == buf;
    } else {
      assert !FailsOn(StanceAt(stance, buf, 0), buf[0]);
      ShiftLoopsAt(lag, stance, buf, i - 1);
      assert LoopsAt(lag, NextStance(stance, buf[0]), buf[1..], i - 1);
    }
  }

  lemma LoopsHere(lag: bool, stance: Stance, buf: Buffer)
    requires stance.Anew? && Stuck(lag, buf)
    ensures LoopsSomewhere(lag, stance, buf)
  {
    assert buf[0..] == buf;
    assert LoopsAt(lag, stance, buf, 0);
  }

  lemma LoopsLater(lag: bool, stance: Stance, buf: Buffer, i: nat)
    requires buf != [] && !FailsOn(stance, buf[0])
    requires LoopsAt(lag, NextStance(stance, buf[0]), buf[1..], i)
    ensures LoopsSomewhere(lag, stance, buf)
  {
    ShiftLoopsAt(lag, stance, buf, i);
    assert LoopsAt(lag, stance, buf, i + 1);
  }

  /** The buffer loops iff it loops at its head or its tail loops. */
  lemma UnrollLoops(lag: bool, stance: Stance, buf: Buffer)
    requires buf != []
    ensures LoopsSomewhere(lag, stance, buf) <==>
            (stance.Anew? && Stuck(lag, buf)) ||
            (!FailsOn(stance, buf[0]) && LoopsSomewhere(lag, NextStance(stance, buf[0]), buf[1..]))
  {
    if LoopsSomewhere(lag, stance, buf) {
      var i: nat :| LoopsAt(lag, stance, buf, i);
      LoopsHereOrLater(lag, stance, buf, i);
    }
    if stance.Anew? && Stuck(lag, buf) { LoopsHere(lag, stance, buf); }
    if !FailsOn(stance, buf[0]) && LoopsSomewhere(lag, NextStance(stance, buf[0]), buf[1..]) {
      var i: nat :| LoopsAt(lag, NextStance(stance, buf[0]), buf[1..], i);
      LoopsLater(lag, stance, buf, i);
    }
  }

  /**
    From every decoder state the driver loops for ever exactly on the buffers where a decoder that
    is as good as fresh reaches a stuck prefix: at the start of the buffer or after a marker.
   */
  lemma {:induction false} DriveLoopsIff(d: Decoder, buf: Buffer)
    ensures Drive(d, buf).Loops? <==> LoopsSomewhere(d.lag, StanceOf(d, buf), buf)
    decreases |buf|, if d.state.Fresh? then 0 else 1, 1
  {
    if buf != [] {
      UnrollLoops(d.lag, StanceOf(d, buf), buf);
      if buf[0].Eos? {
        LoopsAfterMarker(d, buf);
      } else {
        match d.state
        case Fresh => LoopsFromFresh(d, buf);
        case Held(s) => if buf[0].BatchMsg? { LoopsAfterBatch(d, s, buf); } else { LoopsFromHeld(d, buf); }
        case Ready(s) => if buf[0].BatchMsg? { LoopsAfterBatch(d, s, buf); } else { LoopsAfterSkip(d, buf); }
        case Doubled(_) => LoopsFromRefusing(d, buf);
        case Finished(_) => LoopsFromRefusing(d, buf);
        case Broken => assert Iterate(d, buf).Fail?;
      }
    }
  }

  lemma {:induction false} LoopsAfterMarker(d: Decoder, buf: Buffer)
    requires buf != [] && buf[0].Eos?
    ensures Drive(d, buf).Loops? <==> LoopsSomewhere(d.lag, Anew, buf[1..])
    decreases |buf|, 0, 0
  {
    if |buf| > 1 {
      assert Iterate(d, buf) == Again(d.Reset(), buf[1..], []);
      DriveLoopsIff(d.Reset(), buf[1..]);
    } else {
      assert buf[1..] == [] && Drive(d, []).Ok?;
    }
  }

  lemma {:induction false} LoopsAfterBatch(d: Decoder, s: Schema, buf: Buffer)
    requires d.state == Ready(s) || d.state == Held(s)
    requires buf != [] && buf[0].BatchMsg?
    ensures Drive(d, buf).Loops? <==> LoopsSomewhere(d.lag, Inside, buf[1..])
    decreases |buf|, 0, 0
  {
    DecodeBatch(d, s, buf);
    DriveLoopsIff(d.(state := Ready(s)), buf[1..]);
  }

  /** A schema is skipped by a decoder that shows one. */
  lemma {:induction false} LoopsAfterSkip(d: Decoder, buf: Buffer)
    requires buf != [] && buf[0].SchemaMsg? && d.Schema().Some?
    ensures Drive(d, buf).Loops? <==> LoopsSomewhere(d.lag, StanceOf(d, buf), buf[1..])
    decreases |buf|, 0, 0
  {
    DriveLoopsIff(d, buf[1..]);
  }

  /** A finished or doubled decoder skips schemas and is replaced at a batch, which then fails. */
  lemma {:induction false} LoopsFromRefusing(d: Decoder, buf: Buffer)
    requires buf != [] && !buf[0].Eos?
    requires d.state.Doubled? || d.state.Finished?
    ensures Drive(d, buf).Loops? <==> LoopsSomewhere(d.lag, StanceOf(d, buf), buf)
    decreases |buf|, 1, 0
  {
    UnrollLoops(d.lag, StanceOf(d, buf), buf);
    if d.Schema().Some? && buf[0].SchemaMsg? {
      LoopsAfterSkip(d, buf);
    } else {
      assert Iterate(d, buf) == Again(d.Reset(), buf, []);
      DriveLoopsIff(d.Reset(), buf);
      UnrollLoops(d.lag, Anew, buf);
    }
  }

  /** A held schema followed by another: at the end of the buffer it is kept, else replayed. */
  lemma {:induction false} LoopsFromHeld(d: Decoder, buf: Buffer)
    requires d.state.Held? && buf != [] && buf[0].SchemaMsg?
    ensures Drive(d, buf).Loops? <==> LoopsSomewhere(d.lag, Anew, buf)
    decreases |buf|, 1, 0
  {
    var ready := d.(state := Ready(d.state.held));
    assert Decode(d, buf) == Decode(ready, buf);
    if d.lag && |buf| == 1 {
      assert Iterate(d, buf).Leave?;
      UnrollLoops(d.lag, Anew, buf);
      assert buf[1..] == [];
    } else {
      assert Iterate(d, buf) == Again(d.Reset(), buf, []);
      DriveLoopsIff(d.Reset(), buf);
    }
  }

  /** A fresh decoder replays a stuck prefix for ever. */
  lemma FreshIsStuck(d: Decoder, buf: Buffer)
    requires d.state.Fresh? && Stuck(d.lag, buf)
    ensures Drive(d, buf).Loops?
  {
    DecodeOpening(d, buf);
    assert Iterate(d, buf) == Again(d, buf, []);
  }

  /** A schema that ends the buffer, or is followed only by what the decoder takes. */
  lemma FreshShort(d: Decoder, buf: Buffer)
    requires d.state.Fresh? && buf != [] && buf[0].SchemaMsg?
    requires !Stuck(d.lag, buf) && (|buf| > 1 ==> !buf[1].BatchMsg?)
    ensures Drive(d, buf).Ok? && !LoopsSomewhere(d.lag, Inside, buf[1..])
  {
    var tail := buf[1..];
    DecodeOpening(d, buf);
    if |buf| > 1 {
      UnrollLoops(d.lag, Inside, tail);
      assert tail[1..] == [];
    }
  }

  /** A fresh decoder at the start of a stream. */
  lemma {:induction false} LoopsFromFresh(d: Decoder, buf: Buffer)
    requires d.state.Fresh? && buf != [] && !buf[0].Eos?
    ensures Drive(d, buf).Loops? <==> LoopsSomewhere(d.lag, Anew, buf)
    decreases |buf|, 0, 0
  {
    UnrollLoops(d.lag, Anew, buf);
    if buf[0].BatchMsg? {
      assert Iterate(d, buf).Fail?;
    } else if Stuck(d.lag, buf) {
      FreshIsStuck(d, buf);
    } else if |buf| > 1 && buf[1].BatchMsg? {
      var ready := d.(state := Ready(buf[0].schema));
      DecodeOpening(d, buf);
      UnrollLoops(d.lag, Inside, buf[1..]);
      assert buf[1..][1..] == buf[2..];
      assert Iterate(d, buf) == Again(ready, buf[2..], [Decoded(buf[0].schema, buf[1].batch)]);
      DriveLoopsIff(ready, buf[2..]);
    } else {
      FreshShort(d, buf);
    }
  }

  /** The simplest loop: an empty result with more bytes after its marker, in one buffer. */
  lemma EmptyStreamThenMoreLoops(lag: bool, s: Schema, t: Schema, b: Batch)
    ensures Drive(Decoder(lag, Fresh), [SchemaMsg(s), Eos, SchemaMsg(t), BatchMsg(b)]).Loops?
  {
    var d, buf := Decoder(lag, Fresh), [SchemaMsg(s), Eos, SchemaMsg(t), BatchMsg(b)];
    assert buf[0..] == buf;
    assert LoopsAt(lag, Anew, buf, 0);
    DriveLoopsIff(d, buf);
  }

  // ---------------------------------------------------------------------------
  // Termination from every decoder state
  // ---------------------------------------------------------------------------

  /** A schema is always followed by a batch, or ends the buffer. */
  ghost predicate Spaced(buf: Buffer)
  {
    forall i: nat :: i + 1 < |buf| && buf[i].SchemaMsg? ==> buf[i + 1].BatchMsg?
  }

  /** From every decoder state, also one left finished or broken, a spaced buffer terminates. */
  lemma {:induction false} SpacedTerminates(d: Decoder, buf: Buffer)
    requires Spaced(buf)
    ensures !Drive(d, buf).Loops?
    decreases |buf|, if d.state.Fresh? then 0 else 1
  {
    var i := Iterate(d, buf);
    if i.Again? {
      SpacedProgress(d, buf);
      SpacedTerminates(i.decoder, i.buf);
    }
  }

  lemma {:induction false} SpacedProgress(d: Decoder, buf: Buffer)
    requires Spaced(buf)
    requires Iterate(d, buf).Again?
    ensures var i := Iterate(d, buf);
            && Spaced(i.buf)
            && (|i.buf| < |buf| || (i.decoder.state.Fresh? && !d.state.Fresh?))
  {
    assert Spaced(buf[1..]);
    if !buf[0].Eos? && !(d.Schema().Some? && buf[0].SchemaMsg?) {
      if d.state.Fresh? && buf[0].SchemaMsg? {
        DecodeOpening(d, buf);
        if |buf| > 1 { assert buf[2..] == buf[1..][1..] && Spaced(buf[1..][1..]); }
      } else if (d.state.Held? || d.state.Ready?) && buf[0].BatchMsg? {
        DecodeBatch(d, if d.state.Held? then d.state.held else d.state.ready, buf);
      } else if d.state.Held? {
        assert Decode(d, buf) == Decode(d.(state := Ready(d.state.held)), buf);
      }
    }
  }
}
