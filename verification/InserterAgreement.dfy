/**
  The three inserters compared on the payload calls all of them have, `insert_data`,
  `insert_record_batches` and `insert_raw`, and what those calls put on the wire.
 */
module InserterAgreement {
  import opened Common
  import opened ArrowFraming
  import opened InserterSpec
  import opened InserterRuns

  datatype Payload = Whole(data: Bytes) | Continuation(data: Bytes) | Unchecked(data: Bytes)

  function Insert(form: Form, st: Inserter, p: Payload): Result
  {
    match p
    case Whole(data) => InsertData(form, st, data)
    case Continuation(data) => InsertRecordBatches(form, st, data)
    case Unchecked(data) => InsertRaw(form, st, data)
  }

  datatype Trace = Trace(outcomes: seq<Outcome>, state: Inserter)

  /** Make these calls one after the other. */
  function Each(step: (Inserter, Payload) -> Result, st: Inserter, payloads: seq<Payload>): (t: Trace)
    ensures |t.outcomes| == |payloads|
    decreases |payloads|
  {
    if payloads == [] then Trace([], st)
    else
      var first := step(st, payloads[0]);
      var rest := Each(step, first.state, payloads[1..]);
      Trace([first.outcome] + rest.outcomes, rest.state)
  }

  function Inserting(form: Form): (Inserter, Payload) -> Result {
    (st: Inserter, p: Payload) => Insert(form, st, p)
  }

  function InsertAll(form: Form, st: Inserter, payloads: seq<Payload>): Trace {
    Each(Inserting(form), st, payloads)
  }

  /** The state without the insert mode, which only the sync form keeps. */
  function Modeless(st: Inserter): Inserter {
    st.(mode := None)
  }

  // ---------------------------------------------------------------------------
  // One call, as a plan of operations
  // ---------------------------------------------------------------------------

  /** Whether the call's guards let it through. */
  predicate LetThrough(form: Form, st: Inserter, p: Payload)
  {
    && !(form.Sync? && st.mode == Some(BatchIpc))
    && (p.Whole? ==> !st.schemaSent)
    && (p.Continuation? ==> st.schemaSent)
  }

  /** What the call does on the connection: open if need be, send, and flush when that is due. */
  function Plan(st: Inserter, data: Bytes): seq<Event>
  {
    (if st.open then [] else [Opened]) + [Sent(data)] +
    (if st.bufferedBytes + |data| >= st.flushThreshold then [Flushed] else [])
  }

  datatype Attempt = Attempt(ok: bool, io: Io)

  /** Attempt the operations in order, up to the first that fails. */
  function AttemptAll(io: Io, events: seq<Event>): Attempt
    decreases |events|
  {
    if events == [] then Attempt(true, io)
    else if io.Next() then AttemptAll(io.Try(events[0]), events[1..])
    else Attempt(false, io.Try(events[0]))
  }

  /**
    Every payload call of every form, whatever fails: an empty payload does nothing; a call that
    is not let through is rejected and does nothing; otherwise the call carries out its plan, is
    accepted if and only if all of it succeeds, and only then counted.
   */
  ghost predicate FollowsPlan(form: Form, st: Inserter, p: Payload)
  {
    var r := Insert(form, st, p);
    if p.data == [] then r == Result(Accepted, st)
    else if !LetThrough(form, st, p) then r == Result(Rejected, st)
    else
      var done := AttemptAll(st.io, Plan(st, p.data));
      && r.outcome == (if done.ok then Accepted else Failed)
      && r.state.io == done.io
      && r.state.chunkCount == st.chunkCount + (if done.ok then 1 else 0)
      && r.state.totalBytes == st.totalBytes + (if done.ok then |p.data| else 0)
      && (done.ok ==> r.state.open && (r.state.schemaSent <==> st.schemaSent || p.Whole? || form.Owned?))
  }

  lemma PlanInTwo(io: Io, first: Event, rest: seq<Event>)
    ensures AttemptAll(io, [first] + rest) ==
            if io.Next() then AttemptAll(io.Try(first), rest) else Attempt(false, io.Try(first))
  {
    assert ([first] + rest)[1..] == rest;
  }

  /** The part of a call after its session has been opened. */
  lemma SendFollowsPlan(st: Inserter, data: Bytes, mark: bool)
    requires st.open
    ensures var r, done := SendPayload(st, data, mark), AttemptAll(st.io, Plan(st, data));
            && r.outcome == (if done.ok then Accepted else Failed)
            && r.state.io == done.io && r.state.open && r.state.mode == st.mode
            && r.state.chunkCount == st.chunkCount + (if done.ok then 1 else 0)
            && r.state.totalBytes == st.totalBytes + (if done.ok then |data| else 0)
            && (done.ok ==> r.state.schemaSent == (st.schemaSent || mark))
  {
    var flush: seq<Event> := if st.bufferedBytes + |data| >= st.flushThreshold then [Flushed] else [];
    assert Plan(st, data) == [Sent(data)] + flush;
    PlanInTwo(st.io, Sent(data), flush);
    if flush != [] {
      assert flush == [Flushed] + [];
      PlanInTwo(st.io.Try(Sent(data)), Flushed, []);
    }
  }

  lemma InsertFollowsPlan(form: Form, st: Inserter, p: Payload)
    requires st.schemaSent ==> st.open
    ensures FollowsPlan(form, st, p)
  {
    if p.data != [] && LetThrough(form, st, p) {
      var begun := EnsureWriter(st).state;
      if begun.open { SendFollowsPlan(begun, p.data, form.Owned? && !p.Continuation?); }
      if !st.open {
        assert Plan(st, p.data) == [Opened] + Plan(begun.(open := true), p.data);
        PlanInTwo(st.io, Opened, Plan(begun.(open := true), p.data));
      }
    }
  }

  lemma PlanBytes(st: Inserter, data: Bytes)
    ensures SentBytes(Plan(st, data)) == data
  {
    var start: seq<Event> := if st.open then [] else [Opened];
    var flush: seq<Event> := if st.bufferedBytes + |data| >= st.flushThreshold then [Flushed] else [];
    assert [] + [Opened] == [Opened];
    Logged([], Opened);
    Logged(start, Sent(data));
    if flush != [] { Logged(start + [Sent(data)], Flushed); }
    assert Plan(st, data) == (start + [Sent(data)]) + flush;
  }

  /** No call reports success with its payload unsent, whatever fails. */
  lemma AcceptedMeansSent(form: Form, st: Inserter, p: Payload)
    requires st.schemaSent ==> st.open
    requires p.data != [] && Insert(form, st, p).outcome.Accepted?
    ensures SentBytes(Insert(form, st, p).state.io.log) == SentBytes(st.io.log) + p.data
  {
    var plan := Plan(st, p.data);
    InsertFollowsPlan(form, st, p);
    assert AttemptAll(st.io, plan).ok && Insert(form, st, p).state.io == AttemptAll(st.io, plan).io;
    PlanSends(st.io, plan);
    SentInTwo(st.io.log, plan);
    PlanBytes(st, p.data);
  }

  lemma {:induction false} PlanSends(io: Io, events: seq<Event>)
    requires AttemptAll(io, events).ok
    ensures AttemptAll(io, events).io.log == io.log + events
    decreases |events|
  {
    if events == [] {
      assert io.log + events == io.log;
    } else {
      PlanSends(io.Try(events[0]), events[1..]);
      assert (io.log + [events[0]]) + events[1..] == io.log + events;
    }
  }

  lemma {:induction false} SentInTwo(a: seq<Event>, b: seq<Event>)
    ensures SentBytes(a + b) == SentBytes(a) + SentBytes(b)
  {
    if b == [] {
      assert a + b == a;
    } else {
      var n := |b| - 1;
      assert (a + b)[..|a + b| - 1] == a + b[..n];
      SentInTwo(a, b[..n]);
    }
  }

  // ---------------------------------------------------------------------------
  // Sync and async
  // ---------------------------------------------------------------------------

  lemma PayloadModeless(st: Inserter, data: Bytes, mark: bool)
    ensures var a, b := SendPayload(st, data, mark), SendPayload(Modeless(st), data, mark);
            a.outcome == b.outcome && Modeless(a.state) == b.state && a.state.mode == st.mode
  {
  }

  lemma SyncStep(st: Inserter, p: Payload)
    requires st.mode != Some(BatchIpc)
    ensures var a, b := Insert(Sync, st, p), Insert(Async, Modeless(st), p);
            a.outcome == b.outcome && Modeless(a.state) == b.state && a.state.mode != Some(BatchIpc)
  {
    PayloadModeless(if p.Continuation? then st else EnsureWriter(st).state, p.data, false);
  }

  /** Sync and async agree on every run, whatever fails: same outcomes, same wire, same counts. */
  lemma {:induction false} SyncAgreesWithAsync(st: Inserter, payloads: seq<Payload>)
    requires st.mode != Some(BatchIpc)
    ensures InsertAll(Sync, st, payloads).outcomes == InsertAll(Async, Modeless(st), payloads).outcomes
    ensures Modeless(InsertAll(Sync, st, payloads).state) == InsertAll(Async, Modeless(st), payloads).state
    decreases |payloads|
  {
    if payloads != [] {
      SyncStep(st, payloads[0]);
      SyncAgreesWithAsync(Insert(Sync, st, payloads[0]).state, payloads[1..]);
    }
  }

  // ---------------------------------------------------------------------------
  // Async and owned
  // ---------------------------------------------------------------------------

  /**
    An `insert_data` that is let through, opens its session if need be, sends its payload, reaches
    the flush threshold and fails in the flush: read off the state before the call.
   */
  predicate FlushFails(st: Inserter, p: Payload)
  {
    var send := if st.open then 0 else 1;
    && p.Whole? && p.data != [] && !st.schemaSent
    && (!st.open ==> Upcoming(st.io, 0)) && Upcoming(st.io, send)
    && st.bufferedBytes + |p.data| >= st.flushThreshold
    && !Upcoming(st.io, send + 1)
  }

  /** An `insert_raw` that sends its payload: only the owned form then marks the schema as sent. */
  predicate RawMarks(st: Inserter, p: Payload)
  {
    && p.Unchecked? && p.data != [] && !st.schemaSent
    && (!st.open ==> Upcoming(st.io, 0)) && Upcoming(st.io, if st.open then 0 else 1)
  }

  /** The calls that leave the owned and the async form in different states. */
  predicate Diverges(st: Inserter, p: Payload) {
    FlushFails(st, p) || RawMarks(st, p)
  }

  /**
    The owned form marks the schema as sent before the flush, and also for `insert_raw`; the async
    form after it, and not. One call leaves both in the same state if and only if it is neither an
    `insert_data` whose flush fails nor an `insert_raw` that sends the first payload.
   */
  lemma OwnedAgreesIff(st: Inserter, p: Payload)
    ensures Insert(Owned, st, p).outcome == Insert(Async, st, p).outcome
    ensures Insert(Owned, st, p).state == Insert(Async, st, p).state <==> !Diverges(st, p)
    ensures Diverges(st, p) ==>
              && !Insert(Async, st, p).state.schemaSent
              && Insert(Owned, st, p).state == Insert(Async, st, p).state.(schemaSent := true)
  {
    if !p.Continuation? && p.data != [] && EnsureWriter(st).state.open {
      OwnedPayload(EnsureWriter(st).state, p.data);
    }
  }

  lemma OwnedPayload(st: Inserter, data: Bytes)
    requires st.open && data != []
    ensures var o, a := SendPayload(st, data, true), SendPayload(st, data, false);
            && o.outcome == a.outcome && o.state.(schemaSent := true) == a.state.(schemaSent := true)
            && a.state.schemaSent == st.schemaSent
            && (o.state.schemaSent <==> st.schemaSent || Upcoming(st.io, 0))
            && (Upcoming(st.io, 0) ==>
                  (a.outcome.Accepted? <==> st.bufferedBytes + |data| < st.flushThreshold || Upcoming(st.io, 1)))
  {
  }

  /** No call of the run diverges. */
  ghost predicate NeverDiverges(st: Inserter, payloads: seq<Payload>)
    decreases |payloads|
  {
    payloads == [] ||
    (!Diverges(st, payloads[0]) && NeverDiverges(Insert(Async, st, payloads[0]).state, payloads[1..]))
  }

  predicate NoRaw(payloads: seq<Payload>) {
    forall i :: 0 <= i < |payloads| ==> !payloads[i].Unchecked?
  }

  /** Once the schema flags differ the runs never meet again. */
  lemma {:induction false} DivergedStays(st: Inserter, payloads: seq<Payload>)
    requires !st.schemaSent
    ensures InsertAll(Owned, st.(schemaSent := true), payloads) != InsertAll(Async, st, payloads)
    decreases |payloads|
  {
    if payloads != [] {
      var p, marked := payloads[0], st.(schemaSent := true);
      if p.data == [] {
        DivergedStays(st, payloads[1..]);
        assert Insert(Owned, marked, p) == Result(Accepted, marked) && Insert(Async, st, p) == Result(Accepted, st);
        assert InsertAll(Owned, marked, payloads).outcomes[1..] == InsertAll(Owned, marked, payloads[1..]).outcomes;
        assert InsertAll(Async, st, payloads).outcomes[1..] == InsertAll(Async, st, payloads[1..]).outcomes;
      } else if p.Unchecked? {
        RawKeepsFlag(st, p);
        DivergedStays(Insert(Async, st, p).state, payloads[1..]);
        assert InsertAll(Owned, marked, payloads).outcomes[1..] ==
               InsertAll(Owned, Insert(Owned, marked, p).state, payloads[1..]).outcomes;
        assert InsertAll(Async, st, payloads).outcomes[1..] ==
               InsertAll(Async, Insert(Async, st, p).state, payloads[1..]).outcomes;
      } else {
        assert Insert(Owned, marked, p).outcome.Rejected? <==> p.Whole?;
        assert Insert(Async, st, p).outcome.Rejected? <==> !p.Whole?;
        assert InsertAll(Owned, marked, payloads).outcomes[0] != InsertAll(Async, st, payloads).outcomes[0];
      }
    }
  }

  lemma RawKeepsFlag(st: Inserter, p: Payload)
    requires !st.schemaSent && p.Unchecked?
    ensures !Insert(Async, st, p).state.schemaSent
    ensures Insert(Owned, st.(schemaSent := true), p).state == Insert(Async, st, p).state.(schemaSent := true)
    ensures Insert(Owned, st.(schemaSent := true), p).outcome == Insert(Async, st, p).outcome
  {
  }

  /** Over whole runs: owned and async agree if and only if no call diverges. */
  lemma {:induction false} OwnedRunAgreesIff(st: Inserter, payloads: seq<Payload>)
    ensures InsertAll(Owned, st, payloads) == InsertAll(Async, st, payloads) <==> NeverDiverges(st, payloads)
    decreases |payloads|
  {
    if payloads != [] {
      var p, rest := payloads[0], payloads[1..];
      var o, a := Insert(Owned, st, p).state, Insert(Async, st, p).state;
      OwnedAgreesIff(st, p);
      assert InsertAll(Owned, st, payloads).outcomes[1..] == InsertAll(Owned, o, rest).outcomes;
      assert InsertAll(Async, st, payloads).outcomes[1..] == InsertAll(Async, a, rest).outcomes;
      if Diverges(st, p) { DivergedStays(a, rest); } else { OwnedRunAgreesIff(a, rest); }
    }
  }

  /** In particular without `insert_raw`, if all the run's bytes stay below the flush threshold. */
  lemma {:induction false} BelowThresholdAgree(st: Inserter, payloads: seq<Payload>)
    requires NoRaw(payloads) && st.bufferedBytes + |PayloadBytes(payloads)| < st.flushThreshold
    ensures NeverDiverges(st, payloads)
    ensures InsertAll(Owned, st, payloads) == InsertAll(Async, st, payloads)
    decreases |payloads|
  {
    if payloads != [] {
      BufferedGrows(st, payloads[0]);
      BelowThresholdAgree(Insert(Async, st, payloads[0]).state, payloads[1..]);
    }
    OwnedRunAgreesIff(st, payloads);
  }

  lemma BufferedGrows(st: Inserter, p: Payload)
    ensures var r := Insert(Async, st, p).state;
            r.bufferedBytes <= st.bufferedBytes + |p.data| && r.flushThreshold == st.flushThreshold
  {
  }

  /** After such a flush the forms disagree: only the owned one takes record batches. */
  lemma FlushFailureSplitsForms(data: Bytes, more: Bytes)
    requires data != [] && more != []
    ensures var st := New(0, [true, true, false]);
            var payloads := [Whole(data), Continuation(more)];
            && InsertAll(Async, st, payloads).outcomes == [Failed, Rejected]
            && InsertAll(Owned, st, payloads).outcomes == [Failed, Accepted]
  {
    var st := New(0, [true, true, false]);
    var rest := [Continuation(more)];
    assert [Whole(data), Continuation(more)][1..] == rest && rest[1..] == [];
    var a, o := Insert(Async, st, Whole(data)), Insert(Owned, st, Whole(data));
    assert a.outcome.Failed? && !a.state.schemaSent && o.state == a.state.(schemaSent := true);
    assert InsertAll(Async, a.state, rest).outcomes == [Rejected] + InsertAll(Async, a.state, []).outcomes;
    assert o.state.io.script == [];
    assert InsertAll(Owned, o.state, rest).outcomes ==
           [Accepted] + InsertAll(Owned, Insert(Owned, o.state, rest[0]).state, []).outcomes;
  }

  /** So does an `insert_raw` that succeeds. */
  lemma RawSplitsForms(data: Bytes, more: Bytes)
    requires data != [] && more != []
    ensures var st := New(0, []);
            var payloads := [Unchecked(data), Continuation(more)];
            && InsertAll(Async, st, payloads).outcomes == [Accepted, Rejected]
            && InsertAll(Owned, st, payloads).outcomes == [Accepted, Accepted]
  {
    var st := New(0, []);
    var rest := [Continuation(more)];
    assert [Unchecked(data), Continuation(more)][1..] == rest && rest[1..] == [];
    var a, o := Insert(Async, st, Unchecked(data)), Insert(Owned, st, Unchecked(data));
    assert a.outcome.Accepted? && !a.state.schemaSent && o.state == a.state.(schemaSent := true);
    assert InsertAll(Async, a.state, rest).outcomes == [Rejected] + InsertAll(Async, a.state, []).outcomes;
    assert o.state.io.script == [];
    assert InsertAll(Owned, o.state, rest).outcomes ==
           [Accepted] + InsertAll(Owned, Insert(Owned, o.state, rest[0]).state, []).outcomes;
  }

  // ---------------------------------------------------------------------------
  // The wire without I/O failures
  // ---------------------------------------------------------------------------

  /** Whether a payload fits the schema flag, and the flag after it. */
  predicate Fits(flag: bool, p: Payload) {
    (p.Whole? ==> !flag) && (p.Continuation? ==> flag)
  }

  function FlagAfter(rawMarks: bool, flag: bool, p: Payload): bool {
    flag || p.Whole? || (p.Unchecked? && rawMarks)
  }

  /** Which payloads should go on the wire, read off the payloads alone. */
  function Wanted(rawMarks: bool, flag: bool, payloads: seq<Payload>): seq<Payload>
    decreases |payloads|
  {
    if payloads == [] then []
    else if payloads[0].data != [] && Fits(flag, payloads[0]) then
      [payloads[0]] + Wanted(rawMarks, FlagAfter(rawMarks, flag, payloads[0]), payloads[1..])
    else Wanted(rawMarks, flag, payloads[1..])
  }

  /** The outcomes there should be. */
  function WantedOutcomes(rawMarks: bool, flag: bool, payloads: seq<Payload>): seq<Outcome>
    decreases |payloads|
  {
    if payloads == [] then []
    else
      var p := payloads[0];
      if p.data == [] then [Accepted] + WantedOutcomes(rawMarks, flag, payloads[1..])
      else if Fits(flag, p) then [Accepted] + WantedOutcomes(rawMarks, FlagAfter(rawMarks, flag, p), payloads[1..])
      else [Rejected] + WantedOutcomes(rawMarks, flag, payloads[1..])
  }

  function PayloadBytes(payloads: seq<Payload>): Bytes
  {
    if payloads == [] then [] else payloads[0].data + PayloadBytes(payloads[1..])
  }

  /** No I/O failure is to come, and every byte sent so far is counted. */
  ghost predicate Quiet(st: Inserter)
  {
    && Sound(st) && st.io.script == [] && st.mode != Some(BatchIpc)
    && st.totalBytes == |SentBytes(st.io.log)|
  }

  /** One call without failures sends and counts its payload, or changes nothing. */
  ghost predicate QuietCall(step: (Inserter, Payload) -> Result, rawMarks: bool, st: Inserter, p: Payload)
  {
    Quiet(st) ==>
      var r := step(st, p);
      && Quiet(r.state)
      && r.outcome == (if p.data == [] || Fits(st.schemaSent, p) then Accepted else Rejected)
      && (if p.data != [] && Fits(st.schemaSent, p) then
            && SentBytes(r.state.io.log) == SentBytes(st.io.log) + p.data
            && r.state.chunkCount == st.chunkCount + 1
            && r.state.schemaSent == FlagAfter(rawMarks, st.schemaSent, p)
          else
            r.state == st)
  }

  lemma QuietStep(form: Form, st: Inserter, p: Payload)
    ensures QuietCall(Inserting(form), form.Owned?, st, p)
  {
    if Quiet(st) {
      match p
      case Whole(data) => QuietWhole(form, st, data);
      case Continuation(data) => QuietContinuation(form, st, data);
      case Unchecked(data) => QuietRaw(form, st, data);
    }
  }

  /** The common part of the calls that may open the session. */
  lemma QuietOpening(st: Inserter, data: Bytes, mark: bool)
    requires Quiet(st)
    ensures var begun := EnsureWriter(st); var r := SendPayload(begun.state, data, mark);
            && begun.outcome.Accepted? && r.outcome.Accepted? && Quiet(r.state)
            && SentBytes(r.state.io.log) == SentBytes(st.io.log) + data
            && r.state.chunkCount == st.chunkCount + 1
            && r.state.mode == st.mode && r.state.schemaSent == (st.schemaSent || mark)
            && r.state.open
  {
    EnsureWriterSound(st);
    SendPayloadSound(EnsureWriter(st).state, data, mark);
    QuietPayload(EnsureWriter(st).state, data, mark);
  }

  lemma QuietWhole(form: Form, st: Inserter, data: Bytes)
    requires Quiet(st)
    ensures QuietCall(Inserting(form), form.Owned?, st, Whole(data))
  {
    QuietOpening(st, data, form.Owned?);
  }

  lemma QuietContinuation(form: Form, st: Inserter, data: Bytes)
    requires Quiet(st)
    ensures QuietCall(Inserting(form), form.Owned?, st, Continuation(data))
  {
    InsertRecordBatchesSound(form, st, data);
    if st.schemaSent {
      SendPayloadSound(st, data, false);
      QuietPayload(st, data, false);
    }
  }

  lemma QuietRaw(form: Form, st: Inserter, data: Bytes)
    requires Quiet(st)
    ensures QuietCall(Inserting(form), form.Owned?, st, Unchecked(data))
  {
    QuietOpening(st, data, form.Owned?);
  }

  lemma QuietPayload(st: Inserter, data: Bytes, mark: bool)
    requires st.open && st.io.script == []
    ensures var r := SendPayload(st, data, mark);
            && r.outcome.Accepted? && r.state.io.script == []
            && r.state.chunkCount == st.chunkCount + 1
            && r.state.mode == st.mode && r.state.schemaSent == (st.schemaSent || mark)
  {
  }

  /** What a run of quiet calls leaves on the wire. */
  ghost predicate PayloadsSent(st: Inserter, end: Inserter, sent: seq<Payload>)
  {
    && SentBytes(end.io.log) == SentBytes(st.io.log) + PayloadBytes(sent)
    && end.totalBytes == |SentBytes(end.io.log)|
    && end.chunkCount == st.chunkCount + |sent|
  }

  lemma {:induction false} QuietRun(step: (Inserter, Payload) -> Result, rawMarks: bool,
                                    st: Inserter, payloads: seq<Payload>)
    requires Quiet(st)
    requires forall x, p :: QuietCall(step, rawMarks, x, p)
    ensures PayloadsSent(st, Each(step, st, payloads).state, Wanted(rawMarks, st.schemaSent, payloads))
    ensures Each(step, st, payloads).outcomes == WantedOutcomes(rawMarks, st.schemaSent, payloads)
    decreases |payloads|
  {
    if payloads == [] {
      assert SentBytes(st.io.log) + [] == SentBytes(st.io.log);
    } else {
      var p := payloads[0];
      assert QuietCall(step, rawMarks, st, p);
      var next := step(st, p).state;
      QuietRun(step, rawMarks, next, payloads[1..]);
      if p.data != [] && Fits(st.schemaSent, p) {
        var rest := Wanted(rawMarks, next.schemaSent, payloads[1..]);
        assert ([p] + rest)[1..] == rest;
        assert SentBytes(st.io.log) + (p.data + PayloadBytes(rest)) ==
               (SentBytes(st.io.log) + p.data) + PayloadBytes(rest);
      }
    }
  }

  /**
    Without I/O failures every form accepts exactly the empty payloads and those that fit the
    schema flag, puts the accepted ones on the wire in order, and counts them. An `insert_raw`
    always fits; in the owned form it also sets the flag.
   */
  lemma WireIsPayloads(form: Form, threshold: nat, payloads: seq<Payload>)
    ensures var st := New(threshold, []);
            && PayloadsSent(st, InsertAll(form, st, payloads).state, Wanted(form.Owned?, false, payloads))
            && InsertAll(form, st, payloads).outcomes == WantedOutcomes(form.Owned?, false, payloads)
  {
    forall x, p ensures QuietCall(Inserting(form), form.Owned?, x, p) { QuietStep(form, x, p); }
    QuietRun(Inserting(form), form.Owned?, New(threshold, []), payloads);
  }

  /** One `insert_data` payload, unless the schema was sent before, and then only record batches. */
  predicate OneWholeFirst(flag: bool, sent: seq<Payload>) {
    forall i :: 0 <= i < |sent| ==> (sent[i].Whole? <==> i == 0 && !flag) && !sent[i].Unchecked?
  }

  lemma {:induction false} WireShape(rawMarks: bool, flag: bool, payloads: seq<Payload>)
    requires NoRaw(payloads)
    ensures OneWholeFirst(flag, Wanted(rawMarks, flag, payloads))
    decreases |payloads|
  {
    if payloads != [] {
      var p := payloads[0];
      assert NoRaw(payloads[1..]);
      if p.data != [] && Fits(flag, p) {
        WireShape(rawMarks, FlagAfter(rawMarks, flag, p), payloads[1..]);
      } else {
        WireShape(rawMarks, flag, payloads[1..]);
      }
    }
  }

  /** Without I/O failures and `insert_raw` all three forms make the same run. */
  lemma QuietRunsAgree(threshold: nat, payloads: seq<Payload>)
    requires NoRaw(payloads)
    ensures var st := New(threshold, []);
            var sync, async := InsertAll(Sync, st, payloads), InsertAll(Async, st, payloads);
            var owned := InsertAll(Owned, st, payloads);
            && sync.outcomes == async.outcomes == owned.outcomes
            && Modeless(sync.state) == async.state == owned.state
  {
    SyncAgreesWithAsync(New(threshold, []), payloads);
    QuietNeverDiverges(New(threshold, []), payloads);
    OwnedRunAgreesIff(New(threshold, []), payloads);
  }

  lemma {:induction false} QuietNeverDiverges(st: Inserter, payloads: seq<Payload>)
    requires Quiet(st) && NoRaw(payloads)
    ensures NeverDiverges(st, payloads)
    decreases |payloads|
  {
    if payloads != [] {
      QuietStep(Async, st, payloads[0]);
      assert Inserting(Async)(st, payloads[0]) == Insert(Async, st, payloads[0]);
      QuietNeverDiverges(Insert(Async, st, payloads[0]).state, payloads[1..]);
    }
  }
}
