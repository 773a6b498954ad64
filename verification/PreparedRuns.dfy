/**
  Every interleaving of calls on one prepared statement. A call first checks that the statement
  is alive and then runs under the cache lock; `close` first clears the flag and then empties the
  cache under the lock. Other calls may come in between.
 */
module PreparedRuns {
  import opened Common
  import opened PreparedSpec

  /** A call past its liveness check waits for the lock with the types of its parameters. */
  datatype State = State(st: Statement, waiting: seq<seq<Oid>>, runs: seq<Execution>)

  /** An execution: the types of its parameters and of the statement it used. */
  datatype Execution = Execution(params: seq<Oid>, statement: seq<Oid>)

  /** A call begins; waiting call `k` gets the lock and runs; the two halves of `close`. */
  datatype Action = Begin(oids: seq<Oid>) | Run(k: nat) | MarkClosed | DropCache

  function Step(s: State, a: Action): State
  {
    match a
    case Begin(oids) => if s.st.alive then s.(waiting := s.waiting + [oids]) else s
    case Run(k) =>
      if k >= |s.waiting| then s
      else
        var oids := s.waiting[k];
        var e := EnsureCached(s.st, oids);
        var rest := s.waiting[..k] + s.waiting[k + 1..];
        if e.ok && e.st.cached.Some? then
          State(e.st, rest, s.runs + [Execution(oids, e.st.cached.value)])
        else State(e.st, rest, s.runs)
    case MarkClosed => s.(st := s.st.(alive := false))
    case DropCache => s.(st := s.st.(cached := None))
  }

  function After(s: State, actions: seq<Action>): State
    decreases |actions|
  {
    if actions == [] then s else After(Step(s, actions[0]), actions[1..])
  }

  function Start(st: Statement): State {
    State(st, [], [])
  }

  // ---------------------------------------------------------------------------
  // Types are always right
  // ---------------------------------------------------------------------------

  /** Every execution used a statement of the right types, and so will one from the cache. */
  ghost predicate RightTypes(s: State)
  {
    match s.st.explicit
    case None => forall i :: 0 <= i < |s.runs| ==> s.runs[i].statement == s.runs[i].params
    case Some(oids) =>
      && (s.st.cached.Some? ==> s.st.cached.value == oids)
      && (forall i :: 0 <= i < |s.runs| ==> s.runs[i].statement == oids)
      && (forall i :: 0 <= i < |s.st.prepares| ==> s.st.prepares[i] == oids)
  }

  lemma {:induction false} RunsHaveRightTypes(s: State, actions: seq<Action>)
    requires RightTypes(s)
    ensures RightTypes(After(s, actions))
    decreases |actions|
  {
    if actions != [] {
      RunsHaveRightTypes(Step(s, actions[0]), actions[1..]);
    }
  }

  /** Inferred mode: each execution uses a statement prepared with exactly its parameters' types. */
  lemma InferredTypesMatch(script: seq<bool>, actions: seq<Action>)
    ensures var runs := After(Start(Prepare(script)), actions).runs;
            forall i :: 0 <= i < |runs| ==> runs[i].statement == runs[i].params
  {
    StaysInferred(Start(Prepare(script)), actions);
    RunsHaveRightTypes(Start(Prepare(script)), actions);
  }

  lemma {:induction false} StaysInferred(s: State, actions: seq<Action>)
    ensures After(s, actions).st.explicit == s.st.explicit
    decreases |actions|
  {
    if actions != [] { StaysInferred(Step(s, actions[0]), actions[1..]); }
  }

  /** Typed mode: every prepare and every execution uses the explicit types. */
  lemma TypedTypesMatch(oids: seq<Oid>, script: seq<bool>, actions: seq<Action>)
    ensures var s := After(Start(PrepareTyped(oids, script)), actions);
            && (forall i :: 0 <= i < |s.runs| ==> s.runs[i].statement == oids)
            && (forall i :: 0 <= i < |s.st.prepares| ==> s.st.prepares[i] == oids)
  {
    StaysInferred(Start(PrepareTyped(oids, script)), actions);
    RunsHaveRightTypes(Start(PrepareTyped(oids, script)), actions);
  }

  // ---------------------------------------------------------------------------
  // No call is lost
  // ---------------------------------------------------------------------------

  function ParamsOf(runs: seq<Execution>): seq<seq<Oid>> {
    seq(|runs|, i requires 0 <= i < |runs| => runs[i].params)
  }

  /** The call this action lets in. */
  function LetIn(s: State, a: Action): multiset<seq<Oid>> {
    if a.Begin? && s.st.alive then multiset{a.oids} else multiset{}
  }

  /** The call whose prepare fails in this action. */
  function Fails(s: State, a: Action): multiset<seq<Oid>>
  {
    if a.Run? && a.k < |s.waiting| && NeedsNew(s.st, s.waiting[a.k]) && !NextPrepareSucceeds(s.st) then
      multiset{s.waiting[a.k]}
    else multiset{}
  }

  function AllLetIn(s: State, actions: seq<Action>): multiset<seq<Oid>>
    decreases |actions|
  {
    if actions == [] then multiset{} else LetIn(s, actions[0]) + AllLetIn(Step(s, actions[0]), actions[1..])
  }

  function AllFailed(s: State, actions: seq<Action>): multiset<seq<Oid>>
    decreases |actions|
  {
    if actions == [] then multiset{} else Fails(s, actions[0]) + AllFailed(Step(s, actions[0]), actions[1..])
  }

  /** From `s` to `t` these calls were let in and failed; each failure and each prepare is one request. */
  ghost predicate Kept(s: State, t: State, letIn: multiset<seq<Oid>>, failed: multiset<seq<Oid>>)
  {
    && multiset(ParamsOf(s.runs)) + multiset(s.waiting) + letIn ==
       multiset(ParamsOf(t.runs)) + multiset(t.waiting) + failed
    && Requests(s, t, |failed|)
  }

  ghost predicate Requests(s: State, t: State, failures: nat)
  {
    var n := |t.st.prepares| - |s.st.prepares| + failures;
    && |t.st.prepares| >= |s.st.prepares|
    && t.st.script == (if n <= |s.st.script| then s.st.script[n..] else [])
  }

  lemma TakesOut(waiting: seq<seq<Oid>>, k: nat)
    requires k < |waiting|
    ensures multiset(waiting[..k] + waiting[k + 1..]) + multiset{waiting[k]} == multiset(waiting)
  {
    assert waiting == waiting[..k] + [waiting[k]] + waiting[k + 1..];
  }

  lemma RunMoves(s: State, t: State, k: nat, ran: bool, used: seq<Oid>)
    requires k < |s.waiting| && t.waiting == s.waiting[..k] + s.waiting[k + 1..]
    requires t.runs == if ran then s.runs + [Execution(s.waiting[k], used)] else s.runs
    ensures multiset(ParamsOf(t.runs)) + multiset(t.waiting) + (if ran then multiset{} else multiset{s.waiting[k]}) ==
            multiset(ParamsOf(s.runs)) + multiset(s.waiting)
  {
    TakesOut(s.waiting, k);
    if ran { assert ParamsOf(t.runs) == ParamsOf(s.runs) + [s.waiting[k]]; }
  }

  lemma StepKeeps(s: State, a: Action)
    ensures Kept(s, Step(s, a), LetIn(s, a), Fails(s, a))
  {
    if a.Run? && a.k < |s.waiting| {
      RunKeeps(s, a.k);
    } else if a.Begin? && s.st.alive {
      assert multiset(s.waiting + [a.oids]) == multiset(s.waiting) + multiset{a.oids};
    }
  }

  lemma RunKeeps(s: State, k: nat)
    requires k < |s.waiting|
    ensures Kept(s, Step(s, Run(k)), multiset{}, Fails(s, Run(k)))
  {
    var t := Step(s, Run(k));
    var oids := s.waiting[k];
    var e := EnsureCached(s.st, oids);
    var ran := e.ok;
    var used := if e.st.cached.Some? then e.st.cached.value else [];
    assert t.runs == if ran then s.runs + [Execution(oids, used)] else s.runs;
    assert Fails(s, Run(k)) == if ran then multiset{} else multiset{oids};
    RunMoves(s, t, k, ran, used);
  }

  lemma RequestsInTwo(s: State, t: State, u: State, a: nat, b: nat)
    requires Requests(s, t, a) && Requests(t, u, b)
    ensures Requests(s, u, a + b)
  {
  }

  lemma KeptInTwo(s: State, t: State, u: State, inA: multiset<seq<Oid>>, failA: multiset<seq<Oid>>,
                  inB: multiset<seq<Oid>>, failB: multiset<seq<Oid>>)
    requires Kept(s, t, inA, failA) && Kept(t, u, inB, failB)
    ensures Kept(s, u, inA + inB, failA + failB)
  {
    RequestsInTwo(s, t, u, |failA|, |failB|);
    InTwo(multiset(ParamsOf(s.runs)) + multiset(s.waiting), multiset(ParamsOf(t.runs)) + multiset(t.waiting),
          multiset(ParamsOf(u.runs)) + multiset(u.waiting), inA, failA, inB, failB);
    assert |failA + failB| == |failA| + |failB|;
  }

  lemma InTwo<T>(s: multiset<T>, t: multiset<T>, u: multiset<T>, inA: multiset<T>, failA: multiset<T>,
                 inB: multiset<T>, failB: multiset<T>)
    requires s + inA == t + failA && t + inB == u + failB
    ensures s + (inA + inB) == u + (failA + failB)
  {
    assert s + inA + inB == t + failA + inB == u + failB + failA;
    assert s + (inA + inB) == s + inA + inB && u + (failA + failB) == u + failB + failA;
  }

  /**
    Conservation over every interleaving: each call that got past its liveness check is still
    waiting, was executed with its own parameters, or had its prepare fail; and every request to
    prepare was either recorded or failed.
   */
  lemma {:induction false} NoCallIsLost(s: State, actions: seq<Action>)
    ensures Kept(s, After(s, actions), AllLetIn(s, actions), AllFailed(s, actions))
    decreases |actions|
  {
    if actions != [] {
      var t := Step(s, actions[0]);
      StepKeeps(s, actions[0]);
      NoCallIsLost(t, actions[1..]);
      KeptInTwo(s, t, After(s, actions), LetIn(s, actions[0]), Fails(s, actions[0]),
                AllLetIn(t, actions[1..]), AllFailed(t, actions[1..]));
    }
  }

  // ---------------------------------------------------------------------------
  // How often the server prepares
  // ---------------------------------------------------------------------------

  /** The parameter types of the executions, with consecutive repetitions dropped. */
  function Blocks(runs: seq<Execution>): seq<seq<Oid>>
  {
    if runs == [] then []
    else
      var n := |runs| - 1;
      Blocks(runs[..n]) + (if n > 0 && runs[n - 1].params == runs[n].params then [] else [runs[n].params])
  }

  lemma BlocksMore(runs: seq<Execution>, e: Execution)
    ensures Blocks(runs + [e]) ==
            Blocks(runs) + (if runs != [] && runs[|runs| - 1].params == e.params then [] else [e.params])
  {
    assert (runs + [e])[..|runs|] == runs;
  }

  /** In inferred mode a cached statement has the types of the last execution. */
  ghost predicate Linked(s: State)
  {
    && s.st.explicit.None?
    && (s.st.cached.Some? ==> s.runs != [] && s.st.cached.value == s.runs[|s.runs| - 1].params)
  }

  /**
    A waiting call finds the cache empty, prepares successfully, and has the types of the last
    execution: a prepare that repeats the last one.
   */
  predicate Repeats(s: State, a: Action)
  {
    && a.Run? && a.k < |s.waiting| && s.st.cached.None? && NextPrepareSucceeds(s.st)
    && s.runs != [] && s.runs[|s.runs| - 1].params == s.waiting[a.k]
  }

  ghost predicate RepeatsSomewhere(s: State, actions: seq<Action>)
    decreases |actions|
  {
    actions != [] && (Repeats(s, actions[0]) || RepeatsSomewhere(Step(s, actions[0]), actions[1..]))
  }

  /** How many prepares there are more than blocks. */
  function Surplus(s: State): int {
    |s.st.prepares| - |Blocks(s.runs)|
  }

  /** One call under the lock. */
  lemma RunStep(s: State, k: nat)
    requires Linked(s) && k < |s.waiting|
    ensures var t := Step(s, Run(k));
            && Linked(t)
            && (Repeats(s, Run(k)) ==> Surplus(t) == Surplus(s) + 1)
            && (!Repeats(s, Run(k)) ==> Surplus(t) == Surplus(s))
            && (!Repeats(s, Run(k)) && s.st.prepares == Blocks(s.runs) ==> t.st.prepares == Blocks(t.runs))
  {
    var oids := s.waiting[k];
    BlocksMore(s.runs, Execution(oids, oids));
    var t := Step(s, Run(k));
    if !NeedsNew(s.st, oids) {
      assert t.st == s.st && t.runs == s.runs + [Execution(oids, oids)];
    } else if NextPrepareSucceeds(s.st) {
      assert t.st.prepares == s.st.prepares + [oids] && t.runs == s.runs + [Execution(oids, oids)];
    } else {
      assert t.runs == s.runs && t.st.prepares == s.st.prepares;
    }
  }

  lemma OneStep(s: State, a: Action)
    requires Linked(s)
    ensures var t := Step(s, a);
            && Linked(t)
            && Surplus(t) == Surplus(s) + (if Repeats(s, a) then 1 else 0)
            && (!Repeats(s, a) && s.st.prepares == Blocks(s.runs) ==> t.st.prepares == Blocks(t.runs))
  {
    if a.Run? && a.k < |s.waiting| { RunStep(s, a.k); }
  }

  lemma {:induction false} SurplusGrows(s: State, actions: seq<Action>)
    requires Linked(s) && Surplus(s) >= 0
    ensures Surplus(After(s, actions)) >= Surplus(s)
    ensures Surplus(After(s, actions)) == Surplus(s) <==> !RepeatsSomewhere(s, actions)
    ensures !RepeatsSomewhere(s, actions) && s.st.prepares == Blocks(s.runs) ==>
              After(s, actions).st.prepares == Blocks(After(s, actions).runs)
    decreases |actions|
  {
    if actions != [] {
      OneStep(s, actions[0]);
      SurplusGrows(Step(s, actions[0]), actions[1..]);
    }
  }

  /**
    Inferred mode, every interleaving, prepares failing or not: the successful prepares are, in
    order, one for each maximal block of consecutive executions with the same parameter types, if
    and only if no call finds the cache empty and prepares the types of the last execution again.
   */
  lemma InferredBlocksIff(script: seq<bool>, actions: seq<Action>)
    ensures var s := Start(Prepare(script));
            After(s, actions).st.prepares == Blocks(After(s, actions).runs) <==> !RepeatsSomewhere(s, actions)
  {
    SurplusGrows(Start(Prepare(script)), actions);
  }

  /** `close` drops the cache only when no call is waiting for the lock. */
  ghost predicate ClosesAlone(s: State, actions: seq<Action>)
    decreases |actions|
  {
    actions == [] ||
    ((actions[0].DropCache? ==> s.waiting == [] && !s.st.alive) &&
     ClosesAlone(Step(s, actions[0]), actions[1..]))
  }

  /** After an execution the cache is empty only once the statement is closed and nobody waits. */
  ghost predicate EmptyOnlyAtRest(s: State) {
    s.st.cached.None? && s.runs != [] ==> s.waiting == [] && !s.st.alive
  }

  lemma {:induction false} NothingRepeats(s: State, actions: seq<Action>)
    requires ClosesAlone(s, actions) && EmptyOnlyAtRest(s)
    ensures !RepeatsSomewhere(s, actions)
    decreases |actions|
  {
    if actions != [] {
      NothingRepeats(Step(s, actions[0]), actions[1..]);
    }
  }

  /** In particular if no call overlaps `close`. */
  lemma InferredPreparesAreBlocks(script: seq<bool>, actions: seq<Action>)
    requires ClosesAlone(Start(Prepare(script)), actions)
    ensures var s := After(Start(Prepare(script)), actions); s.st.prepares == Blocks(s.runs)
  {
    NothingRepeats(Start(Prepare(script)), actions);
    InferredBlocksIff(script, actions);
  }

  /** The smallest repeat: a call that overlaps `close` prepares the same types again. */
  lemma OverlappingCloseRepeats(oids: seq<Oid>)
    ensures var s := After(Start(Prepare([])), [Begin(oids)] + ([Run(0)] + OverlapClose(oids)));
            s.st.prepares == [oids, oids] && Blocks(s.runs) == [oids]
  {
    var s1 := Step(Start(Prepare([])), Begin(oids));
    var s2 := Step(s1, Run(0));
    AfterFirst(s1, Run(0), OverlapClose(oids));
    AfterFirst(Start(Prepare([])), Begin(oids), [Run(0)] + OverlapClose(oids));
    var e := Execution(oids, oids);
    assert s2.runs == [] + [e];
    OverlapAgain(s2, oids);
    BlocksMore([], e);
    BlocksMore([e], e);
    assert [e] + [e] == [e, e];
  }

  /** A call that passes the liveness check, and gets the lock only after `close`. */
  function OverlapClose(oids: seq<Oid>): seq<Action> {
    [Begin(oids)] + ([MarkClosed] + ([DropCache] + [Run(0)]))
  }

  lemma OverlapAgain(s: State, oids: seq<Oid>)
    requires s.waiting == [] && s.st == Statement(None, Some(oids), true, [], [oids])
    ensures var t := After(s, OverlapClose(oids));
            t.st.prepares == [oids, oids] && t.runs == s.runs + [Execution(oids, oids)]
  {
    var s3 := Step(s, Begin(oids));
    var s4 := Step(s3, MarkClosed);
    var s5 := Step(s4, DropCache);
    AfterFirst(s5, Run(0), []);
    AfterFirst(s4, DropCache, [Run(0)]);
    AfterFirst(s3, MarkClosed, [DropCache] + [Run(0)]);
    AfterFirst(s, Begin(oids), [MarkClosed] + ([DropCache] + [Run(0)]));
    assert [Run(0)] + [] == [Run(0)] && [oids] + [oids] == [oids, oids];
  }

  lemma AfterFirst(s: State, a: Action, rest: seq<Action>)
    ensures After(s, [a] + rest) == After(Step(s, a), rest)
  {
    assert ([a] + rest)[1..] == rest;
  }

  /** A call takes the lock after the cache was dropped, and its prepare succeeds. */
  ghost predicate RunsAfterDrop(s: State, actions: seq<Action>)
    decreases |actions|
  {
    actions != [] &&
    ((actions[0].Run? && actions[0].k < |s.waiting| && s.st.cached.None? && NextPrepareSucceeds(s.st)) ||
     RunsAfterDrop(Step(s, actions[0]), actions[1..]))
  }

  lemma {:induction false} PreparesGrow(s: State, actions: seq<Action>)
    ensures |After(s, actions).st.prepares| >= |s.st.prepares|
    decreases |actions|
  {
    if actions != [] { PreparesGrow(Step(s, actions[0]), actions[1..]); }
  }

  lemma {:induction false} TypedPreparesOnce(s: State, actions: seq<Action>)
    requires s.st.explicit.Some?
    ensures |After(s, actions).st.prepares| == |s.st.prepares| <==> !RunsAfterDrop(s, actions)
    decreases |actions|
  {
    if actions != [] {
      var t := Step(s, actions[0]);
      TypedPreparesOnce(t, actions[1..]);
      PreparesGrow(t, actions[1..]);
    }
  }

  /**
    Typed mode: the one prepare of `prepareTyped` is the only one for the statement's life if and
    only if no call takes the lock after `close` has dropped the cache and prepares again.
   */
  lemma TypedPreparesOnceIff(oids: seq<Oid>, script: seq<bool>, actions: seq<Action>)
    ensures var s := Start(PrepareTyped(oids, script));
            |After(s, actions).st.prepares| == 1 <==> !RunsAfterDrop(s, actions)
  {
    TypedPreparesOnce(Start(PrepareTyped(oids, script)), actions);
  }

  lemma {:induction false} ClosingAloneIsSafe(s: State, actions: seq<Action>)
    requires ClosesAlone(s, actions)
    requires s.st.cached.None? ==> s.waiting == [] && !s.st.alive
    requires s.st.explicit.Some?
    ensures !RunsAfterDrop(s, actions)
    decreases |actions|
  {
    if actions != [] {
      ClosingAloneIsSafe(Step(s, actions[0]), actions[1..]);
    }
  }

  /** So without calls that overlap `close`, a typed statement is prepared exactly once. */
  lemma TypedPreparesOnceIfAlone(oids: seq<Oid>, script: seq<bool>, actions: seq<Action>)
    requires ClosesAlone(Start(PrepareTyped(oids, script)), actions)
    ensures |After(Start(PrepareTyped(oids, script)), actions).st.prepares| == 1
  {
    ClosingAloneIsSafe(Start(PrepareTyped(oids, script)), actions);
    TypedPreparesOnceIff(oids, script, actions);
  }

  /** A call that overlaps `close` prepares again, and leaves a statement cached for ever. */
  lemma OverlappingCloseReprepares(oids: seq<Oid>)
    ensures var s := After(Start(PrepareTyped(oids, [])), [Begin(oids), MarkClosed, DropCache, Run(0)]);
            s.st.prepares == [oids, oids] && s.st.cached == Some(oids) && !s.st.alive
  {
    var s0 := Start(PrepareTyped(oids, []));
    var s1 := Step(s0, Begin(oids));
    var s2 := Step(s1, MarkClosed);
    var s3 := Step(s2, DropCache);
    var s4 := Step(s3, Run(0));
    var a: seq<Action> := [Begin(oids), MarkClosed, DropCache, Run(0)];
    assert a[1..] == [MarkClosed, DropCache, Run(0)] && a[1..][1..] == [DropCache, Run(0)];
    assert a[1..][1..][1..] == [Run(0)] && a[1..][1..][1..][1..] == [];
    assert After(s0, a) == After(s1, a[1..]) == After(s2, a[1..][1..]) == After(s3, a[1..][1..][1..]) == After(s4, []);
  }

  // ---------------------------------------------------------------------------
  // The types of JSON parameters
  // ---------------------------------------------------------------------------

  predicate IsInteger(v: Json) {
    v.JNumber? && v.asI64.Some?
  }

  predicate IsSmallInteger(v: Json) {
    IsInteger(v) && -2_147_483_648 <= v.asI64.value <= 2_147_483_647
  }

  predicate IsFloat(v: Json) {
    v.JNumber? && v.asI64.None? && v.asF64.Some?
  }

  predicate IsText(v: Json) {
    v.JString? || v.JCompound?
  }

  /** A parameter is BOOLEAN, BIGINT, INT, TEXT or DOUBLE PRECISION by its kind, and untyped otherwise. */
  lemma OidIff(v: Json)
    ensures var oid := SqlOid(JsonValueToParam(v));
            && (oid == 16 <==> v.JBool?)
            && (oid == 23 <==> IsSmallInteger(v))
            && (oid == 20 <==> IsInteger(v) && !IsSmallInteger(v))
            && (oid == 701 <==> IsFloat(v))
            && (oid == 25 <==> IsText(v))
            && (oid == 0 <==> v.JNull? || v == JNumber(None, None))
  {
  }

  /** Of the same kind, as far as parameter types go. */
  predicate SameKind(v: Json, w: Json)
  {
    if v.JBool? then w.JBool?
    else if IsSmallInteger(v) then IsSmallInteger(w)
    else if IsInteger(v) then IsInteger(w) && !IsSmallInteger(w)
    else if IsFloat(v) then IsFloat(w)
    else if IsText(v) then IsText(w)
    else w.JNull? || w == JNumber(None, None)
  }

  /** The value of a parameter, whichever width it is sent in. */
  datatype Sent = Nothing | Truth(b: bool) | Whole(i: int) | Fractional(f: real) | Chars(s: string)

  function SentBy(v: Json): Sent
  {
    if v.JBool? then Truth(v.b)
    else if IsInteger(v) then Whole(v.asI64.value)
    else if IsFloat(v) then Fractional(v.asF64.value)
    else if v.JString? then Chars(v.s)
    else if v.JCompound? then Chars(v.text)
    else Nothing
  }

  function Received(p: ParamValue): Sent
  {
    match p
    case PNull => Nothing
    case PBool(b) => Truth(b)
    case PI32(i) => Whole(i)
    case PI64(i) => Whole(i)
    case PF64(f) => Fractional(f)
    case PString(s) => Chars(s)
  }

  /** No value changes on the way, and a 32-bit parameter fits its width. */
  lemma ParamKeepsValue(v: Json)
    ensures Received(JsonValueToParam(v)) == SentBy(v)
    ensures var p := JsonValueToParam(v); p.PI32? ==> -2_147_483_648 <= p.i <= 2_147_483_647
  {
  }

  /** Two calls have the same types if and only if they have as many parameters, of the same kinds. */
  lemma SameTypesIff(a: seq<Json>, b: seq<Json>)
    ensures OidsFrom(a) == OidsFrom(b) <==> |a| == |b| && forall i :: 0 <= i < |a| ==> SameKind(a[i], b[i])
  {
    if |a| == |b| {
      forall i | 0 <= i < |a| ensures OidsFrom(a)[i] == OidsFrom(b)[i] <==> SameKind(a[i], b[i]) {
        OidIff(a[i]);
        OidIff(b[i]);
      }
    } else {
      assert |OidsFrom(a)| != |OidsFrom(b)|;
    }
  }

  /** After one call, the next prepares again if and only if a parameter changes its kind. */
  lemma PreparesAgainIff(script: seq<bool>, a: seq<Json>, b: seq<Json>)
    requires EnsureCached(Prepare(script), OidsFrom(a)).ok
    ensures NeedsNew(EnsureCached(Prepare(script), OidsFrom(a)).st, OidsFrom(b)) <==>
            !(|a| == |b| && forall i :: 0 <= i < |a| ==> SameKind(a[i], b[i]))
  {
    SameTypesIff(a, b);
  }
}
