/**
  The streaming query results of the Node bindings (query_stream.rs, and columnar.rs with a
  larger channel): a background producer, a bounded channel, and a consumer that takes the
  receiver out of a mutex for each `next_chunk` and puts it back when rows arrived.

  A state machine whose actions may interleave in any order. The channel capacity, 2 for row
  chunks and 4 for columnar chunks, is a parameter.
 */
module StreamProtocol {
  import opened Common

  // ---------------------------------------------------------------------------
  // The query and what should arrive
  // ---------------------------------------------------------------------------

  /** A chunk of rows, row-wise or columnar; its contents do not matter to the protocol. */
  datatype Chunk = Chunk(rows: seq<int>)

  /** What the database will do: fail at once, or yield chunks and then end or fail. */
  datatype Query = Query(
    openError: Option<string>,
    chunks: seq<Chunk>,
    failure: Option<string>,
    hasSchema: bool)

  datatype Item = Rows(chunk: Chunk) | Failure(message: string)

  const NO_SCHEMA := "No schema available"

  function AsItems(chunks: seq<Chunk>): seq<Item> {
    seq(|chunks|, i requires 0 <= i < |chunks| => Rows(chunks[i]))
  }

  function LastItem(failure: Option<string>): seq<Item> {
    if failure.Some? then [Failure(failure.value)] else []
  }

  /** The items of a query in order: its chunks and, last, at most one failure. */
  function Items(q: Query): seq<Item>
  {
    if q.openError.Some? then [Failure(q.openError.value)]
    else if q.chunks != [] && !q.hasSchema then [Failure("No schema available")]
    else AsItems(q.chunks) + LastItem(q.failure)
  }

  // ---------------------------------------------------------------------------
  // The machine
  // ---------------------------------------------------------------------------

  /** Where the producer task is; `Sending` remembers the chunk to fetch next, if any. */
  datatype Producer =
    | Opening
    | Fetching(next: nat)
    | Sending(item: Item, after: Option<nat>)
    | Finished

  /** Where the receiver is: in the mutex, held by a pending `next_chunk`, or dropped. */
  datatype Receiver = InSlot | Taken | Gone

  datatype Reply = Got(item: Item) | Null

  datatype State = State(
    producer: Producer,
    queue: seq<Item>,
    receiver: Receiver,
    schemaSet: bool,
    replies: seq<Reply>)

  /** One step of the producer, a call of `next_chunk`, its completion, or `cancel`. */
  datatype Action = Produce | Call | Complete | Cancel

  function Init(): State {
    State(Opening, [], InSlot, false, [])
  }

  function ProduceStep(q: Query, capacity: nat, s: State): State
  {
    match s.producer
    case Opening =>
      if q.openError.Some? then s.(producer := Sending(Failure(q.openError.value), None))
      else s.(producer := Fetching(0))
    case Fetching(i) =>
      if i < |q.chunks| then
        if !q.hasSchema then s.(producer := Sending(Failure(NO_SCHEMA), None))
        else s.(producer := Sending(Rows(q.chunks[i]), Some(i + 1)), schemaSet := true)
      else if q.failure.Some? then s.(producer := Sending(Failure(q.failure.value), None))
      else s.(producer := Finished)
    case Sending(item, after) =>
      if s.receiver.Gone? then s.(producer := Finished)
      else if |s.queue| < capacity then
        s.(queue := s.queue + [item],
           producer := if after.Some? then Fetching(after.value) else Finished)
      else s
    case Finished => s
  }

  /** `next_chunk` takes the receiver, or answers null when the mutex is empty. */
  function CallStep(s: State): State
  {
    if s.receiver.InSlot? then s.(receiver := Taken) else s.(replies := s.replies + [Null])
  }

  /** `recv().await`: rows put the receiver back, a failure or the end drops it. */
  function CompleteStep(s: State): State
  {
    if !s.receiver.Taken? then s
    else if s.queue != [] then
      var item := s.queue[0];
      if item.Rows? then s.(queue := s.queue[1..], receiver := InSlot, replies := s.replies + [Got(item)])
      else s.(queue := [], receiver := Gone, replies := s.replies + [Got(item)])
    else if s.producer.Finished? then s.(receiver := Gone, replies := s.replies + [Null])
    else s
  }

  /** `cancel` empties the mutex; a receiver held by a pending call is not in it. */
  function CancelStep(s: State): State
  {
    if s.receiver.InSlot? then s.(receiver := Gone, queue := []) else s
  }

  function Step(q: Query, capacity: nat, s: State, a: Action): State
  {
    match a
    case Produce => ProduceStep(q, capacity, s)
    case Call => CallStep(s)
    case Complete => CompleteStep(s)
    case Cancel => CancelStep(s)
  }

  function Run(q: Query, capacity: nat, s: State, actions: seq<Action>): State
    decreases |actions|
  {
    if actions == [] then s else Run(q, capacity, Step(q, capacity, s, actions[0]), actions[1..])
  }

  // ---------------------------------------------------------------------------
  // The invariant
  // ---------------------------------------------------------------------------

  /** The items the consumer was given, in order. */
  function Received(replies: seq<Reply>): seq<Item>
  {
    if replies == [] then []
    else
      var last := replies[|replies| - 1];
      Received(replies[..|replies| - 1]) + (if last.Got? then [last.item] else [])
  }

  function InHand(p: Producer): seq<Item> {
    if p.Sending? then [p.item] else []
  }

  /** How many items the producer has made so far. */
  function Made(q: Query, p: Producer): nat
  {
    match p
    case Opening => 0
    case Fetching(i) => i
    case Sending(_, after) => if after.Some? then after.value else |Items(q)|
    case Finished => |Items(q)|
  }

  /** What the producer holds fits the query. */
  ghost predicate ProducerFits(q: Query, p: Producer, schemaSet: bool)
  {
    match p
    case Opening => true
    case Fetching(i) => q.openError.None? && i <= |q.chunks| && (i > 0 ==> q.hasSchema && schemaSet)
    case Sending(item, Some(i)) =>
      q.openError.None? && 0 < i <= |q.chunks| && q.hasSchema && schemaSet && item == Rows(q.chunks[i - 1])
    case Sending(item, None) => Items(q) != [] && item == Items(q)[|Items(q)| - 1] && item.Failure?
    case Finished => true
  }

  ghost predicate NoRows(items: seq<Item>) {
    forall i :: 0 <= i < |items| ==> items[i].Failure?
  }

  ghost predicate NoFailures(items: seq<Item>) {
    forall i :: 0 <= i < |items| ==> items[i].Rows?
  }

  /**
    Of the items `made`, those `got` by the consumer, those in the `queue` and the one in the
    producer's `hand` are, in order, all of them, as long as the receiver is alive; a failure has
    been received only if it is gone; and rows are about only once the schema is set.
   */
  ghost predicate ChannelFits(made: seq<Item>, got: seq<Item>, queue: seq<Item>, hand: seq<Item>,
                              receiver: Receiver, schemaSet: bool)
  {
    && (if receiver.Gone? then queue == [] && got <= made else got + queue + hand == made && NoFailures(got))
    && (!schemaSet ==> NoRows(got) && NoRows(queue) && NoRows(hand))
  }

  /** What holds between any two steps. */
  ghost predicate Inv(q: Query, capacity: nat, s: State)
  {
    && |s.queue| <= capacity
    && ProducerFits(q, s.producer, s.schemaSet)
    && Made(q, s.producer) <= |Items(q)|
    && ChannelFits(Items(q)[..Made(q, s.producer)], Received(s.replies), s.queue, InHand(s.producer),
                   s.receiver, s.schemaSet)
  }

  lemma Replied(replies: seq<Reply>, r: Reply)
    ensures r.Got? ==> Received(replies + [r]) == Received(replies) + [r.item]
    ensures r.Null? ==> Received(replies + [r]) == Received(replies)
  {
    assert (replies + [r])[..|replies|] == replies;
    assert Received(replies) + [] == Received(replies);
  }

  lemma ItemsAt(q: Query, i: nat)
    requires q.openError.None? && q.hasSchema && i < |q.chunks|
    ensures i < |Items(q)| && Items(q)[i] == Rows(q.chunks[i])
    ensures Items(q)[..i + 1] == Items(q)[..i] + [Rows(q.chunks[i])]
  {
  }

  /** A failure, if there is one, is the last item. */
  lemma FailureIsLast(q: Query, i: nat)
    requires i < |Items(q)| && Items(q)[i].Failure?
    ensures i == |Items(q)| - 1
  {
  }

  lemma OpenKeepsInv(q: Query, capacity: nat, s: State)
    requires Inv(q, capacity, s) && s.producer.Opening?
    ensures Inv(q, capacity, ProduceStep(q, capacity, s))
  {
    if q.openError.Some? { assert Items(q)[..1] == Items(q); }
  }

  /** A chunk goes from the query into the producer's hand, and the schema is set. */
  lemma FetchedFits(made: seq<Item>, got: seq<Item>, queue: seq<Item>, item: Item, receiver: Receiver, schemaSet: bool)
    requires ChannelFits(made, got, queue, [], receiver, schemaSet)
    ensures ChannelFits(made + [item], got, queue, [item], receiver, schemaSet || item.Rows?)
  {
    assert got + queue + [] == got + queue;
    assert got <= made ==> got <= made + [item];
  }

  lemma FetchChunkKeepsInv(q: Query, capacity: nat, s: State)
    requires Inv(q, capacity, s) && s.producer.Fetching?
    requires s.producer.next < |q.chunks| && q.hasSchema
    ensures Inv(q, capacity, ProduceStep(q, capacity, s))
  {
    var i := s.producer.next;
    ItemsAt(q, i);
    FetchedFits(Items(q)[..i], Received(s.replies), s.queue, Rows(q.chunks[i]), s.receiver, s.schemaSet);
  }

  /** The last item is a failure: the schema is missing, or the query failed. */
  lemma FetchFailureKeepsInv(q: Query, capacity: nat, s: State, message: string)
    requires Inv(q, capacity, s) && s.producer.Fetching?
    requires ProduceStep(q, capacity, s) == s.(producer := Sending(Failure(message), None))
    requires Items(q) == Items(q)[..s.producer.next] + [Failure(message)]
    ensures Inv(q, capacity, ProduceStep(q, capacity, s))
  {
    var made := Items(q)[..s.producer.next];
    assert Items(q)[..|Items(q)|] == Items(q);
    FetchedFits(made, Received(s.replies), s.queue, Failure(message), s.receiver, s.schemaSet);
  }

  lemma FetchKeepsInv(q: Query, capacity: nat, s: State)
    requires Inv(q, capacity, s) && s.producer.Fetching?
    ensures Inv(q, capacity, ProduceStep(q, capacity, s))
  {
    var i := s.producer.next;
    if i < |q.chunks| && q.hasSchema {
      FetchChunkKeepsInv(q, capacity, s);
    } else if i < |q.chunks| {
      assert Items(q) == [Failure(NO_SCHEMA)] && i == 0;
      FetchFailureKeepsInv(q, capacity, s, NO_SCHEMA);
    } else if q.failure.Some? {
      assert Items(q) == AsItems(q.chunks) + LastItem(q.failure);
      FetchFailureKeepsInv(q, capacity, s, q.failure.value);
    } else {
      assert Items(q) == AsItems(q.chunks) + [] && Items(q)[..i] == Items(q) == Items(q)[..|Items(q)|];
    }
  }

  /** The item in hand moves to the queue. */
  lemma Enqueued(made: seq<Item>, got: seq<Item>, queue: seq<Item>, item: Item, receiver: Receiver, schemaSet: bool)
    requires ChannelFits(made, got, queue, [item], receiver, schemaSet) && !receiver.Gone?
    ensures ChannelFits(made, got, queue + [item], [], receiver, schemaSet)
  {
    assert got + (queue + [item]) + [] == got + queue + [item];
  }

  lemma SendKeepsInv(q: Query, capacity: nat, s: State)
    requires Inv(q, capacity, s) && s.producer.Sending?
    ensures Inv(q, capacity, ProduceStep(q, capacity, s))
  {
    var made := Items(q)[..Made(q, s.producer)];
    if s.receiver.Gone? {
      assert Received(s.replies) <= made && Items(q)[..|Items(q)|] == Items(q) && made <= Items(q);
    } else if |s.queue| < capacity {
      Enqueued(made, Received(s.replies), s.queue, s.producer.item, s.receiver, s.schemaSet);
    }
  }

  /** The head of the queue moves to the consumer. */
  lemma Dequeued(made: seq<Item>, got: seq<Item>, queue: seq<Item>, hand: seq<Item>, schemaSet: bool)
    requires ChannelFits(made, got, queue, hand, Taken, schemaSet) && queue != []
    ensures if queue[0].Rows? then ChannelFits(made, got + [queue[0]], queue[1..], hand, InSlot, schemaSet)
            else ChannelFits(made, got + [queue[0]], [], hand, Gone, schemaSet)
    ensures |got| < |made| && made[|got|] == queue[0]
  {
    assert queue == [queue[0]] + queue[1..];
    assert got + queue + hand == (got + [queue[0]]) + queue[1..] + hand;
  }

  lemma CompleteKeepsInv(q: Query, capacity: nat, s: State)
    requires Inv(q, capacity, s)
    ensures Inv(q, capacity, CompleteStep(s))
  {
    var made, got := Items(q)[..Made(q, s.producer)], Received(s.replies);
    if s.receiver.Taken? && s.queue != [] {
      Replied(s.replies, Got(s.queue[0]));
      Dequeued(made, got, s.queue, InHand(s.producer), s.schemaSet);
    } else if s.receiver.Taken? {
      Replied(s.replies, Null);
      Dropped(made, got, s.queue, InHand(s.producer), s.receiver, s.schemaSet);
    }
  }

  /** Dropping the receiver drops the queue. */
  lemma Dropped(made: seq<Item>, got: seq<Item>, queue: seq<Item>, hand: seq<Item>, receiver: Receiver, schemaSet: bool)
    requires ChannelFits(made, got, queue, hand, receiver, schemaSet)
    ensures ChannelFits(made, got, [], hand, Gone, schemaSet)
  {
    assert !receiver.Gone? ==> got <= got + queue + hand;
  }

  lemma StepKeepsInv(q: Query, capacity: nat, s: State, a: Action)
    requires Inv(q, capacity, s)
    ensures Inv(q, capacity, Step(q, capacity, s, a))
  {
    match a
    case Produce =>
      if s.producer.Opening? { OpenKeepsInv(q, capacity, s); }
      else if s.producer.Fetching? { FetchKeepsInv(q, capacity, s); }
      else if s.producer.Sending? { SendKeepsInv(q, capacity, s); }
    case Call => CallKeepsInv(q, capacity, s);
    case Complete => CompleteKeepsInv(q, capacity, s);
    case Cancel => CancelKeepsInv(q, capacity, s);
  }

  lemma CallKeepsInv(q: Query, capacity: nat, s: State)
    requires Inv(q, capacity, s)
    ensures Inv(q, capacity, CallStep(s))
  {
    Replied(s.replies, Null);
  }

  lemma CancelKeepsInv(q: Query, capacity: nat, s: State)
    requires Inv(q, capacity, s)
    ensures Inv(q, capacity, CancelStep(s))
  {
    Dropped(Items(q)[..Made(q, s.producer)], Received(s.replies), s.queue, InHand(s.producer), s.receiver, s.schemaSet);
  }

  /** Every interleaving of producer and consumer, `cancel` and overlapping calls included. */
  lemma {:induction false} RunKeepsInv(q: Query, capacity: nat, s: State, actions: seq<Action>)
    requires Inv(q, capacity, s)
    ensures Inv(q, capacity, Run(q, capacity, s, actions))
    decreases |actions|
  {
    if actions != [] {
      StepKeepsInv(q, capacity, s, actions[0]);
      RunKeepsInv(q, capacity, Step(q, capacity, s, actions[0]), actions[1..]);
    }
  }

  // ---------------------------------------------------------------------------
  // What the consumer sees
  // ---------------------------------------------------------------------------

  /** The state after a run from the start. */
  function After(q: Query, capacity: nat, actions: seq<Action>): State {
    Run(q, capacity, Init(), actions)
  }

  /**
    In every interleaving: the consumer receives a prefix of the query's items, so rows come in
    order without loss or repetition and a failure comes at most once and last; the queue keeps
    its bound; and no rows arrive before the schema is set.
   */
  lemma DeliveryIsPrefix(q: Query, capacity: nat, actions: seq<Action>)
    ensures var s := After(q, capacity, actions);
            && Received(s.replies) <= Items(q)
            && |s.queue| <= capacity
            && (!s.receiver.Gone? ==> Received(s.replies) + s.queue + InHand(s.producer) <= Items(q))
            && (!s.schemaSet ==> NoRows(Received(s.replies)))
    ensures var got := Received(After(q, capacity, actions).replies);
            forall i :: 0 <= i < |got| && got[i].Failure? ==> i == |Items(q)| - 1 == |got| - 1
  {
    RunKeepsInv(q, capacity, Init(), actions);
    var s := After(q, capacity, actions);
    var got := Received(s.replies);
    Dropped(Items(q)[..Made(q, s.producer)], got, s.queue, InHand(s.producer), s.receiver, s.schemaSet);
    forall i | 0 <= i < |got| && got[i].Failure? ensures i == |Items(q)| - 1 == |got| - 1 {
      FailureIsLast(q, i);
    }
  }

  // ---------------------------------------------------------------------------
  // Null
  // ---------------------------------------------------------------------------

  /** Once the receiver is gone it stays gone, and every later reply is null. */
  lemma {:induction false} GoneIsFinal(q: Query, capacity: nat, s: State, actions: seq<Action>)
    requires s.receiver.Gone?
    ensures var t := Run(q, capacity, s, actions);
            t.receiver.Gone? && s.replies <= t.replies &&
            forall i :: |s.replies| <= i < |t.replies| ==> t.replies[i].Null?
    decreases |actions|
  {
    if actions != [] {
      var t := Step(q, capacity, s, actions[0]);
      assert t.receiver.Gone? && (t.replies == s.replies || t.replies == s.replies + [Null]);
      GoneIsFinal(q, capacity, t, actions[1..]);
    }
  }

  /** `next_chunk` is called only when no earlier call is pending. */
  ghost predicate NonOverlapping(q: Query, capacity: nat, s: State, actions: seq<Action>)
    decreases |actions|
  {
    actions == [] ||
    ((actions[0].Call? ==> !s.receiver.Taken?) &&
     NonOverlapping(q, capacity, Step(q, capacity, s, actions[0]), actions[1..]))
  }

  /** A null reply has been given only if the receiver is gone. */
  ghost predicate NullMeansGone(s: State)
  {
    (exists i :: 0 <= i < |s.replies| && s.replies[i].Null?) ==> s.receiver.Gone?
  }

  lemma {:induction false} NullOnlyWhenGone(q: Query, capacity: nat, s: State, actions: seq<Action>)
    requires NullMeansGone(s) && NonOverlapping(q, capacity, s, actions)
    ensures NullMeansGone(Run(q, capacity, s, actions))
    decreases |actions|
  {
    if actions != [] {
      NullOnlyWhenGone(q, capacity, Step(q, capacity, s, actions[0]), actions[1..]);
    }
  }

  /** With non-overlapping calls null is absorbing: after the first null reply all are null. */
  lemma NullIsAbsorbing(q: Query, capacity: nat, before: seq<Action>, after: seq<Action>)
    requires NonOverlapping(q, capacity, Init(), before)
    ensures var s := After(q, capacity, before);
            (exists i :: 0 <= i < |s.replies| && s.replies[i].Null?) ==>
              var t := Run(q, capacity, s, after);
              s.replies <= t.replies && forall i :: |s.replies| <= i < |t.replies| ==> t.replies[i].Null?
  {
    NullOnlyWhenGone(q, capacity, Init(), before);
    var s := After(q, capacity, before);
    if s.receiver.Gone? { GoneIsFinal(q, capacity, s, after); }
  }

  /** The receiver is gone only after everything arrived. */
  ghost predicate GoneMeansDelivered(q: Query, s: State)
  {
    s.receiver.Gone? ==> Received(s.replies) == Items(q)
  }

  /** Receiving a failure means having received everything. */
  lemma FailureEnds(q: Query, k: nat, got: seq<Item>, queue: seq<Item>, hand: seq<Item>, schemaSet: bool)
    requires k <= |Items(q)| && queue != [] && queue[0].Failure?
    requires ChannelFits(Items(q)[..k], got, queue, hand, Taken, schemaSet)
    ensures got + [queue[0]] == Items(q)
  {
    Dequeued(Items(q)[..k], got, queue, hand, schemaSet);
    FailureIsLast(q, |got|);
    assert Items(q)[..k] == Items(q);
    assert Items(q) == Items(q)[..|got|] + [queue[0]];
  }

  /** A finished producer and an empty queue mean having received everything. */
  lemma EndOfQueue(q: Query, got: seq<Item>, schemaSet: bool)
    requires ChannelFits(Items(q)[..|Items(q)|], got, [], [], Taken, schemaSet)
    ensures got == Items(q)
  {
    assert got + [] + [] == got;
  }

  lemma CompleteDelivers(q: Query, capacity: nat, s: State)
    requires Inv(q, capacity, s) && GoneMeansDelivered(q, s)
    ensures GoneMeansDelivered(q, CompleteStep(s))
  {
    if s.receiver.Taken? && s.queue != [] {
      Replied(s.replies, Got(s.queue[0]));
      if s.queue[0].Failure? {
        FailureEnds(q, Made(q, s.producer), Received(s.replies), s.queue, InHand(s.producer), s.schemaSet);
      }
    } else if s.receiver.Taken? && s.producer.Finished? {
      Replied(s.replies, Null);
      EndOfQueue(q, Received(s.replies), s.schemaSet);
    }
  }

  /** The producer does not touch the receiver or the replies. */
  lemma ProducingIsSilent(q: Query, capacity: nat, s: State)
    ensures ProduceStep(q, capacity, s).receiver == s.receiver
    ensures ProduceStep(q, capacity, s).replies == s.replies
  {
  }

  lemma CallDelivers(q: Query, s: State)
    requires GoneMeansDelivered(q, s)
    ensures GoneMeansDelivered(q, CallStep(s))
  {
    Replied(s.replies, Null);
  }

  lemma StepDelivers(q: Query, capacity: nat, s: State, a: Action)
    requires Inv(q, capacity, s) && GoneMeansDelivered(q, s) && !a.Cancel?
    ensures GoneMeansDelivered(q, Step(q, capacity, s, a))
  {
    match a
    case Produce => ProducingIsSilent(q, capacity, s);
    case Call => CallDelivers(q, s);
    case Complete => CompleteDelivers(q, capacity, s);
  }

  lemma {:induction false} RunDelivers(q: Query, capacity: nat, s: State, actions: seq<Action>)
    requires Inv(q, capacity, s) && GoneMeansDelivered(q, s)
    requires Cancel !in actions
    ensures GoneMeansDelivered(q, Run(q, capacity, s, actions))
    decreases |actions|
  {
    if actions != [] {
      StepKeepsInv(q, capacity, s, actions[0]);
      StepDelivers(q, capacity, s, actions[0]);
      RunDelivers(q, capacity, Step(q, capacity, s, actions[0]), actions[1..]);
    }
  }

  /**
    Null means the end: if calls do not overlap and nobody cancels, a null reply comes only after
    every chunk of the query, and its failure if it has one, has been delivered.
   */
  lemma NullMeansComplete(q: Query, capacity: nat, actions: seq<Action>)
    requires NonOverlapping(q, capacity, Init(), actions) && Cancel !in actions
    ensures var s := After(q, capacity, actions);
            (exists i :: 0 <= i < |s.replies| && s.replies[i].Null?) ==> Received(s.replies) == Items(q)
  {
    NullOnlyWhenGone(q, capacity, Init(), actions);
    RunDelivers(q, capacity, Init(), actions);
  }

  // ---------------------------------------------------------------------------
  // Progress
  // ---------------------------------------------------------------------------

  /** Steps the producer has left. */
  function Work(q: Query, p: Producer): nat
    requires ProducerFits(q, p, true)
  {
    var n := |q.chunks|;
    match p
    case Opening => 2 * n + 3
    case Fetching(i) => 2 * (n - i) + 2
    case Sending(_, after) => if after.Some? then 2 * (n - after.value) + 3 else 1
    case Finished => 0
  }

  /** What is left to do: producing, receiving, and calling. */
  function Measure(q: Query, s: State): nat
    requires ProducerFits(q, s.producer, true)
  {
    4 * Work(q, s.producer) + 2 * |s.queue| +
    (match s.receiver case InSlot => 2 case Taken => 1 case Gone => 0)
  }

  lemma FitsLater(q: Query, capacity: nat, s: State)
    requires Inv(q, capacity, s)
    ensures ProducerFits(q, s.producer, true)
  {
  }

  lemma ProducingCounts(q: Query, capacity: nat, s: State)
    requires ProducerFits(q, s.producer, true)
    requires ProducerFits(q, ProduceStep(q, capacity, s).producer, true)
    ensures ProduceStep(q, capacity, s) != s ==> Measure(q, ProduceStep(q, capacity, s)) < Measure(q, s)
  {
  }

  lemma ReceivingCounts(q: Query, s: State)
    requires ProducerFits(q, s.producer, true)
    ensures CompleteStep(s) != s ==> Measure(q, CompleteStep(s)) < Measure(q, s)
    ensures s.receiver.InSlot? ==> Measure(q, CallStep(s)) < Measure(q, s)
  {
  }

  /** Every step of the producer, of a pending call, or into a call makes the measure smaller. */
  lemma StepsCount(q: Query, capacity: nat, s: State, a: Action)
    requires Inv(q, capacity, s)
    requires a.Produce? || a.Complete? || (a.Call? && s.receiver.InSlot?)
    ensures Inv(q, capacity, Step(q, capacity, s, a))
    ensures ProducerFits(q, s.producer, true) && ProducerFits(q, Step(q, capacity, s, a).producer, true)
    ensures Step(q, capacity, s, a) != s ==> Measure(q, Step(q, capacity, s, a)) < Measure(q, s)
  {
    StepKeepsInv(q, capacity, s, a);
    FitsLater(q, capacity, s);
    FitsLater(q, capacity, Step(q, capacity, s, a));
    if a.Produce? { ProducingCounts(q, capacity, s); } else { ReceivingCounts(q, s); }
  }

  /** A next step that does something, while the receiver is alive. */
  function NextAction(q: Query, capacity: nat, s: State): Action
  {
    if s.receiver.InSlot? then Call
    else if s.queue != [] || s.producer.Finished? then Complete
    else Produce
  }

  lemma NextActionMoves(q: Query, capacity: nat, s: State)
    requires Inv(q, capacity, s) && capacity > 0 && !s.receiver.Gone?
    ensures Step(q, capacity, s, NextAction(q, capacity, s)) != s
  {
    if s.receiver.InSlot? {
      assert CallStep(s).receiver.Taken?;
    } else if s.queue != [] || s.producer.Finished? {
      assert !CompleteStep(s).receiver.Taken?;
    } else if s.producer.Sending? {
      assert |ProduceStep(q, capacity, s).queue| == 1;
    } else {
      assert ProduceStep(q, capacity, s).producer != s.producer;
    }
  }

  /** One action in front of a schedule. */
  lemma OneMoreAction(q: Query, capacity: nat, s: State, a: Action, rest: seq<Action>)
    ensures Run(q, capacity, s, [a] + rest) == Run(q, capacity, Step(q, capacity, s, a), rest)
    ensures NonOverlapping(q, capacity, s, [a] + rest) <==>
            (a.Call? ==> !s.receiver.Taken?) && NonOverlapping(q, capacity, Step(q, capacity, s, a), rest)
  {
    assert ([a] + rest)[1..] == rest;
  }

  /** Once everything has been delivered one call answers null. */
  lemma LastCall(q: Query, capacity: nat, s: State)
    requires s.receiver.Gone? && Received(s.replies) == Items(q)
    ensures NonOverlapping(q, capacity, s, [Call])
    ensures Run(q, capacity, s, [Call]).replies == s.replies + [Null]
    ensures Received(s.replies + [Null]) == Items(q)
  {
    assert [Call][1..] == [];
    Replied(s.replies, Null);
  }

  /**
    No deadlock: from every reachable state in which nobody cancelled, a schedule no longer than
    the measure delivers every item still missing and then answers null.
   */
  lemma {:induction false} EverythingIsDelivered(q: Query, capacity: nat, s: State) returns (actions: seq<Action>)
    requires Inv(q, capacity, s) && capacity > 0 && GoneMeansDelivered(q, s)
    ensures ProducerFits(q, s.producer, true) && |actions| <= Measure(q, s) + 1
    ensures Cancel !in actions && NonOverlapping(q, capacity, s, actions)
    ensures var t := Run(q, capacity, s, actions);
            && Received(t.replies) == Items(q)
            && t.replies != [] && t.replies[|t.replies| - 1].Null?
    decreases if ProducerFits(q, s.producer, true) then Measure(q, s) else 0
  {
    FitsLater(q, capacity, s);
    if s.receiver.Gone? {
      actions := [Call];
      LastCall(q, capacity, s);
    } else {
      var a := NextAction(q, capacity, s);
      NextActionMoves(q, capacity, s);
      StepsCount(q, capacity, s, a);
      StepDelivers(q, capacity, s, a);
      var rest := EverythingIsDelivered(q, capacity, Step(q, capacity, s, a));
      actions := [a] + rest;
      OneMoreAction(q, capacity, s, a, rest);
    }
  }

  /** An action that does something and neither overlaps a pending call nor cancels. */
  predicate Effective(q: Query, capacity: nat, s: State, a: Action)
  {
    && (a.Produce? || a.Complete? || (a.Call? && s.receiver.InSlot?))
    && Step(q, capacity, s, a) != s
  }

  ghost predicate EffectiveAll(q: Query, capacity: nat, s: State, actions: seq<Action>)
    decreases |actions|
  {
    actions == [] ||
    (Effective(q, capacity, s, actions[0]) &&
     EffectiveAll(q, capacity, Step(q, capacity, s, actions[0]), actions[1..]))
  }

  /**
    Every scheduler makes it: a schedule of effective actions is no longer than the measure, and
    once it cannot be extended everything has been delivered.
   */
  lemma {:induction false} EveryScheduleDelivers(q: Query, capacity: nat, s: State, actions: seq<Action>)
    requires Inv(q, capacity, s) && capacity > 0 && GoneMeansDelivered(q, s)
    requires EffectiveAll(q, capacity, s, actions)
    ensures ProducerFits(q, s.producer, true) && |actions| <= Measure(q, s)
    ensures var t := Run(q, capacity, s, actions);
            (forall a :: !Effective(q, capacity, t, a)) ==> Received(t.replies) == Items(q)
    decreases |actions|
  {
    FitsLater(q, capacity, s);
    if actions == [] {
      if !s.receiver.Gone? {
        NextActionMoves(q, capacity, s);
        assert Effective(q, capacity, s, NextAction(q, capacity, s));
      }
    } else {
      StepsCount(q, capacity, s, actions[0]);
      StepDelivers(q, capacity, s, actions[0]);
      EveryScheduleDelivers(q, capacity, Step(q, capacity, s, actions[0]), actions[1..]);
    }
  }

  /** How often the producer is scheduled. */
  function Productions(actions: seq<Action>): nat
  {
    if actions == [] then 0 else (if actions[0].Produce? then 1 else 0) + Productions(actions[1..])
  }

  /** Steps a producer takes before it notices that nobody listens. */
  function StepsToNotice(p: Producer): nat
  {
    match p
    case Opening => 3
    case Fetching(_) => 2
    case Sending(_, _) => 1
    case Finished => 0
  }

  /**
    Once the receiver is gone the producer ends after three steps of its own at most, however many
    chunks the query still has and whatever happens in between.
   */
  lemma {:induction false} ProducerStops(q: Query, capacity: nat, s: State, actions: seq<Action>)
    requires s.receiver.Gone? && Productions(actions) >= StepsToNotice(s.producer)
    ensures Run(q, capacity, s, actions).producer.Finished?
    decreases |actions|
  {
    if actions != [] {
      ProducerStops(q, capacity, Step(q, capacity, s, actions[0]), actions[1..]);
    }
  }

  /** In every reachable state a schema that is set is that of a query which opened and has rows. */
  lemma {:induction false} SchemaIsReal(q: Query, capacity: nat, s: State, actions: seq<Action>)
    requires s.producer.Fetching? ==> q.openError.None?
    requires s.producer.Sending? && s.producer.after.Some? ==> q.openError.None?
    requires s.schemaSet ==> q.openError.None? && q.hasSchema && q.chunks != []
    ensures Run(q, capacity, s, actions).schemaSet ==> q.openError.None? && q.hasSchema && q.chunks != []
    decreases |actions|
  {
    if actions != [] {
      SchemaIsReal(q, capacity, Step(q, capacity, s, actions[0]), actions[1..]);
    }
  }

  // ---------------------------------------------------------------------------
  // Cancel
  // ---------------------------------------------------------------------------

  /** After `cancel`, every reply of this continuation is null. */
  ghost predicate OnlyNulls(q: Query, capacity: nat, s: State, actions: seq<Action>)
  {
    var t := Run(q, capacity, CancelStep(s), actions);
    forall i :: |s.replies| <= i < |t.replies| ==> t.replies[i].Null?
  }

  /** A pending call that still has something to deliver. */
  predicate StillDelivering(q: Query, s: State) {
    s.receiver.Taken? && Received(s.replies) != Items(q)
  }

  /** Replies are only added, and each delivery makes what was received longer. */
  lemma {:induction false} RepliesGrow(q: Query, capacity: nat, s: State, actions: seq<Action>)
    ensures var t := Run(q, capacity, s, actions);
            && s.replies <= t.replies && |Received(s.replies)| <= |Received(t.replies)|
            && (|Received(t.replies)| == |Received(s.replies)| ==>
                  forall i :: |s.replies| <= i < |t.replies| ==> t.replies[i].Null?)
            && ((forall i :: |s.replies| <= i < |t.replies| ==> t.replies[i].Null?) ==>
                  Received(t.replies) == Received(s.replies))
    decreases |actions|
  {
    if actions != [] {
      var u := Step(q, capacity, s, actions[0]);
      StepReplies(q, capacity, s, actions[0]);
      RepliesGrow(q, capacity, u, actions[1..]);
      var t := Run(q, capacity, u, actions[1..]);
      if |u.replies| > |s.replies| { assert t.replies[|s.replies|] == u.replies[|s.replies|]; }
    }
  }

  /** One step adds at most one reply. */
  lemma StepReplies(q: Query, capacity: nat, s: State, a: Action)
    ensures var u := Step(q, capacity, s, a);
            || u.replies == s.replies
            || (exists r :: u.replies == s.replies + [r] &&
                            Received(u.replies) == Received(s.replies) + (if r.Got? then [r.item] else []))
  {
    if a.Call? && !s.receiver.InSlot? {
      Replied(s.replies, Null);
      assert Received(s.replies) + [] == Received(s.replies);
      assert Step(q, capacity, s, a).replies == s.replies + [Null];
    } else if a.Complete? && s.receiver.Taken? && s.queue != [] {
      Replied(s.replies, Got(s.queue[0]));
      assert Step(q, capacity, s, a).replies == s.replies + [Got(s.queue[0])];
    } else if a.Complete? && s.receiver.Taken? && s.producer.Finished? {
      Replied(s.replies, Null);
      assert Received(s.replies) + [] == Received(s.replies);
      assert Step(q, capacity, s, a).replies == s.replies + [Null];
    }
  }

  /**
    `cancel` makes every later reply null, in every continuation, if and only if no call is
    pending that still has something to deliver: such a call holds the receiver and goes on.
   */
  lemma CancelIsFinalIff(q: Query, capacity: nat, s: State)
    requires Inv(q, capacity, s) && capacity > 0
    ensures (forall actions :: OnlyNulls(q, capacity, s, actions)) <==> !StillDelivering(q, s)
  {
    if StillDelivering(q, s) {
      var actions := EverythingIsDelivered(q, capacity, s);
      RepliesGrow(q, capacity, s, actions);
      assert !OnlyNulls(q, capacity, s, actions);
    } else {
      forall actions ensures OnlyNulls(q, capacity, s, actions) {
        if s.receiver.Taken? {
          RepliesGrow(q, capacity, s, actions);
          RunKeepsInv(q, capacity, s, actions);
          NothingBeyond(q, capacity, Run(q, capacity, s, actions));
        } else {
          GoneIsFinal(q, capacity, CancelStep(s), actions);
        }
      }
    }
  }

  /** Never more than the query's items. */
  lemma NothingBeyond(q: Query, capacity: nat, s: State)
    requires Inv(q, capacity, s)
    ensures |Received(s.replies)| <= |Items(q)|
  {
    var made := Items(q)[..Made(q, s.producer)];
    Dropped(made, Received(s.replies), s.queue, InHand(s.producer), s.receiver, s.schemaSet);
    assert Received(s.replies) <= made;
  }

  /** The smallest case: `cancel` while the first call waits does not stop its rows. */
  lemma CancelDuringFirstCall(chunk: Chunk, capacity: nat)
    requires capacity > 0
    ensures var q := Query(None, [chunk], None, true);
            After(q, capacity, [Call, Cancel, Produce, Produce, Produce, Complete]).replies == [Got(Rows(chunk))]
  {
    var q := Query(None, [chunk], None, true);
    var s1 := CallStep(Init());
    var s2 := CancelStep(s1);
    var s3 := ProduceStep(q, capacity, s2);
    var s4 := ProduceStep(q, capacity, s3);
    var s5 := ProduceStep(q, capacity, s4);
    var s6 := CompleteStep(s5);
    assert s5.queue == [Rows(chunk)] && s6.replies == [] + [Got(Rows(chunk))];
    var rest: seq<Action> := [];
    OneMoreAction(q, capacity, s5, Complete, rest);
    OneMoreAction(q, capacity, s4, Produce, [Complete] + rest);
    OneMoreAction(q, capacity, s3, Produce, [Produce] + ([Complete] + rest));
    OneMoreAction(q, capacity, s2, Produce, [Produce] + ([Produce] + ([Complete] + rest)));
    OneMoreAction(q, capacity, s1, Cancel, [Produce] + ([Produce] + ([Produce] + ([Complete] + rest))));
    OneMoreAction(q, capacity, Init(), Call, [Cancel] + ([Produce] + ([Produce] + ([Produce] + ([Complete] + rest)))));
    assert [Call, Cancel, Produce, Produce, Produce, Complete] ==
           [Call] + ([Cancel] + ([Produce] + ([Produce] + ([Produce] + ([Complete] + rest)))));
  }
}
