/** The single-producer / single-consumer ring as an interleaved step machine: one step per
    atomic access, and the plain read and write of the slot as steps of their own.
    Positions are unbounded here; `SpscRing` runs the same steps on 64-bit words. */
module SpscProtocol {
  import opened Options
  import opened Words

  // ---------------------------------------------------------------- sequential specification

  /** A completed call together with its result. */
  datatype Call<T> = Push(item: T, ok: bool) | Pop(result: Option<T>)

  /** One call on a FIFO queue that holds at most `capacity` items; `None` when a queue
      with contents `q` cannot give that result. */
  ghost function Apply<T>(q: seq<T>, c: Call<T>, capacity: nat): Option<seq<T>> {
    match c
    case Push(item, true) => if |q| < capacity then Some(q + [item]) else None
    case Push(_, false) => if |q| >= capacity then Some(q) else None
    case Pop(Some(x)) => if |q| > 0 && q[0] == x then Some(q[1..]) else None
    case Pop(None) => if q == [] then Some(q) else None
  }

  /** The contents after a whole history of calls, if the history is possible. */
  ghost function Replay<T>(calls: seq<Call<T>>, capacity: nat): Option<seq<T>> {
    if calls == [] then Some([])
    else
      match Replay(calls[..|calls| - 1], capacity)
      case None => None
      case Some(q) => Apply(q, calls[|calls| - 1], capacity)
  }

  // ---------------------------------------------------------------- the step machine

  /** Where the producer is in `push`, with the locals it has computed. */
  datatype Producer<T> =
    | PIdle
    | PLoadRead(item: T, w: nat)    // write_pos loaded
    | PWrite(item: T, w: nat)       // not full
    | PPublish(item: T, w: nat)     // slot written

  /** Where the consumer is in `pop`. */
  datatype Consumer<T> =
    | CIdle
    | CLoadWrite(r: nat)            // read_pos loaded
    | CTake(r: nat)                 // not empty
    | CAdvance(r: nat, value: T)    // item moved out

  datatype State<T> = State(
    buffer: seq<T>, writePos: nat, readPos: nat,
    producer: Producer<T>, consumer: Consumer<T>,
    calls: seq<Call<T>>)            // completed calls, in completion order

  /** `left` is what moving the item out leaves behind in the slot. */
  datatype Action<T> = BeginPush(item: T) | ProducerStep | ConsumerStep(left: T)

  function Init<T>(capacity: nat, initial: T): State<T> {
    State(seq(capacity, _ => initial), 0, 0, PIdle, CIdle, [])
  }

  predicate Enabled<T>(s: State<T>, a: Action<T>) {
    && |s.buffer| > 0
    && (a.BeginPush? ==> s.producer.PIdle?)
    && (a.ProducerStep? ==> !s.producer.PIdle?)
  }

  function StepProducer<T>(s: State<T>): State<T>
    requires |s.buffer| > 0 && !s.producer.PIdle?
  {
    var capacity := |s.buffer|;
    match s.producer
    case PLoadRead(item, w) =>
      if Wrap(w - s.readPos) >= capacity
      then s.(producer := PIdle, calls := s.calls + [Push(item, false)])
      else s.(producer := PWrite(item, w))
    case PWrite(item, w) =>
      s.(buffer := s.buffer[SlotOf(w, capacity) := item], producer := PPublish(item, w))
    case PPublish(item, w) =>
      s.(writePos := w + 1, producer := PIdle, calls := s.calls + [Push(item, true)])
  }

  function StepConsumer<T>(s: State<T>, left: T): State<T>
    requires |s.buffer| > 0
  {
    var capacity := |s.buffer|;
    match s.consumer
    case CIdle => s.(consumer := CLoadWrite(s.readPos))
    case CLoadWrite(r) =>
      if Wrap(s.writePos - r) == 0
      then s.(consumer := CIdle, calls := s.calls + [Pop(None)])
      else s.(consumer := CTake(r))
    case CTake(r) =>
      var slot := SlotOf(r, capacity);
      s.(buffer := s.buffer[slot := left], consumer := CAdvance(r, s.buffer[slot]))
    case CAdvance(r, value) =>
      s.(readPos := r + 1, consumer := CIdle, calls := s.calls + [Pop(Some(value))])
  }

  function Step<T>(s: State<T>, a: Action<T>): State<T>
    requires Enabled(s, a)
  {
    match a
    case BeginPush(item) => s.(producer := PLoadRead(item, s.writePos))
    case ProducerStep => StepProducer(s)
    case ConsumerStep(left) => StepConsumer(s, left)
  }

  ghost predicate Feasible<T>(s: State<T>, actions: seq<Action<T>>)
    decreases |actions|
  {
    actions == [] || (Enabled(s, actions[0]) && Feasible(Step(s, actions[0]), actions[1..]))
  }

  ghost function Run<T>(s: State<T>, actions: seq<Action<T>>): State<T>
    requires Feasible(s, actions)
    decreases |actions|
  {
    if actions == [] then s else Run(Step(s, actions[0]), actions[1..])
  }

  // ---------------------------------------------------------------- invariant

  /** The item at position `k`: in its slot, or already moved into the consumer's hand. */
  function ItemAt<T>(s: State<T>, k: nat): T
    requires |s.buffer| > 0
  {
    if s.consumer.CAdvance? && k == s.consumer.r then s.consumer.value
    else s.buffer[SlotOf(k, |s.buffer|)]
  }

  /** The abstract queue. */
  function Contents<T>(s: State<T>): (q: seq<T>)
    requires |s.buffer| > 0 && s.readPos <= s.writePos
    ensures |q| == s.writePos - s.readPos
    ensures forall i :: 0 <= i < |q| ==> q[i] == ItemAt(s, s.readPos + i)
  {
    seq(s.writePos - s.readPos, i requires 0 <= i => ItemAt(s, s.readPos + i))
  }

  ghost predicate Inv<T>(s: State<T>) {
    && 0 < |s.buffer| < WORD
    && s.readPos <= s.writePos <= s.readPos + |s.buffer|
    && (match s.producer
        case PIdle => true
        case PLoadRead(_, w) => w == s.writePos
        case PWrite(_, w) => w == s.writePos < s.readPos + |s.buffer|
        case PPublish(item, w) => w == s.writePos < s.readPos + |s.buffer| && ItemAt(s, w) == item)
    && (match s.consumer
        case CIdle => true
        case CLoadWrite(r) => r == s.readPos
        case CTake(r) => r == s.readPos < s.writePos
        case CAdvance(r, _) => r == s.readPos < s.writePos)
  }

  // ---------------------------------------------------------------- simulation

  /** The step from `s` to `s'` either completes no call and leaves the abstract queue as it
      was, or completes one call, and the queue moves as a bounded FIFO moves under it. */
  ghost predicate MovesAsFifo<T>(s: State<T>, s': State<T>)
    requires Inv(s)
  {
    && Inv(s') && |s'.buffer| == |s.buffer|
    && (|| (s'.calls == s.calls && Contents(s') == Contents(s))
        || (&& |s'.calls| == |s.calls| + 1 && s'.calls[..|s.calls|] == s.calls
            && Apply(Contents(s), s'.calls[|s.calls|], |s.buffer|) == Some(Contents(s'))))
  }

  /** A step that completes no call and leaves every queued item where it was. */
  lemma QuietMovesAsFifo<T>(s: State<T>, s': State<T>)
    requires Inv(s) && Inv(s') && |s'.buffer| == |s.buffer| && s'.calls == s.calls
    requires s'.readPos == s.readPos && s'.writePos == s.writePos
    requires forall k: nat | s.readPos <= k < s.writePos :: ItemAt(s', k) == ItemAt(s, k)
    ensures MovesAsFifo(s, s')
  {
    assert Contents(s') == Contents(s);
  }

  lemma CheckMovesAsFifo<T>(s: State<T>)
    requires Inv(s) && s.producer.PLoadRead?
    ensures MovesAsFifo(s, StepProducer(s))
  {
    var s' := StepProducer(s);
    assert Contents(s') == Contents(s);
    if s'.producer.PIdle? {
      assert Apply(Contents(s), Push(s.producer.item, false), |s.buffer|) == Some(Contents(s'));
    }
  }

  /** The slot written is none of those that hold a queued item. */
  lemma WriteKeepsItems<T>(s: State<T>)
    requires Inv(s) && s.producer.PWrite?
    ensures forall k: nat | s.readPos <= k < s.writePos :: ItemAt(StepProducer(s), k) == ItemAt(s, k)
    ensures ItemAt(StepProducer(s), s.writePos) == s.producer.item
  {
    WindowSlotsDistinct(s.readPos, |s.buffer|);
    forall k: nat | s.readPos <= k < s.writePos ensures ItemAt(StepProducer(s), k) == ItemAt(s, k) {
      assert SlotOf(k, |s.buffer|) != SlotOf(s.writePos, |s.buffer|);
    }
  }

  lemma PublishMovesAsFifo<T>(s: State<T>)
    requires Inv(s) && s.producer.PPublish?
    ensures MovesAsFifo(s, StepProducer(s))
  {
    var s' := StepProducer(s);
    assert Contents(s') == Contents(s) + [s.producer.item];
    assert Apply(Contents(s), Push(s.producer.item, true), |s.buffer|) == Some(Contents(s'));
  }

  lemma ProducerMovesAsFifo<T>(s: State<T>)
    requires Inv(s) && !s.producer.PIdle?
    ensures MovesAsFifo(s, StepProducer(s))
  {
    if s.producer.PLoadRead? {
      CheckMovesAsFifo(s);
    } else if s.producer.PWrite? {
      WriteKeepsItems(s);
      QuietMovesAsFifo(s, StepProducer(s));
    } else {
      PublishMovesAsFifo(s);
    }
  }

  lemma LookMovesAsFifo<T>(s: State<T>, left: T)
    requires Inv(s) && (s.consumer.CIdle? || s.consumer.CLoadWrite?)
    ensures MovesAsFifo(s, StepConsumer(s, left))
  {
    var s' := StepConsumer(s, left);
    assert Contents(s') == Contents(s);
    if s'.consumer.CIdle? {
      assert Apply(Contents(s), Pop(None), |s.buffer|) == Some(Contents(s'));
    }
  }

  /** Moving an item out changes no other item, nor the one just written behind the queue. */
  lemma TakeKeepsItems<T>(s: State<T>, left: T)
    requires Inv(s) && s.consumer.CTake?
    ensures forall k: nat | s.readPos <= k < s.readPos + |s.buffer| ::
              ItemAt(StepConsumer(s, left), k) == ItemAt(s, k)
  {
    var r := s.readPos;
    WindowSlotsDistinct(r, |s.buffer|);
    forall k: nat | r < k < r + |s.buffer| ensures ItemAt(StepConsumer(s, left), k) == ItemAt(s, k) {
      assert SlotOf(k, |s.buffer|) != SlotOf(r, |s.buffer|);
    }
  }

  lemma AdvanceMovesAsFifo<T>(s: State<T>, left: T)
    requires Inv(s) && s.consumer.CAdvance?
    ensures MovesAsFifo(s, StepConsumer(s, left))
  {
    var s' := StepConsumer(s, left);
    assert Contents(s') == Contents(s)[1..];
    assert Apply(Contents(s), Pop(Some(s.consumer.value)), |s.buffer|) == Some(Contents(s'));
  }

  lemma ConsumerMovesAsFifo<T>(s: State<T>, left: T)
    requires Inv(s)
    ensures MovesAsFifo(s, StepConsumer(s, left))
  {
    if s.consumer.CTake? {
      TakeKeepsItems(s, left);
      QuietMovesAsFifo(s, StepConsumer(s, left));
    } else if s.consumer.CAdvance? {
      AdvanceMovesAsFifo(s, left);
    } else {
      LookMovesAsFifo(s, left);
    }
  }

  /** Forward simulation under every interleaving. A successful push or pop takes effect at
      its index store, a refused push sees a full queue and a failed pop an empty one at
      the very load that decided it. */
  lemma StepRefinesFifo<T>(s: State<T>, a: Action<T>)
    requires Inv(s) && Enabled(s, a)
    ensures MovesAsFifo(s, Step(s, a))
  {
    match a
    case BeginPush(_) => assert Contents(Step(s, a)) == Contents(s);
    case ProducerStep => ProducerMovesAsFifo(s);
    case ConsumerStep(left) => ConsumerMovesAsFifo(s, left);
  }

  /** The completed calls, in completion order, are a possible history of a bounded FIFO, and
      what that history leaves in the FIFO is what the ring holds. */
  ghost predicate Linearized<T>(s: State<T>) {
    Inv(s) && Replay(s.calls, |s.buffer|) == Some(Contents(s))
  }

  lemma StepKeepsHistory<T>(s: State<T>, a: Action<T>)
    requires Linearized(s) && Enabled(s, a)
    ensures Linearized(Step(s, a)) && |Step(s, a).buffer| == |s.buffer|
  {
    StepRefinesFifo(s, a);
  }

  lemma {:induction false} RunKeepsHistory<T>(s: State<T>, actions: seq<Action<T>>)
    requires Linearized(s) && Feasible(s, actions)
    ensures Linearized(Run(s, actions)) && |Run(s, actions).buffer| == |s.buffer|
    decreases |actions|
  {
    if actions != [] {
      StepKeepsHistory(s, actions[0]);
      RunKeepsHistory(Step(s, actions[0]), actions[1..]);
    }
  }

  /** Linearizability over whole runs, under every interleaving. */
  lemma LinearizableFromInit<T>(capacity: nat, initial: T, actions: seq<Action<T>>)
    requires 0 < capacity < WORD && Feasible(Init(capacity, initial), actions)
    ensures var t := Run(Init(capacity, initial), actions);
      Inv(t) && Replay(t.calls, capacity) == Some(Contents(t))
  {
    var s := Init(capacity, initial);
    assert Contents(s) == [];
    RunKeepsHistory(s, actions);
  }

  /** The slot the producer is about to write is never the slot the consumer is about to
      move out of, so the plain accesses to the buffer do not race. */
  lemma NoDataRace<T>(s: State<T>)
    requires Inv(s) && s.producer.PWrite? && s.consumer.CTake?
    ensures SlotOf(s.producer.w, |s.buffer|) != SlotOf(s.consumer.r, |s.buffer|)
  {
    WindowSlotsDistinct(s.readPos, |s.buffer|);
  }

  /** What a FIFO history conserves: the items pushed, in order, are the items popped, in
      order, followed by what is still queued. */
  function Pushed<T>(calls: seq<Call<T>>): seq<T> {
    if calls == [] then []
    else
      var c := calls[|calls| - 1];
      Pushed(calls[..|calls| - 1]) + (if c.Push? && c.ok then [c.item] else [])
  }

  function Popped<T>(calls: seq<Call<T>>): seq<T> {
    if calls == [] then []
    else
      var c := calls[|calls| - 1];
      Popped(calls[..|calls| - 1]) + (if c.Pop? && c.result.Some? then [c.result.value] else [])
  }

  lemma {:induction false} FifoConserves<T>(calls: seq<Call<T>>, capacity: nat)
    requires Replay(calls, capacity).Some?
    ensures Pushed(calls) == Popped(calls) + Replay(calls, capacity).value
    ensures |Replay(calls, capacity).value| <= capacity
  {
    if calls != [] {
      FifoConserves(calls[..|calls| - 1], capacity);
    }
  }
}
