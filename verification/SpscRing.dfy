/** The ring itself: a buffer written in place, two 64-bit indices that wrap, and the
    registers of the two threads. Every method performs one line of `push` or `pop`; its
    contract says that the line is the protocol's step on the unbounded positions the words
    stand for. */
module SpscRing {
  import opened Options
  import opened Words
  import opened SpscProtocol

  /** The registers of the producer when its positions are held in 64-bit words. */
  function ProducerWords<T>(p: Producer<T>): Producer<T> {
    match p
    case PIdle => PIdle
    case PLoadRead(item, w) => PLoadRead(item, Wrap(w))
    case PWrite(item, w) => PWrite(item, Wrap(w))
    case PPublish(item, w) => PPublish(item, Wrap(w))
  }

  function ConsumerWords<T>(c: Consumer<T>): Consumer<T> {
    match c
    case CIdle => CIdle
    case CLoadWrite(r) => CLoadWrite(Wrap(r))
    case CTake(r) => CTake(Wrap(r))
    case CAdvance(r, value) => CAdvance(Wrap(r), value)
  }

  /** `n` consecutive steps of the consumer, leaving `lefts` behind in the slots. */
  function ConsumerActions<T>(lefts: seq<T>): (r: seq<Action<T>>)
    ensures |r| == |lefts| && forall i | 0 <= i < |r| :: r[i] == ConsumerStep(lefts[i])
  {
    seq(|lefts|, i requires 0 <= i < |lefts| => ConsumerStep(lefts[i]))
  }

  /** What the producer does next: go on with its push, or begin one of `item`. */
  function ProducerAction<T>(s: State<T>, item: T): Action<T> {
    if s.producer.PIdle? then BeginPush(item) else ProducerStep
  }

  /** `|items|` consecutive steps of the producer, beginning a push of `items[i]` where the one
      before has returned. */
  ghost function ProducerActions<T>(s: State<T>, items: seq<T>): (r: seq<Action<T>>)
    requires |s.buffer| > 0
    ensures |r| == |items| && Feasible(s, r)
    ensures forall i | 0 <= i < |r| :: r[i] == ProducerStep || r[i] == BeginPush(items[i])
    decreases |items|
  {
    if items == [] then []
    else
      var a := ProducerAction(s, items[0]);
      var rest := ProducerActions(Step(s, a), items[1..]);
      assert ([a] + rest)[1..] == rest;
      [a] + rest
  }

  /** Where consumer steps alone lead. */
  ghost function ConsumerRun<T>(s: State<T>, lefts: seq<T>): (t: State<T>)
    requires |s.buffer| > 0
    ensures Feasible(s, ConsumerActions(lefts)) && t == Run(s, ConsumerActions(lefts))
    ensures |t.buffer| == |s.buffer| && t.producer == s.producer
    decreases |lefts|
  {
    if lefts == [] then s
    else
      assert ConsumerActions(lefts)[1..] == ConsumerActions(lefts[1..]);
      ConsumerRun(Step(s, ConsumerStep(lefts[0])), lefts[1..])
  }

  /** Where producer steps alone lead. */
  ghost function ProducerRun<T>(s: State<T>, items: seq<T>): (t: State<T>)
    requires |s.buffer| > 0
    ensures t == Run(s, ProducerActions(s, items))
    ensures |t.buffer| == |s.buffer| && t.consumer == s.consumer
    decreases |items|
  {
    if items == [] then s
    else
      var a := ProducerAction(s, items[0]);
      var rest := ProducerActions(Step(s, a), items[1..]);
      assert ([a] + rest)[1..] == rest;
      ProducerRun(Step(s, a), items[1..])
  }

  /** One step of the producer, if it is in the middle of a push, after some of the
      consumer's. */
  ghost function ThenProducer<T>(s: State<T>, lefts: seq<T>): (t: State<T>)
    requires |s.buffer| > 0
    ensures |t.buffer| == |s.buffer|
  {
    var mid := ConsumerRun(s, lefts);
    if mid.producer.PIdle? then mid else Step(mid, ProducerStep)
  }

  /** One step of the consumer after some of the producer's. */
  ghost function ThenConsumer<T>(s: State<T>, items: seq<T>, left: T): (t: State<T>)
    requires |s.buffer| > 0
    ensures |t.buffer| == |s.buffer|
  {
    Step(ProducerRun(s, items), ConsumerStep(left))
  }

  ghost predicate OnlyPushesThen<T>(was: seq<Call<T>>, now: seq<Call<T>>, last: Call<T>) {
    && was < now
    && now[|now| - 1] == last
    && forall i | |was| <= i < |now| - 1 :: now[i].Push?
  }

  ghost predicate OnlyPushes<T>(was: seq<Call<T>>, now: seq<Call<T>>) {
    was <= now && forall i | |was| <= i < |now| :: now[i].Push?
  }

  lemma PushesSince<T>(was: seq<Call<T>>, mid: seq<Call<T>>, now: seq<Call<T>>, last: Call<T>)
    requires OnlyPushes(was, mid) && OnlyPushesThen(mid, now, last)
    ensures OnlyPushesThen(was, now, last)
  {
    forall i | |was| <= i < |now| - 1 ensures now[i].Push? {
      assert i < |mid| ==> now[i] == mid[i];
    }
  }

  /** The history grew by some pops and then by `last`. */
  ghost predicate OnlyPopsThen<T>(was: seq<Call<T>>, now: seq<Call<T>>, last: Call<T>) {
    && was < now
    && now[|now| - 1] == last
    && forall i | |was| <= i < |now| - 1 :: now[i].Pop?
  }

  ghost predicate OnlyPops<T>(was: seq<Call<T>>, now: seq<Call<T>>) {
    was <= now && forall i | |was| <= i < |now| :: now[i].Pop?
  }

  lemma ConsumerOnlyPops<T>(s: State<T>, left: T)
    requires |s.buffer| > 0
    ensures OnlyPops(s.calls, Step(s, ConsumerStep(left)).calls)
    ensures Step(s, ConsumerStep(left)).producer == s.producer
  {
  }

  lemma ProducerOnlyPushes<T>(s: State<T>, item: T)
    requires |s.buffer| > 0
    ensures OnlyPushes(s.calls, Step(s, ProducerAction(s, item)).calls)
    ensures Step(s, ProducerAction(s, item)).consumer == s.consumer
  {
  }

  /** While only pushes complete, what has been popped stays the same. */
  lemma {:induction false} PushesPopNothing<T>(was: seq<Call<T>>, now: seq<Call<T>>)
    requires OnlyPushes(was, now)
    ensures Popped(now) == Popped(was)
    decreases |now|
  {
    if was != now {
      assert OnlyPushes(was, now[..|now| - 1]);
      PushesPopNothing(was, now[..|now| - 1]);
    }
  }

  /** A pop that completes after some pushes returns the oldest item pushed and not popped
      before. */
  lemma PopsOldest<T>(s: State<T>, was: seq<Call<T>>, x: T)
    requires Linearized(s) && OnlyPushesThen(was, s.calls, Call.Pop(Some(x)))
    ensures |Popped(was)| < |Pushed(s.calls)| && x == Pushed(s.calls)[|Popped(was)|]
  {
    var n := |s.calls| - 1;
    assert OnlyPushes(was, s.calls[..n]);
    PushesPopNothing(was, s.calls[..n]);
    assert Popped(s.calls) == Popped(was) + [x];
    FifoConserves(s.calls, |s.buffer|);
  }

  /** `item` is the last of the queue. */
  ghost predicate EndsWith<T>(s: State<T>, item: T) {
    Inv(s) && s.readPos < s.writePos && ItemAt(s, s.writePos - 1) == item
  }

  /** The store of `_write_pos` makes the item the last of the queue. */
  lemma AppendsLast<T>(s: State<T>)
    requires Inv(s) && s.producer.PPublish?
    ensures EndsWith(StepProducer(s), s.producer.item)
  {
    PublishMovesAsFifo(s);
  }

  /** The test of the wrapped words is the test of the queue's length. */
  lemma FullTest<T>(s: State<T>)
    requires Inv(s) && s.producer.PLoadRead?
    ensures Wrap(Wrap(s.producer.w) - Wrap(s.readPos)) == Wrap(s.producer.w - s.readPos)
    ensures Wrap(s.producer.w - s.readPos) >= |s.buffer| <==> |Contents(s)| == |s.buffer|
  {
    WrapDifference(s.writePos, s.readPos);
  }

  lemma EmptyTest<T>(s: State<T>)
    requires Inv(s) && s.consumer.CLoadWrite?
    ensures Wrap(Wrap(s.writePos) - Wrap(s.consumer.r)) == Wrap(s.writePos - s.consumer.r)
    ensures Wrap(s.writePos - s.consumer.r) == 0 <==> Contents(s) == []
  {
    WrapDifference(s.writePos, s.readPos);
  }

  class Spsc<T> {
    const buffer: array<T>
    var writePos: nat
    var readPos: nat
    var producer: Producer<T>
    var consumer: Consumer<T>
    /** The protocol state on unbounded positions. */
    ghost var model: State<T>

    /** The words and registers are those of the model. */
    ghost predicate Represents()
      reads this, buffer
    {
      && IsBufSize(buffer.Length)
      && Inv(model)
      && buffer[..] == model.buffer
      && writePos == Wrap(model.writePos)
      && readPos == Wrap(model.readPos)
      && producer == ProducerWords(model.producer)
      && consumer == ConsumerWords(model.consumer)
    }

    /** Besides, the calls completed so far are the history of a FIFO. */
    ghost predicate Valid()
      reads this, buffer
    {
      Represents() && Linearized(model)
    }

    constructor (bufSize: nat, initial: T)
      requires IsBufSize(bufSize)
      ensures Valid() && fresh(buffer) && model == Init(bufSize, initial)
    {
      buffer := new T[bufSize](_ => initial);
      writePos, readPos := 0, 0;
      producer, consumer := PIdle, CIdle;
      model := Init(bufSize, initial);
      assert Contents(Init(bufSize, initial)) == [];
    }

    // -------------------------------------------------------------- push, line by line

    /** `w = _write_pos.load()` */
    method BeginPush(u: T)
      requires Represents() && producer.PIdle?
      modifies this
      ensures Represents() && model == Step(old(model), Action.BeginPush(u))
    {
      producer := PLoadRead(u, writePos);
      model := Step(model, Action.BeginPush(u));
    }

    /** `r = _read_pos.load()`, then the test of `w - r` against the buffer size. */
    method CheckFull() returns (full: bool)
      requires Represents() && producer.PLoadRead?
      modifies this
      ensures Represents() && model == Step(old(model), ProducerStep)
      ensures full == (|Contents(old(model))| == buffer.Length)
      ensures if full then producer.PIdle? else producer.PWrite? && producer.item == old(producer.item)
    {
      FullTest(model);
      full := Wrap(producer.w - readPos) >= buffer.Length;
      producer := if full then PIdle else PWrite(producer.item, producer.w);
      model := Step(model, ProducerStep);
    }

    /** `_buffer[w & MASK] = u` */
    method WriteSlot()
      requires Represents() && producer.PWrite?
      modifies this, buffer
      ensures Represents() && model == Step(old(model), ProducerStep)
      ensures producer.PPublish? && producer.item == old(producer.item)
    {
      MaskFindsSlot(model.producer.w, buffer.Length);
      StepRefinesFifo(model, ProducerStep);
      buffer[BitAnd(producer.w, buffer.Length - 1)] := producer.item;
      producer := PPublish(producer.item, producer.w);
      model := Step(model, ProducerStep);
    }

    /** `_write_pos.store(w + 1)` */
    method PublishSlot()
      requires Represents() && producer.PPublish?
      modifies this
      ensures Represents() && model == Step(old(model), ProducerStep) && producer.PIdle?
      ensures EndsWith(model, old(producer.item))
    {
      AppendsLast(model);
      WrapSum(model.producer.w, 1);
      writePos := Wrap(producer.w + 1);
      producer := PIdle;
      model := Step(model, ProducerStep);
    }

    // -------------------------------------------------------------- pop, line by line

    /** `r = _read_pos.load()` */
    method BeginPop(ghost left: T)
      requires Represents() && consumer.CIdle?
      modifies this
      ensures Represents() && model == Step(old(model), ConsumerStep(left))
      ensures consumer.CLoadWrite?
    {
      consumer := CLoadWrite(readPos);
      model := Step(model, ConsumerStep(left));
    }

    /** `w = _write_pos.load()`, then the test of `w - r` against zero. */
    method CheckEmpty(ghost left: T) returns (empty: bool)
      requires Represents() && consumer.CLoadWrite?
      modifies this
      ensures Represents() && model == Step(old(model), ConsumerStep(left))
      ensures empty == (Contents(old(model)) == [])
      ensures if empty then consumer.CIdle? else consumer.CTake?
    {
      EmptyTest(model);
      empty := Wrap(writePos - consumer.r) == 0;
      consumer := if empty then CIdle else CTake(consumer.r);
      model := Step(model, ConsumerStep(left));
    }

    /** `value = std::move(_buffer[r & MASK])` */
    method TakeSlot(left: T)
      requires Represents() && consumer.CTake?
      modifies this, buffer
      ensures Represents() && model == Step(old(model), ConsumerStep(left))
      ensures consumer.CAdvance? && consumer.value == Contents(old(model))[0]
    {
      MaskFindsSlot(model.consumer.r, buffer.Length);
      StepRefinesFifo(model, ConsumerStep(left));
      var slot := BitAnd(consumer.r, buffer.Length - 1);
      var value := buffer[slot];
      buffer[slot] := left;
      consumer := CAdvance(consumer.r, value);
      model := Step(model, ConsumerStep(left));
    }

    /** `_read_pos.store(r + 1)` */
    method AdvanceRead(ghost left: T)
      requires Represents() && consumer.CAdvance?
      modifies this
      ensures Represents() && model == Step(old(model), ConsumerStep(left)) && consumer.CIdle?
    {
      StepRefinesFifo(model, ConsumerStep(left));
      WrapSum(model.consumer.r, 1);
      readPos := Wrap(consumer.r + 1);
      consumer := CIdle;
      model := Step(model, ConsumerStep(left));
    }

    /** Whatever line of `pop` the consumer has reached. */
    method RunConsumerLine(left: T)
      requires Valid()
      modifies this, buffer
      ensures Valid() && model == Step(old(model), ConsumerStep(left))
      ensures producer == old(producer) && OnlyPops(old(model.calls), model.calls)
    {
      StepKeepsHistory(model, ConsumerStep(left));
      ConsumerOnlyPops(model, left);
      match consumer
      case CIdle => BeginPop(left);
      case CLoadWrite(_) => var _ := CheckEmpty(left);
      case CTake(_) => TakeSlot(left);
      case CAdvance(_, _) => AdvanceRead(left);
    }

    /** The consumer thread runs for `|lefts|` lines while the producer stands still. */
    method ConsumerRuns(lefts: seq<T>)
      requires Valid()
      modifies this, buffer
      ensures Valid() && producer == old(producer) && OnlyPops(old(model.calls), model.calls)
      ensures model == ConsumerRun(old(model), lefts)
      decreases |lefts|
    {
      if lefts != [] {
        RunConsumerLine(lefts[0]);
        ConsumerRuns(lefts[1..]);
      }
    }

    // -------------------------------------------------------------- the whole call

    /** Consumer activity, then the write of the slot. */
    method ReachWrite(beforeWrite: seq<T>)
      requires Valid() && producer.PWrite?
      modifies this, buffer
      ensures Valid() && producer.PPublish? && producer.item == old(producer.item)
      ensures model == ThenProducer(old(model), beforeWrite)
      ensures OnlyPops(old(model.calls), model.calls)
    {
      ConsumerRuns(beforeWrite);
      StepKeepsHistory(model, ProducerStep);
      WriteSlot();
    }

    /** Consumer activity, then the store of `_write_pos`. */
    method ReachPublish(beforePublish: seq<T>)
      requires Valid() && producer.PPublish?
      modifies this, buffer
      ensures Valid() && producer.PIdle?
      ensures model == ThenProducer(old(model), beforePublish)
      ensures OnlyPopsThen(old(model.calls), model.calls, Call.Push(old(producer.item), true))
      ensures EndsWith(model, old(producer.item))
    {
      ConsumerRuns(beforePublish);
      StepKeepsHistory(model, ProducerStep);
      PublishSlot();
    }

    /** The rest of `push` once it has found room. */
    method FinishPush(beforeWrite: seq<T>, beforePublish: seq<T>)
      requires Valid() && producer.PWrite?
      modifies this, buffer
      ensures Valid() && producer.PIdle?
      ensures model == ThenProducer(ThenProducer(old(model), beforeWrite), beforePublish)
      ensures OnlyPopsThen(old(model.calls), model.calls, Call.Push(old(producer.item), true))
      ensures EndsWith(model, old(producer.item))
    {
      ReachWrite(beforeWrite);
      ReachPublish(beforePublish);
    }

    /** `push`, with any amount of consumer activity before each of its accesses. The call
        is refused only with the queue full; otherwise the item is, when the call returns,
        the last of the queue. Either way the call completes once, after whatever pops
        completed meanwhile. */
    method Push(u: T, before: seq<seq<T>>) returns (ok: bool)
      requires Valid() && producer.PIdle? && |before| == 3
      modifies this, buffer
      ensures Valid() && producer.PIdle?
      ensures var checked := ThenProducer(Step(old(model), Action.BeginPush(u)), before[0]);
        model == if !ok then checked else ThenProducer(ThenProducer(checked, before[1]), before[2])
      ensures OnlyPopsThen(old(model.calls), model.calls, Call.Push(u, ok))
      ensures ok ==> EndsWith(model, u)
      ensures !ok ==> |Contents(model)| == buffer.Length
    {
      StepKeepsHistory(model, Action.BeginPush(u));
      BeginPush(u);
      ConsumerRuns(before[0]);
      StepKeepsHistory(model, ProducerStep);
      var full := CheckFull();
      if !full {
        FinishPush(before[1], before[2]);
      }
      ok := !full;
    }

    /** Whatever line of `push` the producer has reached; between calls it starts to push
        `item`. */
    method RunProducerLine(item: T)
      requires Valid()
      modifies this, buffer
      ensures Valid() && model == Step(old(model), ProducerAction(old(model), item))
      ensures consumer == old(consumer) && OnlyPushes(old(model.calls), model.calls)
    {
      StepKeepsHistory(model, ProducerAction(model, item));
      ProducerOnlyPushes(model, item);
      match producer
      case PIdle => BeginPush(item);
      case PLoadRead(_, _) => var _ := CheckFull();
      case PWrite(_, _) => WriteSlot();
      case PPublish(_, _) => PublishSlot();
    }

    /** The producer thread runs for `|items|` lines while the consumer stands still. */
    method ProducerRuns(items: seq<T>)
      requires Valid()
      modifies this, buffer
      ensures Valid() && consumer == old(consumer) && OnlyPushes(old(model.calls), model.calls)
      ensures model == ProducerRun(old(model), items)
      decreases |items|
    {
      if items != [] {
        RunProducerLine(items[0]);
        ProducerRuns(items[1..]);
      }
    }

    /** Producer activity, then the look for an item. */
    method Look(left: T, before: seq<T>) returns (empty: bool)
      requires Valid() && consumer.CLoadWrite?
      modifies this, buffer
      ensures Valid() && model == ThenConsumer(old(model), before, left)
      ensures if empty
              then consumer.CIdle? && Contents(model) == []
                   && OnlyPushesThen(old(model.calls), model.calls, Call.Pop(None))
              else consumer.CTake? && OnlyPushes(old(model.calls), model.calls)
    {
      ProducerRuns(before);
      StepKeepsHistory(model, ConsumerStep(left));
      empty := CheckEmpty(left);
    }

    /** Producer activity, then the move out of the slot. */
    method Take(left: T, before: seq<T>)
      requires Valid() && consumer.CTake?
      modifies this, buffer
      ensures Valid() && model == ThenConsumer(old(model), before, left)
      ensures consumer.CAdvance? && OnlyPushes(old(model.calls), model.calls)
    {
      ProducerRuns(before);
      StepKeepsHistory(model, ConsumerStep(left));
      TakeSlot(left);
    }

    /** Producer activity, then the store of `_read_pos`. */
    method Return(left: T, before: seq<T>)
      requires Valid() && consumer.CAdvance?
      modifies this, buffer
      ensures Valid() && model == ThenConsumer(old(model), before, left)
      ensures consumer.CIdle?
      ensures OnlyPushesThen(old(model.calls), model.calls, Call.Pop(Some(old(consumer.value))))
    {
      ProducerRuns(before);
      StepKeepsHistory(model, ConsumerStep(left));
      AdvanceRead(left);
    }

    /** The rest of `pop` once it has found an item. */
    method FinishPop(left: T, beforeTake: seq<T>, beforeAdvance: seq<T>) returns (value: T)
      requires Valid() && consumer.CTake?
      modifies this, buffer
      ensures Valid() && consumer.CIdle?
      ensures model == ThenConsumer(ThenConsumer(old(model), beforeTake, left), beforeAdvance, left)
      ensures OnlyPushesThen(old(model.calls), model.calls, Call.Pop(Some(value)))
    {
      ghost var was := model.calls;
      Take(left, beforeTake);
      value := consumer.value;
      ghost var mid := model.calls;
      Return(left, beforeAdvance);
      PushesSince(was, mid, model.calls, Call.Pop(Some(value)));
    }

    /** `pop`, with any amount of producer activity before each of its accesses. It comes back
        empty-handed only with the queue empty; otherwise with the oldest item pushed and not
        popped before. It completes once, after whatever pushes completed meanwhile. */
    method Pop(left: T, before: seq<seq<T>>) returns (result: Option<T>)
      requires Valid() && consumer.CIdle? && |before| == 3
      modifies this, buffer
      ensures Valid() && consumer.CIdle?
      ensures var looked := ThenConsumer(Step(old(model), ConsumerStep(left)), before[0], left);
        model == if result.None? then looked else ThenConsumer(ThenConsumer(looked, before[1], left), before[2], left)
      ensures OnlyPushesThen(old(model.calls), model.calls, Call.Pop(result))
      ensures if result.None? then Contents(model) == []
              else |Popped(old(model.calls))| < |Pushed(model.calls)|
                   && result.value == Pushed(model.calls)[|Popped(old(model.calls))|]
    {
      StepKeepsHistory(model, ConsumerStep(left));
      BeginPop(left);
      ghost var was := model.calls;
      var empty := Look(left, before[0]);
      if empty {
        return None;
      }
      ghost var mid := model.calls;
      var value := FinishPop(left, before[1], before[2]);
      PushesSince(was, mid, model.calls, Call.Pop(Some(value)));
      PopsOldest(model, was, value);
      result := Some(value);
    }
  }
}
