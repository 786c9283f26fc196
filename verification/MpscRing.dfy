/** The ring itself: sequence numbers and data written in place, 64-bit counters that wrap,
    and the registers of the threads. Every method performs one line of `push` or `pop`; its
    contract says that the line is the protocol's step on the unbounded counters the words
    stand for. */
module MpscRing {
  import opened Options
  import opened Words
  import opened MpscProtocol
  import opened MpscSlots
  import opened MpscBounds

  /** The registers of a producer when its counters are held in 64-bit words. */
  function ProducerWords<T>(q: Producer<T>): Producer<T> {
    match q
    case PIdle => PIdle
    case PLoadTail(item, h) => PLoadTail(item, Wrap(h))
    case PFetchAdd(item, h) => PFetchAdd(item, Wrap(h))
    case PLoadTurn(item, pos) => PLoadTurn(item, Wrap(pos))
    case PWait(item, pos, seen) => PWait(item, Wrap(pos), Wrap(seen))
    case PParked(item, pos, seen) => PParked(item, Wrap(pos), Wrap(seen))
    case PWrite(item, pos) => PWrite(item, Wrap(pos))
    case PPublish(item, pos) => PPublish(item, Wrap(pos))
  }

  function ConsumerWords<T>(c: Consumer<T>): Consumer<T> {
    match c
    case CIdle => CIdle
    case CLoadTurn(pos) => CLoadTurn(Wrap(pos))
    case CTake(pos) => CTake(Wrap(pos))
    case CFree(pos, value) => CFree(Wrap(pos), value)
    case CNotify(pos, value) => CNotify(Wrap(pos), value)
    case CAdvance(pos, value) => CAdvance(Wrap(pos), value)
  }

  /** Testing the loaded sequence number against the ticket gives the same answer on words. */
  lemma TurnTestOnWords<T>(s: State<T>, p: nat)
    requires BoundInv(s) && p < |s.producers| && Holds(s.producers[p])
    ensures var pos := s.producers[p].pos; Wrap(TurnAt(s, pos)) == Wrap(pos) <==> TurnAt(s, pos) == pos
  {
    assert ProducerInv(s, p);
    TurnNotBeyond(s, p);
    OvershootBound(s);
    WrapInjective(TurnAt(s, s.producers[p].pos), s.producers[p].pos);
  }

  /** So does the comparison `wait` makes with the value it was given. */
  lemma WaitTestOnWords<T>(s: State<T>, p: nat)
    requires BoundInv(s) && p < |s.producers| && s.producers[p].PWait?
    ensures var q := s.producers[p]; Wrap(TurnAt(s, q.pos)) == Wrap(q.seen) <==> TurnAt(s, q.pos) == q.seen
  {
    assert ProducerInv(s, p) && SampleInv(s, p);
    TurnNotBeyond(s, p);
    OvershootBound(s);
    WrapInjective(TurnAt(s, s.producers[p].pos), s.producers[p].seen);
  }

  /** And the consumer's test for a published item. */
  lemma PublishedTestOnWords<T>(s: State<T>)
    requires SlotInv(s) && s.consumer.CLoadTurn?
    ensures Wrap(TurnAt(s, s.tail)) == Wrap(s.tail + 1) <==> TurnAt(s, s.tail) == s.tail + 1
  {
    assert InWindow(s, s.tail);
    WrapInjective(TurnAt(s, s.tail), s.tail + 1);
  }

  /** Between the histories `was` and `now` calls have completed, `c` last. */
  ghost predicate EndsWith<T>(was: seq<Call<T>>, c: Call<T>, now: seq<Call<T>>) {
    was < now && now[|now| - 1] == c
  }

  lemma EndsWithSince<T>(was: seq<Call<T>>, mid: seq<Call<T>>, c: Call<T>, now: seq<Call<T>>)
    requires was <= mid && EndsWith(mid, c, now)
    ensures EndsWith(was, c, now)
  {
  }

  /** Between `was` and `now` the consumer's pop returned `result`, last of all calls; a value
      is that of the ticket at the old tail, and the tail has moved past it. */
  ghost predicate Popped<T>(was: State<T>, result: Option<T>, now: State<T>) {
    && EndsWith(was.calls, Call.Pop(result), now.calls)
    && if result.Some?
       then was.tail < |now.issued| && result.value == now.issued[was.tail].item && now.tail == was.tail + 1
       else now.tail == was.tail
  }

  /** `p` has drawn ticket `k` for `u` and has not written its slot yet. */
  ghost predicate Awaiting<T>(s: State<T>, p: nat, u: T, k: nat) {
    && p < |s.producers| && k < |s.issued|
    && s.issued[k] == Ticket(p, u)
    && var q := s.producers[p];
       (q.PLoadTurn? || q.PWait? || q.PParked? || q.PWrite?) && q.item == u && q.pos == k
  }

  /** Between `was` and `now` the push of `u` by `p` returned `ok`, last of all calls, having
      drawn a new ticket for `u` if it was accepted. */
  ghost predicate Replied<T>(was: State<T>, p: nat, u: T, ok: bool, now: State<T>) {
    && EndsWith(was.calls, Call.Push(p, u, ok), now.calls)
    && (ok ==> exists k :: |was.issued| <= k < |now.issued| && now.issued[k] == Ticket(p, u))
  }

  lemma RepliedSince<T>(was: State<T>, mid: State<T>, p: nat, u: T, ok: bool, now: State<T>)
    requires was.calls <= mid.calls && was.issued <= mid.issued && Replied(mid, p, u, ok, now)
    ensures Replied(was, p, u, ok, now)
  {
  }

  lemma PoppedSince<T>(was: State<T>, mid: State<T>, result: Option<T>, now: State<T>)
    requires was.calls <= mid.calls && was.tail == mid.tail && Popped(mid, result, now)
    ensures Popped(was, result, now)
  {
  }

  /** Other threads leave `p` where it is, but may end its sleep. */
  lemma OthersLeave<T>(s: State<T>, p: nat, a: Action<T>)
    requires Enabled(s, a) && p < |s.producers| && !s.producers[p].PIdle? && a != ProducerStep(p)
    ensures var s' := Step(s, a);
      && |s'.producers| == |s.producers|
      && (s'.producers[p] == s.producers[p] || s'.producers[p] == Unblocked(s.producers[p]))
      && s.calls <= s'.calls && s.issued <= s'.issued
  {
  }

  /** Producers leave the consumer where it is. */
  lemma ProducersLeave<T>(s: State<T>, a: Action<T>)
    requires Enabled(s, a) && !a.ConsumerStep?
    ensures var s' := Step(s, a);
      && s'.consumer == s.consumer && s'.tail == s.tail
      && s.calls <= s'.calls && s.issued <= s'.issued
  {
  }

  class Mpsc<T> {
    var head: nat
    var tail: nat
    const turn: array<nat>
    const data: array<T>
    const producers: array<Producer<T>>
    var consumer: Consumer<T>
    /** The protocol state on unbounded counters. */
    ghost var model: State<T>

    /** The words and registers are those of the model. */
    ghost predicate Represents()
      reads this, turn, data, producers
    {
      && turn as object != data && turn as object != producers && data as object != producers
      && IsBufSize(turn.Length) && data.Length == turn.Length
      && |model.slots| == turn.Length
      && |model.producers| == producers.Length
      && head == Wrap(model.head)
      && tail == Wrap(model.tail)
      && (forall i | 0 <= i < turn.Length ::
            turn[i] == Wrap(model.slots[i].turn) && data[i] == model.slots[i].data)
      && (forall p | 0 <= p < producers.Length :: producers[p] == ProducerWords(model.producers[p]))
      && consumer == ConsumerWords(model.consumer)
    }

    ghost predicate Valid()
      reads this, turn, data, producers
    {
      BoundInv(model) && Represents()
    }

    /** The constructor's loop: slot `i` is free for ticket `i`. */
    method SetTurns()
      requires turn as object != data && turn as object != producers
      requires turn.Length < WORD
      modifies turn
      ensures forall i | 0 <= i < turn.Length :: turn[i] == Wrap(i)
    {
      for i := 0 to turn.Length
        invariant forall j | 0 <= j < i :: turn[j] == Wrap(j)
      {
        turn[i] := i;
      }
    }

    constructor (bufSize: nat, threads: nat, initial: T)
      requires IsBufSize(bufSize) && bufSize + threads <= WORD
      ensures Valid() && fresh(turn) && fresh(data) && fresh(producers)
      ensures model == Init(bufSize, threads, initial)
    {
      head, tail := 0, 0;
      turn := new nat[bufSize](_ => 0);
      data := new T[bufSize](_ => initial);
      producers := new Producer<T>[threads](_ => PIdle);
      consumer := CIdle;
      model := Init(bufSize, threads, initial);
      new;
      SetTurns();
      assert BoundInv(model) by { BoundInvInit(bufSize, threads, initial); }
    }

    // -------------------------------------------------------------- push, line by line

    /** `cur_head = _head.load()` */
    method BeginPush(p: nat, u: T)
      requires Valid() && p < producers.Length && producers[p].PIdle?
      modifies this, producers
      ensures Valid() && model == Step(old(model), Action.BeginPush(p, u))
    {
      StepKeepsBounds(model, Action.BeginPush(p, u));
      producers[p] := PLoadTail(u, head);
      model := Step(model, Action.BeginPush(p, u));
    }

    /** `cur_tail = _tail.load()`, then the test of the unsigned difference. */
    method CheckFull(p: nat) returns (full: bool)
      requires Valid() && p < producers.Length && producers[p].PLoadTail?
      modifies this, producers
      ensures Valid() && model == Step(old(model), ProducerStep(p))
      ensures full == producers[p].PIdle? && (!full ==> producers[p].PFetchAdd?)
    {
      StepKeepsBounds(model, ProducerStep(p));
      WrapDifference(model.producers[p].h, model.tail);
      full := Wrap(producers[p].h - tail) >= turn.Length;
      producers[p] := if full then PIdle else PFetchAdd(producers[p].item, producers[p].h);
      model := Step(model, ProducerStep(p));
    }

    /** `pos = _head.fetch_add(1)` */
    method DrawTicket(p: nat)
      requires Valid() && p < producers.Length && producers[p].PFetchAdd?
      modifies this, producers
      ensures Valid() && model == Step(old(model), ProducerStep(p))
      ensures producers[p].PLoadTurn?
    {
      StepKeepsBounds(model, ProducerStep(p));
      WrapSum(model.head, 1);
      producers[p] := PLoadTurn(producers[p].item, head);
      head := Wrap(head + 1);
      model := Step(model, ProducerStep(p));
    }

    /** `seq_val = slot.seq.load()`, then the test against the ticket. */
    method LoadTurn(p: nat)
      requires Valid() && p < producers.Length && producers[p].PLoadTurn?
      modifies this, producers
      ensures Valid() && model == Step(old(model), ProducerStep(p))
    {
      StepKeepsBounds(model, ProducerStep(p));
      MaskFindsSlot(model.producers[p].pos, turn.Length);
      TurnTestOnWords(model, p);
      var q := producers[p];
      var seqVal := turn[BitAnd(q.pos, turn.Length - 1)];
      producers[p] := if seqVal != q.pos then PWait(q.item, q.pos, seqVal) else PWrite(q.item, q.pos);
      model := Step(model, ProducerStep(p));
    }

    /** `slot.seq.wait(seq_val)`: block while the value is still the one passed in. */
    method WaitTurn(p: nat)
      requires Valid() && p < producers.Length && producers[p].PWait?
      modifies this, producers
      ensures Valid() && model == Step(old(model), ProducerStep(p))
    {
      StepKeepsBounds(model, ProducerStep(p));
      MaskFindsSlot(model.producers[p].pos, turn.Length);
      WaitTestOnWords(model, p);
      var q := producers[p];
      producers[p] := if turn[BitAnd(q.pos, turn.Length - 1)] == q.seen
                      then PParked(q.item, q.pos, q.seen) else PLoadTurn(q.item, q.pos);
      model := Step(model, ProducerStep(p));
    }

    /** `slot.data = u` */
    method WriteSlot(p: nat)
      requires Valid() && p < producers.Length && producers[p].PWrite?
      modifies this, producers, data
      ensures Valid() && model == Step(old(model), ProducerStep(p))
    {
      StepKeepsBounds(model, ProducerStep(p));
      MaskFindsSlot(model.producers[p].pos, turn.Length);
      var q := producers[p];
      data[BitAnd(q.pos, turn.Length - 1)] := q.item;
      producers[p] := PPublish(q.item, q.pos);
      model := Step(model, ProducerStep(p));
    }

    /** `slot.seq.store(pos + 1)` */
    method PublishSlot(p: nat)
      requires Valid() && p < producers.Length && producers[p].PPublish?
      modifies this, producers, turn
      ensures Valid() && model == Step(old(model), ProducerStep(p))
    {
      StepKeepsBounds(model, ProducerStep(p));
      MaskFindsSlot(model.producers[p].pos, turn.Length);
      WrapSum(model.producers[p].pos, 1);
      var pos := producers[p].pos;
      turn[BitAnd(pos, turn.Length - 1)] := Wrap(pos + 1);
      producers[p] := PIdle;
      model := Step(model, ProducerStep(p));
    }

    /** The platform lets a waiter out of `wait` without a notification. */
    method SpuriousWake(p: nat)
      requires Valid() && p < producers.Length && producers[p].PParked?
      modifies this, producers
      ensures Valid() && model == Step(old(model), Action.SpuriousWake(p))
    {
      StepKeepsBounds(model, Action.SpuriousWake(p));
      producers[p] := Unblocked(producers[p]);
      model := Step(model, Action.SpuriousWake(p));
    }

    // -------------------------------------------------------------- pop, line by line

    /** `pos = _tail.load()` */
    method BeginPop(ghost left: T)
      requires Valid() && consumer.CIdle?
      modifies this
      ensures Valid() && model == Step(old(model), ConsumerStep({}, left))
    {
      StepKeepsBounds(model, ConsumerStep({}, left));
      consumer := CLoadTurn(tail);
      model := Step(model, ConsumerStep({}, left));
    }

    method LoadPublished(ghost left: T) returns (there: bool)
      requires Represents() && consumer.CLoadTurn?
      requires var pos := model.consumer.pos;
        Wrap(TurnAt(model, pos)) == Wrap(pos + 1) <==> TurnAt(model, pos) == pos + 1
      modifies this
      ensures Represents() && model == Step(old(model), ConsumerStep({}, left))
      ensures if there then consumer.CTake? else consumer.CIdle?
    {
      MaskFindsSlot(model.consumer.pos, turn.Length);
      WrapSum(model.consumer.pos, 1);
      var seqVal := turn[BitAnd(consumer.pos, turn.Length - 1)];
      there := seqVal == Wrap(consumer.pos + 1);
      consumer := if there then CTake(consumer.pos) else CIdle;
      model := Step(model, ConsumerStep({}, left));
    }

    /** `seq_val = slot.seq.load()`, then the test against `pos + 1`. */
    method CheckPublished(ghost left: T) returns (there: bool)
      requires Valid() && consumer.CLoadTurn?
      modifies this
      ensures Valid() && model == Step(old(model), ConsumerStep({}, left))
      ensures if there then consumer.CTake? else consumer.CIdle?
    {
      StepKeepsBounds(model, ConsumerStep({}, left));
      PublishedTestOnWords(model);
      assert model.consumer.pos == model.tail;
      there := LoadPublished(left);
    }

    /** `value = std::move(slot.data)` */
    method TakeSlot(left: T)
      requires Valid() && consumer.CTake?
      modifies this, data
      ensures Valid() && model == Step(old(model), ConsumerStep({}, left))
    {
      StepKeepsBounds(model, ConsumerStep({}, left));
      MaskFindsSlot(model.tail, turn.Length);
      var slot := BitAnd(consumer.pos, turn.Length - 1);
      var value := data[slot];
      data[slot] := left;
      consumer := CFree(consumer.pos, value);
      model := Step(model, ConsumerStep({}, left));
    }

    method StoreFreed(ghost left: T)
      requires Represents() && consumer.CFree?
      modifies this, turn
      ensures Represents() && model == Step(old(model), ConsumerStep({}, left))
    {
      MaskFindsSlot(model.consumer.pos, turn.Length);
      WrapSum(model.consumer.pos, turn.Length);
      var slot := BitAnd(consumer.pos, turn.Length - 1);
      ghost var next := Step(model, ConsumerStep({}, left));
      assert next.slots == model.slots[slot := Slot(model.consumer.pos + turn.Length, model.slots[slot].data)];
      turn[slot] := Wrap(consumer.pos + turn.Length);
      consumer := CNotify(consumer.pos, consumer.value);
      model := next;
    }

    /** `slot.seq.store(pos + BufSize)` */
    method FreeSlot(ghost left: T)
      requires Valid() && consumer.CFree?
      modifies this, turn
      ensures Valid() && model == Step(old(model), ConsumerStep({}, left))
    {
      StepKeepsBounds(model, ConsumerStep({}, left));
      StoreFreed(left);
    }

    method Unblock(woken: set<nat>)
      modifies producers
      ensures forall q | 0 <= q < producers.Length ::
                producers[q] == old(if q in woken then Unblocked(producers[q]) else producers[q])
    {
      for p := 0 to producers.Length
        invariant forall q | 0 <= q < p ::
                    producers[q] == old(if q in woken then Unblocked(producers[q]) else producers[q])
        invariant forall q | p <= q < producers.Length :: producers[q] == old(producers[q])
      {
        if p in woken {
          producers[p] := Unblocked(producers[p]);
        }
      }
    }

    method UnblockAll(woken: set<nat>, ghost left: T)
      requires Represents() && consumer.CNotify?
      modifies this, producers
      ensures Represents() && model == StepConsumer(old(model), woken, left)
    {
      ghost var next := StepConsumer(model, woken, left);
      Unblock(woken);
      forall p | 0 <= p < producers.Length ensures producers[p] == ProducerWords(next.producers[p]) {
        assert next.producers[p] == if p in woken then Unblocked(model.producers[p]) else model.producers[p];
      }
      consumer := CAdvance(consumer.pos, consumer.value);
      model := next;
    }

    /** `slot.seq.notify_one()`, waking the waiters the platform picks. */
    method NotifyOne(woken: set<nat>, ghost left: T)
      requires Valid() && consumer.CNotify? && NotifyChoice(model, woken)
      modifies this, producers
      ensures Valid() && model == Step(old(model), ConsumerStep(woken, left))
    {
      StepKeepsBounds(model, ConsumerStep(woken, left));
      UnblockAll(woken, left);
    }

    /** `_tail.store(pos + 1)` */
    method AdvanceTail(ghost left: T)
      requires Valid() && consumer.CAdvance?
      modifies this
      ensures Valid() && model == Step(old(model), ConsumerStep({}, left))
    {
      StepKeepsBounds(model, ConsumerStep({}, left));
      WrapSum(model.consumer.pos, 1);
      tail := Wrap(consumer.pos + 1);
      consumer := CIdle;
      model := Step(model, ConsumerStep({}, left));
    }

    // -------------------------------------------------------------- whole calls

    method RunProducerLine(p: nat)
      requires Valid() && Enabled(model, ProducerStep(p))
      modifies this, producers, turn, data
      ensures Valid() && model == Step(old(model), ProducerStep(p))
    {
      match producers[p]
      case PLoadTail(_, _) => var _ := CheckFull(p);
      case PFetchAdd(_, _) => DrawTicket(p);
      case PLoadTurn(_, _) => LoadTurn(p);
      case PWait(_, _, _) => WaitTurn(p);
      case PWrite(_, _) => WriteSlot(p);
      case PPublish(_, _) => PublishSlot(p);
    }

    method RunConsumerLine(woken: set<nat>, left: T)
      requires Valid() && Enabled(model, ConsumerStep(woken, left))
      modifies this, producers, turn, data
      ensures Valid() && model == Step(old(model), ConsumerStep(woken, left))
    {
      match consumer
      case CIdle => BeginPop(left);
      case CLoadTurn(_) => var _ := CheckPublished(left);
      case CTake(_) => TakeSlot(left);
      case CFree(_, _) => FreeSlot(left);
      case CNotify(_, _) => NotifyOne(woken, left);
      case CAdvance(_, _) => AdvanceTail(left);
    }

    /** The line that action `a` stands for. */
    method RunLine(a: Action<T>)
      requires Valid() && Enabled(model, a)
      modifies this, producers, turn, data
      ensures Valid() && model == Step(old(model), a)
    {
      match a
      case BeginPush(p, item) => BeginPush(p, item);
      case SpuriousWake(p) => SpuriousWake(p);
      case ProducerStep(p) => RunProducerLine(p);
      case ConsumerStep(woken, left) => RunConsumerLine(woken, left);
    }

    /** Everybody runs as the schedule says. */
    method Execute(actions: seq<Action<T>>)
      requires Valid() && Feasible(model, actions)
      modifies this, producers, turn, data
      ensures Valid() && model == Run(old(model), actions)
      decreases |actions|
    {
      if actions != [] {
        RunLine(actions[0]);
        Execute(actions[1..]);
      }
    }

    /** Everybody but `p` runs, up to the next line of `p` or the end of the schedule. */
    method OthersRun(p: nat, schedule: seq<Action<T>>) returns (rest: seq<Action<T>>)
      requires Valid() && Feasible(model, schedule)
      requires p < producers.Length && p < |model.producers| && !producers[p].PIdle?
      modifies this, producers, turn, data
      ensures Valid() && Feasible(model, rest) && |rest| <= |schedule|
      ensures UntilReturn(model, ByProducer(p), rest) == UntilReturn(old(model), ByProducer(p), schedule)
      ensures rest != [] ==> rest[0] == ProducerStep(p)
      ensures var was := old(model.producers[p]);
        model.producers[p] == was || model.producers[p] == Unblocked(was)
      ensures old(model.calls) <= model.calls && old(model.issued) <= model.issued
      decreases |schedule|
    {
      rest := schedule;
      if rest != [] && !(rest[0].ProducerStep? && rest[0].p == p) {
        OthersLeave(model, p, rest[0]);
        RunLine(rest[0]);
        rest := OthersRun(p, rest[1..]);
      }
    }

    /** Once round the loop: wait on the slot, or reload its turn after a wait. `alive` is false if
        the schedule ends first. */
    method LookAgain(p: nat, ghost u: T, ghost k: nat, schedule: seq<Action<T>>)
      returns (alive: bool, rest: seq<Action<T>>)
      requires Valid() && p < producers.Length && Feasible(model, schedule)
      requires Awaiting(model, p, u, k) && !producers[p].PWrite?
      modifies this, producers, turn, data
      ensures Valid() && Feasible(model, rest) && if alive then |rest| < |schedule| else rest == []
      ensures UntilReturn(model, ByProducer(p), rest) == UntilReturn(old(model), ByProducer(p), schedule)
      ensures Awaiting(model, p, u, k)
      ensures old(model.calls) <= model.calls
    {
      rest := OthersRun(p, schedule);
      if rest == [] { return false, rest; }
      alive, rest := true, rest[1..];
      if producers[p].PLoadTurn? {
        LoadTurn(p);
      } else {
        WaitTurn(p);
      }
    }

    /** The `do .. while` of `push`: wait on the slot and reload until its turn is the ticket.
        `there` is false if the schedule ends first. */
    method AwaitTurn(p: nat, ghost u: T, ghost k: nat, schedule: seq<Action<T>>)
      returns (there: bool, rest: seq<Action<T>>)
      requires Valid() && p < producers.Length && Feasible(model, schedule)
      requires Awaiting(model, p, u, k)
      modifies this, producers, turn, data
      ensures Valid() && Feasible(model, rest)
      ensures UntilReturn(model, ByProducer(p), rest) == UntilReturn(old(model), ByProducer(p), schedule)
      ensures Awaiting(model, p, u, k) && if there then producers[p].PWrite? else rest == []
      ensures old(model.calls) <= model.calls
    {
      there, rest := true, schedule;
      while !producers[p].PWrite?
        invariant Valid() && Feasible(model, rest)
        invariant UntilReturn(model, ByProducer(p), rest) == UntilReturn(old(model), ByProducer(p), schedule)
        invariant Awaiting(model, p, u, k)
        invariant old(model.calls) <= model.calls
        decreases |rest|
      {
        there, rest := LookAgain(p, u, k, rest);
        if !there { return; }
      }
    }

    /** The rest of `push` once the slot is written. */
    method PublishItem(p: nat, schedule: seq<Action<T>>) returns (done: bool, rest: seq<Action<T>>)
      requires Valid() && p < producers.Length && producers[p].PPublish? && Feasible(model, schedule)
      modifies this, producers, turn, data
      ensures Valid() && Feasible(model, rest)
      ensures if done then producers[p].PIdle? else !producers[p].PIdle? && rest == []
      ensures UntilReturn(model, ByProducer(p), rest) == UntilReturn(old(model), ByProducer(p), schedule)
      ensures old(model.issued) <= model.issued
      ensures done ==> EndsWith(old(model.calls), Call.Push(p, old(producers[p].item), true), model.calls)
    {
      rest := OthersRun(p, schedule);
      if rest == [] { return false, []; }
      PublishSlot(p);
      done, rest := true, rest[1..];
    }

    /** The write of the slot. */
    method WriteItem(p: nat, schedule: seq<Action<T>>) returns (written: bool, rest: seq<Action<T>>)
      requires Valid() && p < producers.Length && producers[p].PWrite? && Feasible(model, schedule)
      modifies this, producers, turn, data
      ensures Valid() && Feasible(model, rest)
      ensures UntilReturn(model, ByProducer(p), rest) == UntilReturn(old(model), ByProducer(p), schedule)
      ensures old(model.calls) <= model.calls && old(model.issued) <= model.issued
      ensures if written then producers[p].PPublish? && producers[p].item == old(producers[p].item)
              else !producers[p].PIdle? && rest == []
    {
      rest := OthersRun(p, schedule);
      if rest == [] { return false, []; }
      WriteSlot(p);
      written, rest := true, rest[1..];
    }

    /** The rest of `push` once the slot is ours. */
    method FinishPush(p: nat, ghost u: T, ghost k: nat, schedule: seq<Action<T>>)
      returns (done: bool, rest: seq<Action<T>>)
      requires Valid() && p < producers.Length && Feasible(model, schedule)
      requires Awaiting(model, p, u, k) && producers[p].PWrite?
      modifies this, producers, turn, data
      ensures Valid() && Feasible(model, rest)
      ensures if done then producers[p].PIdle? else !producers[p].PIdle? && rest == []
      ensures UntilReturn(model, ByProducer(p), rest) == UntilReturn(old(model), ByProducer(p), schedule)
      ensures k < |model.issued| && model.issued[k] == Ticket(p, u)
      ensures done ==> EndsWith(old(model.calls), Call.Push(p, u, true), model.calls)
    {
      done, rest := WriteItem(p, schedule);
      if done {
        ghost var mid := model.calls;
        done, rest := PublishItem(p, rest);
        if done {
          EndsWithSince(old(model.calls), mid, Call.Push(p, u, true), model.calls);
        }
      }
    }

    /** The ticket, and the wait for its turn. */
    method ReachSlot(p: nat, u: T, schedule: seq<Action<T>>)
      returns (there: bool, ghost k: nat, rest: seq<Action<T>>)
      requires Valid() && p < producers.Length && Feasible(model, schedule)
      requires producers[p].PFetchAdd? && producers[p].item == u
      modifies this, producers, turn, data
      ensures Valid() && Feasible(model, rest)
      ensures UntilReturn(model, ByProducer(p), rest) == UntilReturn(old(model), ByProducer(p), schedule)
      ensures old(model.calls) <= model.calls && |old(model.issued)| <= k
      ensures if there then Awaiting(model, p, u, k) && producers[p].PWrite?
              else !producers[p].PIdle? && rest == []
    {
      rest := OthersRun(p, schedule);
      k := |model.issued|;
      if rest == [] { return false, k, []; }
      DrawTicket(p);
      there, rest := AwaitTurn(p, u, k, rest[1..]);
    }

    /** The rest of `push` once it has passed the size check. */
    method PushAccepted(p: nat, u: T, schedule: seq<Action<T>>) returns (done: bool, rest: seq<Action<T>>)
      requires Valid() && p < producers.Length && Feasible(model, schedule)
      requires producers[p].PFetchAdd? && producers[p].item == u
      modifies this, producers, turn, data
      ensures Valid() && Feasible(model, rest)
      ensures if done then producers[p].PIdle? else !producers[p].PIdle? && rest == []
      ensures UntilReturn(model, ByProducer(p), rest) == UntilReturn(old(model), ByProducer(p), schedule)
      ensures done ==> Replied(old(model), p, u, true, model)
    {
      ghost var k;
      done, k, rest := ReachSlot(p, u, schedule);
      if done {
        done, rest := FinishPush(p, u, k, rest);
      }
    }

    /** The size check of `push`, up to its verdict. */
    method PassCheck(p: nat, ghost u: T, schedule: seq<Action<T>>)
      returns (full: Option<bool>, rest: seq<Action<T>>)
      requires Valid() && p < producers.Length && Feasible(model, schedule)
      requires producers[p].PLoadTail? && producers[p].item == u
      modifies this, producers, turn, data
      ensures Valid() && Feasible(model, rest)
      ensures UntilReturn(model, ByProducer(p), rest) == UntilReturn(old(model), ByProducer(p), schedule)
      ensures old(model.calls) <= model.calls && old(model.issued) <= model.issued
      ensures match full
              case None => !producers[p].PIdle? && rest == []
              case Some(true) => producers[p].PIdle? && Replied(old(model), p, u, false, model)
              case Some(false) => producers[p].PFetchAdd? && producers[p].item == u
    {
      rest := OthersRun(p, schedule);
      if rest == [] { return None, rest; }
      rest := rest[1..];
      var refused := CheckFull(p);
      full := Some(refused);
    }

    /** `push` after its first access. */
    method FinishCheck(p: nat, u: T, schedule: seq<Action<T>>) returns (ok: Option<bool>, rest: seq<Action<T>>)
      requires Valid() && p < producers.Length && Feasible(model, schedule)
      requires producers[p].PLoadTail? && producers[p].item == u
      modifies this, producers, turn, data
      ensures Valid() && Feasible(model, rest)
      ensures UntilReturn(model, ByProducer(p), rest) == UntilReturn(old(model), ByProducer(p), schedule)
      ensures if ok.Some? then producers[p].PIdle? && Replied(old(model), p, u, ok.value, model)
              else !producers[p].PIdle? && rest == []
    {
      var full;
      full, rest := PassCheck(p, u, schedule);
      if full == Some(false) {
        ghost var mid := model;
        var done;
        done, rest := PushAccepted(p, u, rest);
        if !done { return None, []; }
        RepliedSince(old(model), mid, p, u, true, model);
        return Some(true), rest;
      }
      ok := if full.None? then None else Some(false);
    }

    /** `push` as the source has it, each of its accesses preceded by whatever the schedule
        lets the other threads do. It runs the schedule up to its own return, with its verdict
        and what is left of the schedule, or to the end, with the call still under way. */
    method Push(p: nat, u: T, schedule: seq<Action<T>>) returns (ok: Option<bool>, rest: seq<Action<T>>)
      requires Valid() && p < producers.Length && producers[p].PIdle?
      requires Feasible(Step(model, Action.BeginPush(p, u)), schedule)
      modifies this, producers, turn, data
      ensures Valid()
      ensures RanUntilReturn(Step(old(model), Action.BeginPush(p, u)), ByProducer(p), schedule, rest, model)
      ensures ok.Some? ==> producers[p].PIdle? && Replied(old(model), p, u, ok.value, model)
      ensures ok.None? ==> !producers[p].PIdle? && rest == []
    {
      BeginPush(p, u);
      ghost var start := model;
      ok, rest := FinishCheck(p, u, schedule);
      StandsAtReturn(start, ByProducer(p), schedule, model, rest);
    }

    /** The producers run, up to the next line of the consumer or the end of the schedule. */
    method ProducersRun(schedule: seq<Action<T>>) returns (rest: seq<Action<T>>)
      requires Valid() && !consumer.CIdle? && Feasible(model, schedule)
      modifies this, producers, turn, data
      ensures Valid() && Feasible(model, rest) && |rest| <= |schedule|
      ensures UntilReturn(model, ByConsumer, rest) == UntilReturn(old(model), ByConsumer, schedule)
      ensures rest != [] ==> rest[0].ConsumerStep?
      ensures model.consumer == old(model.consumer) && model.tail == old(model.tail)
      ensures old(model.calls) <= model.calls && old(model.issued) <= model.issued
      decreases |schedule|
    {
      rest := schedule;
      if rest != [] && !rest[0].ConsumerStep? {
        ProducersLeave(model, rest[0]);
        RunLine(rest[0]);
        rest := ProducersRun(rest[1..]);
      }
    }

    /** The rest of `pop` once the waiters are notified. */
    method ReturnItem(schedule: seq<Action<T>>)
      returns (done: bool, result: Option<T>, rest: seq<Action<T>>)
      requires Valid() && consumer.CAdvance? && Feasible(model, schedule)
      modifies this, producers, turn, data
      ensures Valid() && Feasible(model, rest)
      ensures if done then consumer.CIdle? else !consumer.CIdle? && rest == []
      ensures UntilReturn(model, ByConsumer, rest) == UntilReturn(old(model), ByConsumer, schedule)
      ensures done ==> Popped(old(model), result, model) && result.Some?
    {
      rest := ProducersRun(schedule);
      if rest == [] { return false, None, []; }
      result := Some(consumer.value);
      AdvanceTail(rest[0].left);
      done, rest := true, rest[1..];
    }

    /** The rest of `pop` once the slot is freed. */
    method FinishPop(schedule: seq<Action<T>>)
      returns (done: bool, result: Option<T>, rest: seq<Action<T>>)
      requires Valid() && consumer.CNotify? && Feasible(model, schedule)
      modifies this, producers, turn, data
      ensures Valid() && Feasible(model, rest)
      ensures if done then consumer.CIdle? else !consumer.CIdle? && rest == []
      ensures UntilReturn(model, ByConsumer, rest) == UntilReturn(old(model), ByConsumer, schedule)
      ensures done ==> Popped(old(model), result, model) && result.Some?
    {
      rest := ProducersRun(schedule);
      if rest == [] { return false, None, []; }
      NotifyOne(rest[0].woken, rest[0].left);
      done, result, rest := ReturnItem(rest[1..]);
    }

    /** The rest of `pop` once the item is moved out. */
    method FreeItem(schedule: seq<Action<T>>)
      returns (done: bool, result: Option<T>, rest: seq<Action<T>>)
      requires Valid() && consumer.CFree? && Feasible(model, schedule)
      modifies this, producers, turn, data
      ensures Valid() && Feasible(model, rest)
      ensures if done then consumer.CIdle? else !consumer.CIdle? && rest == []
      ensures UntilReturn(model, ByConsumer, rest) == UntilReturn(old(model), ByConsumer, schedule)
      ensures done ==> Popped(old(model), result, model) && result.Some?
    {
      rest := ProducersRun(schedule);
      if rest == [] { return false, None, []; }
      FreeSlot(rest[0].left);
      done, result, rest := FinishPop(rest[1..]);
    }

    /** The rest of `pop` once an item is there. */
    method TakeItem(schedule: seq<Action<T>>)
      returns (done: bool, result: Option<T>, rest: seq<Action<T>>)
      requires Valid() && consumer.CTake? && Feasible(model, schedule)
      modifies this, producers, turn, data
      ensures Valid() && Feasible(model, rest)
      ensures if done then consumer.CIdle? else !consumer.CIdle? && rest == []
      ensures UntilReturn(model, ByConsumer, rest) == UntilReturn(old(model), ByConsumer, schedule)
      ensures done ==> Popped(old(model), result, model) && result.Some?
    {
      rest := ProducersRun(schedule);
      if rest == [] { return false, None, []; }
      TakeSlot(rest[0].left);
      done, result, rest := FreeItem(rest[1..]);
    }

    /** The look of `pop` for an item. */
    method LookForItem(schedule: seq<Action<T>>) returns (there: Option<bool>, rest: seq<Action<T>>)
      requires Valid() && consumer.CLoadTurn? && Feasible(model, schedule)
      modifies this, producers, turn, data
      ensures Valid() && Feasible(model, rest)
      ensures UntilReturn(model, ByConsumer, rest) == UntilReturn(old(model), ByConsumer, schedule)
      ensures old(model.calls) <= model.calls && old(model.tail) == model.tail
      ensures match there
              case None => !consumer.CIdle? && rest == []
              case Some(true) => consumer.CTake?
              case Some(false) => consumer.CIdle? && Popped(old(model), None, model)
    {
      rest := ProducersRun(schedule);
      if rest == [] { return None, []; }
      var found := CheckPublished(rest[0].left);
      there, rest := Some(found), rest[1..];
    }

    /** `pop` after its first access. */
    method FinishLook(schedule: seq<Action<T>>)
      returns (done: bool, result: Option<T>, rest: seq<Action<T>>)
      requires Valid() && consumer.CLoadTurn? && Feasible(model, schedule)
      modifies this, producers, turn, data
      ensures Valid() && Feasible(model, rest)
      ensures if done then consumer.CIdle? else !consumer.CIdle? && rest == []
      ensures UntilReturn(model, ByConsumer, rest) == UntilReturn(old(model), ByConsumer, schedule)
      ensures done ==> Popped(old(model), result, model)
    {
      var there;
      there, rest := LookForItem(schedule);
      if there == Some(true) {
        ghost var mid := model;
        done, result, rest := TakeItem(rest);
        if done {
          PoppedSince(old(model), mid, result, model);
        }
      } else {
        done, result := there.Some?, None;
      }
    }

    /** `pop` as the source has it, with producer activity before each of its accesses. It runs
        the schedule up to its own return, or to the end. A value it returns is the item of the
        oldest ticket not popped yet. */
    method Pop(left: T, schedule: seq<Action<T>>)
      returns (done: bool, result: Option<T>, rest: seq<Action<T>>)
      requires Valid() && consumer.CIdle?
      requires Feasible(Step(model, ConsumerStep({}, left)), schedule)
      modifies this, producers, turn, data
      ensures Valid() && if done then consumer.CIdle? else !consumer.CIdle? && rest == []
      ensures RanUntilReturn(Step(old(model), ConsumerStep({}, left)), ByConsumer, schedule, rest, model)
      ensures done ==> Popped(old(model), result, model)
    {
      BeginPop(left);
      ghost var start := model;
      done, result, rest := FinishLook(schedule);
      StandsAtReturn(start, ByConsumer, schedule, model, rest);
    }
  }
}
