/** The slot protocol: what the sequence numbers guarantee in every reachable state, for any
    number of producers and whatever the size check lets through. */
module MpscSlots {
  import opened Words
  import opened MpscProtocol

  /** How many positions the consumer has freed. `tail` lags one behind between the store
      that frees a slot and the store of `_tail`. */
  function Freed<T>(s: State<T>): nat {
    if s.consumer.CNotify? || s.consumer.CAdvance? then s.tail + 1 else s.tail
  }

  /** Position `k` is in the lap of slots that follows the freed ones. */
  predicate InWindow<T>(s: State<T>, k: nat) {
    Freed(s) <= k < Freed(s) + |s.slots|
  }

  /** Ticket `k` is still in the hands of the producer it was issued to. */
  predicate Held<T>(s: State<T>, k: nat)
    requires k < |s.issued|
  {
    var p := s.issued[k].owner;
    p < |s.producers| && Holds(s.producers[p]) && s.producers[p].pos == k
  }

  /** The item of ticket `k` lies published in its slot. While the consumer holds it between
      taking it and freeing the slot, the slot's content no longer matters. */
  ghost predicate Published<T>(s: State<T>, k: nat)
    requires |s.slots| > 0 && k < |s.issued|
  {
    && InWindow(s, k)
    && TurnAt(s, k) == k + 1
    && ((s.consumer.CFree? && k == s.tail) || DataAt(s, k) == s.issued[k].item)
  }

  ghost predicate ProducerInv<T>(s: State<T>, p: nat)
    requires |s.slots| > 0 && p < |s.producers|
  {
    var q := s.producers[p];
    && (Holds(q) ==>
          && Freed(s) <= q.pos < |s.issued|
          && s.issued[q.pos] == Ticket(p, q.item)
          && (InWindow(s, q.pos) ==> TurnAt(s, q.pos) == q.pos))
    && (q.PWait? || q.PParked? ==> q.seen < q.pos)
    && (q.PWrite? || q.PPublish? ==> InWindow(s, q.pos))
    && (q.PPublish? ==> DataAt(s, q.pos) == q.item)
  }

  ghost predicate ConsumerInv<T>(s: State<T>)
    requires |s.slots| > 0
  {
    match s.consumer
    case CIdle => true
    case CLoadTurn(pos) => pos == s.tail
    case CTake(pos) => pos == s.tail < |s.issued| && TurnAt(s, pos) == pos + 1
    case CFree(pos, value) =>
      pos == s.tail < |s.issued| && TurnAt(s, pos) == pos + 1 && value == s.issued[pos].item
    case CNotify(pos, value) => pos == s.tail < |s.issued| && value == s.issued[pos].item
    case CAdvance(pos, value) => pos == s.tail < |s.issued| && value == s.issued[pos].item
  }

  /** In the window, the turn of position `k` is `k` until its item is published and `k + 1`
      from then on. */
  ghost predicate TurnInv<T>(s: State<T>)
    requires |s.slots| > 0
  {
    forall k: nat | InWindow(s, k) ::
      TurnAt(s, k) == k || (TurnAt(s, k) == k + 1 && k < s.head)
  }

  ghost predicate SlotInv<T>(s: State<T>) {
    && |s.slots| >= 2
    && s.head == |s.issued|
    && Freed(s) <= s.head
    && TurnInv(s)
    && ConsumerInv(s)
    && (forall p: nat | p < |s.producers| :: ProducerInv(s, p))
    && (forall k: nat | Freed(s) <= k < s.head :: Held(s, k) || Published(s, k))
  }

  lemma SlotInvInit<T>(bufSize: nat, producers: nat, initial: T)
    requires bufSize >= 2
    ensures SlotInv(Init(bufSize, producers, initial))
  {
  }

  /** A store into the slot of `k0` is not seen at any other position of the window. */
  lemma StoreFrame<T>(s: State<T>, s': State<T>, k0: nat, slot: Slot<T>)
    requires |s.slots| > 0 && InWindow(s, k0)
    requires s'.slots == s.slots[SlotOf(k0, |s.slots|) := slot]
    ensures TurnAt(s', k0) == slot.turn && DataAt(s', k0) == slot.data
    ensures forall k: nat | InWindow(s, k) && k != k0 ::
              TurnAt(s', k) == TurnAt(s, k) && DataAt(s', k) == DataAt(s, k)
  {
    WindowSlotsDistinct(Freed(s), |s.slots|);
  }

  /** Position `pos` shares its slot with a position `j` of the window, at least a lap below
      unless it is `pos` itself. */
  lemma {:induction false} LapsBelow<T>(s: State<T>, pos: nat)
    requires |s.slots| >= 2 && TurnInv(s) && Freed(s) <= pos
    ensures InWindow(s, pos) || Freed(s) <= TurnAt(s, pos) < pos
    decreases pos
  {
    var b := |s.slots|;
    if !InWindow(s, pos) {
      var j := pos - b;
      LapsBelow(s, j);
      assert TurnAt(s, pos) == TurnAt(s, j);
      if InWindow(s, j) {
        assert TurnAt(s, j) <= j + 1;
      }
    }
  }

  /** A slot never shows a turn beyond the ticket of a producer waiting for it. */
  lemma TurnNotBeyond<T>(s: State<T>, p: nat)
    requires SlotInv(s) && p < |s.producers| && Holds(s.producers[p])
    ensures Freed(s) <= TurnAt(s, s.producers[p].pos) <= s.producers[p].pos
    ensures TurnAt(s, s.producers[p].pos) == s.producers[p].pos ==> InWindow(s, s.producers[p].pos)
  {
    assert ProducerInv(s, p);
    LapsBelow(s, s.producers[p].pos);
  }

  // ---------------------------------------------------------------- preservation

  /** A producer that only moves on to `q`, keeping the ticket it has, breaks nothing. */
  lemma MoveKeepsSlotInv<T>(s: State<T>, p: nat, q: Producer<T>, calls: seq<Call<T>>)
    requires SlotInv(s) && p < |s.producers|
    requires Holds(q) == Holds(s.producers[p])
    requires Holds(q) ==> q.pos == s.producers[p].pos && q.item == s.producers[p].item
    requires ProducerInv(Set(s, p, q), p)
    ensures SlotInv(Set(s, p, q).(calls := calls))
  {
    var s' := Set(s, p, q).(calls := calls);
    assert forall k: nat :: TurnAt(s', k) == TurnAt(s, k) && DataAt(s', k) == DataAt(s, k);
    forall k: nat | Freed(s') <= k < s'.head ensures Held(s', k) || Published(s', k) {
      assert Held(s, k) || Published(s, k);
    }
    forall r: nat | r < |s'.producers| ensures ProducerInv(s', r) {
      assert r != p ==> ProducerInv(s, r);
      assert r == p ==> ProducerInv(Set(s, p, q), p);
    }
  }

  lemma ProducerMoveKeepsSlotInv<T>(s: State<T>, p: nat)
    requires SlotInv(s) && p < |s.producers|
    requires s.producers[p].PLoadTail? || s.producers[p].PLoadTurn? || s.producers[p].PWait?
    ensures SlotInv(StepProducer(s, p))
  {
    var s' := StepProducer(s, p);
    assert ProducerInv(s, p);
    if Holds(s.producers[p]) {
      TurnNotBeyond(s, p);
    }
    assert ProducerInv(Set(s, p, s'.producers[p]), p);
    MoveKeepsSlotInv(s, p, s'.producers[p], s'.calls);
    assert s' == Set(s, p, s'.producers[p]).(calls := s'.calls);
  }

  lemma FetchAddKeepsSlotInv<T>(s: State<T>, p: nat)
    requires SlotInv(s) && p < |s.producers| && s.producers[p].PFetchAdd?
    ensures SlotInv(StepProducer(s, p))
  {
    var s' := StepProducer(s, p);
    assert forall k: nat :: TurnAt(s', k) == TurnAt(s, k) && DataAt(s', k) == DataAt(s, k);
    forall k: nat | Freed(s') <= k < s'.head ensures Held(s', k) || Published(s', k) {
      assert k < s.head ==> Held(s, k) || Published(s, k);
    }
    forall r: nat | r < |s'.producers| ensures ProducerInv(s', r) {
      assert ProducerInv(s, r);
    }
  }

  lemma WriteKeepsSlotInv<T>(s: State<T>, p: nat)
    requires SlotInv(s) && Enabled(s, ProducerStep(p)) && s.producers[p].PWrite?
    ensures SlotInv(StepProducer(s, p))
  {
    var s' := StepProducer(s, p);
    var pos := s.producers[p].pos;
    assert ProducerInv(s, p);
    StoreFrame(s, s', pos, Slot(TurnAt(s, pos), s.producers[p].item));
    forall k: nat | Freed(s') <= k < s'.head ensures Held(s', k) || Published(s', k) {
      assert Held(s, k) || Published(s, k);
    }
    forall q: nat | q < |s'.producers| ensures ProducerInv(s', q) {
      assert ProducerInv(s, q);
    }
  }

  lemma PublishKeepsSlotInv<T>(s: State<T>, p: nat)
    requires SlotInv(s) && Enabled(s, ProducerStep(p)) && s.producers[p].PPublish?
    ensures SlotInv(StepProducer(s, p))
  {
    var s' := StepProducer(s, p);
    var pos := s.producers[p].pos;
    assert ProducerInv(s, p);
    StoreFrame(s, s', pos, Slot(pos + 1, DataAt(s, pos)));
    forall k: nat | Freed(s') <= k < s'.head ensures Held(s', k) || Published(s', k) {
      assert Held(s, k) || Published(s, k);
    }
    forall q: nat | q < |s'.producers| ensures ProducerInv(s', q) {
      assert ProducerInv(s, q);
    }
  }

  lemma LookKeepsSlotInv<T>(s: State<T>, woken: set<nat>, left: T)
    requires SlotInv(s) && Enabled(s, ConsumerStep(woken, left))
    requires s.consumer.CIdle? || s.consumer.CLoadTurn? || s.consumer.CAdvance?
    ensures SlotInv(StepConsumer(s, woken, left))
  {
    var s' := StepConsumer(s, woken, left);
    assert Freed(s') == Freed(s) && s'.producers == s.producers;
    assert forall k: nat :: TurnAt(s', k) == TurnAt(s, k) && DataAt(s', k) == DataAt(s, k);
    forall k: nat | Freed(s') <= k < s'.head ensures Held(s', k) || Published(s', k) {
      assert Held(s, k) || Published(s, k);
    }
    forall q: nat | q < |s'.producers| ensures ProducerInv(s', q) {
      assert ProducerInv(s, q);
    }
  }

  lemma NotifyKeepsSlotInv<T>(s: State<T>, woken: set<nat>, left: T)
    requires SlotInv(s) && Enabled(s, ConsumerStep(woken, left)) && s.consumer.CNotify?
    ensures SlotInv(StepConsumer(s, woken, left))
  {
    var s' := StepConsumer(s, woken, left);
    assert Freed(s') == Freed(s);
    assert forall k: nat :: TurnAt(s', k) == TurnAt(s, k) && DataAt(s', k) == DataAt(s, k);
    forall k: nat | Freed(s') <= k < s'.head ensures Held(s', k) || Published(s', k) {
      assert Held(s, k) || Published(s, k);
    }
    forall q: nat | q < |s'.producers| ensures ProducerInv(s', q) {
      assert ProducerInv(s, q);
    }
  }

  lemma TakeKeepsSlotInv<T>(s: State<T>, woken: set<nat>, left: T)
    requires SlotInv(s) && Enabled(s, ConsumerStep(woken, left)) && s.consumer.CTake?
    ensures SlotInv(StepConsumer(s, woken, left))
    ensures StepConsumer(s, woken, left).consumer.value == s.issued[s.tail].item
  {
    var s' := StepConsumer(s, woken, left);
    var pos := s.tail;
    StoreFrame(s, s', pos, Slot(TurnAt(s, pos), left));
    assert Held(s, pos) ==> ProducerInv(s, s.issued[pos].owner);
    assert Published(s, pos);
    forall k: nat | Freed(s') <= k < s'.head ensures Held(s', k) || Published(s', k) {
      assert Held(s, k) || Published(s, k);
    }
    forall q: nat | q < |s'.producers| ensures ProducerInv(s', q) {
      assert ProducerInv(s, q);
    }
  }

  lemma FreeKeepsSlotInv<T>(s: State<T>, woken: set<nat>, left: T)
    requires SlotInv(s) && Enabled(s, ConsumerStep(woken, left)) && s.consumer.CFree?
    ensures SlotInv(StepConsumer(s, woken, left))
  {
    var s' := StepConsumer(s, woken, left);
    var b := |s.slots|;
    var pos := s.tail;
    StoreFrame(s, s', pos, Slot(pos + b, DataAt(s, pos)));
    NextLapSameSlot(pos, b);
    assert TurnAt(s', pos + b) == pos + b;
    forall k: nat | Freed(s') <= k < s'.head ensures Held(s', k) || Published(s', k) {
      assert Held(s, k) || Published(s, k);
    }
    forall q: nat | q < |s'.producers| ensures ProducerInv(s', q) {
      assert ProducerInv(s, q);
    }
  }

  lemma StepKeepsSlotInv<T>(s: State<T>, a: Action<T>)
    requires SlotInv(s) && Enabled(s, a)
    ensures SlotInv(Step(s, a))
  {
    match a
    case BeginPush(p, item) =>
      MoveKeepsSlotInv(s, p, PLoadTail(item, s.head), s.calls);
    case ProducerStep(p) =>
      if s.producers[p].PWrite? {
        WriteKeepsSlotInv(s, p);
      } else if s.producers[p].PPublish? {
        PublishKeepsSlotInv(s, p);
      } else if s.producers[p].PFetchAdd? {
        FetchAddKeepsSlotInv(s, p);
      } else {
        ProducerMoveKeepsSlotInv(s, p);
      }
    case SpuriousWake(p) =>
      assert ProducerInv(s, p);
      MoveKeepsSlotInv(s, p, Unblocked(s.producers[p]), s.calls);
    case ConsumerStep(woken, left) =>
      if s.consumer.CTake? {
        TakeKeepsSlotInv(s, woken, left);
      } else if s.consumer.CFree? {
        FreeKeepsSlotInv(s, woken, left);
      } else if s.consumer.CNotify? {
        NotifyKeepsSlotInv(s, woken, left);
      } else {
        LookKeepsSlotInv(s, woken, left);
      }
  }

  /** Of the turns in the window, a producer's step changes only that of the ticket it
      publishes. */
  lemma ProducerTurnFrame<T>(s: State<T>, p: nat)
    requires SlotInv(s) && Enabled(s, ProducerStep(p))
    ensures forall k: nat | InWindow(s, k) && !(s.producers[p].PPublish? && s.producers[p].pos == k) ::
              TurnAt(StepProducer(s, p), k) == TurnAt(s, k)
  {
    var q := s.producers[p];
    assert ProducerInv(s, p);
    if q.PWrite? {
      StoreFrame(s, StepProducer(s, p), q.pos, Slot(TurnAt(s, q.pos), q.item));
    } else if q.PPublish? {
      StoreFrame(s, StepProducer(s, p), q.pos, Slot(q.pos + 1, DataAt(s, q.pos)));
    }
  }

  /** A step of the consumer changes only the turn of the position it frees. */
  lemma ConsumerTurnFrame<T>(s: State<T>, woken: set<nat>, left: T)
    requires SlotInv(s) && Enabled(s, ConsumerStep(woken, left))
    ensures forall k: nat | InWindow(s, k) && !(s.consumer.CFree? && s.tail == k) ::
              TurnAt(StepConsumer(s, woken, left), k) == TurnAt(s, k)
  {
    var s' := StepConsumer(s, woken, left);
    if s.consumer.CTake? {
      StoreFrame(s, s', s.tail, Slot(TurnAt(s, s.tail), left));
    } else if s.consumer.CFree? {
      StoreFrame(s, s', s.tail, Slot(s.tail + |s.slots|, DataAt(s, s.tail)));
    }
  }

  lemma {:induction false} RunKeepsSlotInv<T>(s: State<T>, actions: seq<Action<T>>)
    requires SlotInv(s) && Feasible(s, actions)
    ensures SlotInv(Run(s, actions))
    decreases |actions|
  {
    if actions != [] {
      StepKeepsSlotInv(s, actions[0]);
      RunKeepsSlotInv(Step(s, actions[0]), actions[1..]);
    }
  }

  // ---------------------------------------------------------------- consequences

  /** No two producers are ever at one slot's data together, and no producer is there with
      the consumer. */
  lemma SlotAccessExclusive<T>(s: State<T>, p: nat, q: nat)
    requires SlotInv(s) && p < |s.producers| && q < |s.producers| && p != q
    requires s.producers[p].PWrite? || s.producers[p].PPublish?
    ensures s.producers[q].PWrite? || s.producers[q].PPublish? ==>
              SlotOf(s.producers[p].pos, |s.slots|) != SlotOf(s.producers[q].pos, |s.slots|)
    ensures s.consumer.CTake? || s.consumer.CFree? ==>
              SlotOf(s.producers[p].pos, |s.slots|) != SlotOf(s.consumer.pos, |s.slots|)
  {
    assert ProducerInv(s, p) && ProducerInv(s, q);
    WindowSlotsDistinct(Freed(s), |s.slots|);
  }

  /** When `pop` finds nothing, the next ticket has not been issued or its owner has not
      published it yet; otherwise it is published. */
  lemma PopEmptyExplained<T>(s: State<T>)
    requires SlotInv(s) && s.consumer.CLoadTurn?
    ensures TurnAt(s, s.tail) != s.tail + 1 <==> s.tail == s.head || Held(s, s.tail)
    ensures TurnAt(s, s.tail) == s.tail + 1 ==> Published(s, s.tail)
  {
    if s.tail < s.head {
      assert Held(s, s.tail) || Published(s, s.tail);
      if Held(s, s.tail) {
        assert ProducerInv(s, s.issued[s.tail].owner);
      }
    }
    assert InWindow(s, s.tail);
  }
}
