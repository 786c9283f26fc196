/** Parking: when a wake-up can be lost, how soon a ticket whose turn has come is published,
    and how soon any ticket is delivered. */
module MpscWakeups {
  import opened Options
  import opened Words
  import opened MpscProtocol
  import opened MpscSlots
  import opened MpscBounds

  /** `p` sleeps although the slot already shows its ticket, and the `notify_one` that would
      end its sleep is not just about to happen. */
  ghost predicate Forgotten<T>(s: State<T>, p: nat)
    requires |s.slots| > 0 && p < |s.producers|
  {
    && s.producers[p].PParked?
    && TurnAt(s, s.producers[p].pos) == s.producers[p].pos
    && !(s.consumer.CNotify? && s.consumer.pos + |s.slots| == s.producers[p].pos)
  }

  ghost predicate NoLostWakeup<T>(s: State<T>) {
    |s.slots| > 0 && forall p: nat | p < |s.producers| :: !Forgotten(s, p)
  }

  // ---------------------------------------------------------------- few enough producers

  /** With at most `B + 1` producers, `notify_one` can only wake the producer whose turn the
      store before it has brought. */
  lemma NotifyReachesOwner<T>(s: State<T>, p: nat)
    requires BoundInv(s) && |s.producers| <= |s.slots| + 1
    requires s.consumer.CNotify? && p in Eligible(s)
    ensures s.producers[p].pos == s.consumer.pos + |s.slots| < s.head
    ensures s.issued[s.consumer.pos + |s.slots|].owner == p
  {
    var b := |s.slots|;
    var pos := s.producers[p].pos;
    assert ProducerInv(s, p);
    OvershootBound(s);
    SameSlotApart(s.consumer.pos, pos, b);
    if s.consumer.pos + b < pos {
      NextLapSameSlot(s.consumer.pos, b);
      SameSlotApart(s.consumer.pos + b, pos, b);
    }
  }

  /** A producer does not go to sleep at its own turn. */
  lemma ParksBeforeItsTurn<T>(s: State<T>, p: nat)
    requires SlotInv(s) && Enabled(s, ProducerStep(p))
    ensures !Forgotten(StepProducer(s, p), p)
  {
    assert ProducerInv(s, p);
  }

  lemma ProducerStepFrame<T>(s: State<T>, q: nat, p: nat)
    requires |s.slots| > 0 && Enabled(s, ProducerStep(q)) && p < |s.producers| && p != q
    ensures var s' := StepProducer(s, q);
      && |s'.slots| == |s.slots| && |s'.producers| == |s.producers|
      && s'.producers[p] == s.producers[p] && s'.consumer == s.consumer && s'.tail == s.tail
  {
  }

  lemma ProducerForgetsNobody<T>(s: State<T>, q: nat, p: nat)
    requires SlotInv(s) && Enabled(s, ProducerStep(q))
    requires SlotInv(StepProducer(s, q)) && p < |s.producers| && Forgotten(StepProducer(s, q), p)
    ensures Forgotten(s, p)
  {
    if q == p {
      ParksBeforeItsTurn(s, p);
    } else {
      ProducerStepFrame(s, q, p);
      TurnNotBeyond(StepProducer(s, q), p);
      assert InWindow(s, s.producers[p].pos);
      assert ProducerInv(s, p);
    }
  }

  lemma ConsumerForgetsNobody<T>(s: State<T>, woken: set<nat>, left: T, p: nat)
    requires SlotInv(s) && Enabled(s, ConsumerStep(woken, left)) && !s.consumer.CNotify?
    requires SlotInv(StepConsumer(s, woken, left)) && p < |s.producers|
    requires Forgotten(StepConsumer(s, woken, left), p)
    ensures Forgotten(s, p)
  {
    assert ProducerInv(s, p);
    TurnNotBeyond(StepConsumer(s, woken, left), p);
    ConsumerTurnFrame(s, woken, left);
  }

  lemma NotifyForgetsNobody<T>(s: State<T>, woken: set<nat>, left: T, p: nat)
    requires BoundInv(s) && |s.producers| <= |s.slots| + 1 && s.consumer.CNotify?
    requires Enabled(s, ConsumerStep(woken, left)) && p < |s.producers|
    requires Forgotten(StepConsumer(s, woken, left), p)
    ensures Forgotten(s, p)
  {
    var pos := s.producers[p].pos;
    if s.tail + |s.slots| == pos {
      assert ProducerInv(s, p);
      NextLapSameSlot(s.tail, |s.slots|);
      assert p in Eligible(s);
      var q :| q in woken;
      NotifyReachesOwner(s, p);
      NotifyReachesOwner(s, q);
    }
  }

  lemma ForgottenWasForgotten<T>(s: State<T>, a: Action<T>, p: nat)
    requires BoundInv(s) && |s.producers| <= |s.slots| + 1 && Enabled(s, a)
    requires SlotInv(Step(s, a)) && p < |s.producers| && Forgotten(Step(s, a), p)
    ensures Forgotten(s, p)
  {
    match a
    case BeginPush(_, _) =>
    case SpuriousWake(_) =>
    case ProducerStep(q) => ProducerForgetsNobody(s, q, p);
    case ConsumerStep(woken, left) =>
      if s.consumer.CNotify? {
        NotifyForgetsNobody(s, woken, left, p);
      } else {
        ConsumerForgetsNobody(s, woken, left, p);
      }
  }

  /** A step never loses a wake-up when there are at most `B + 1` producers. */
  lemma StepKeepsWakeups<T>(s: State<T>, a: Action<T>)
    requires BoundInv(s) && |s.producers| <= |s.slots| + 1 && NoLostWakeup(s) && Enabled(s, a)
    ensures NoLostWakeup(Step(s, a))
  {
    var s' := Step(s, a);
    StepKeepsSlotInv(s, a);
    forall p: nat | p < |s'.producers| ensures !Forgotten(s', p) {
      if Forgotten(s', p) {
        ForgottenWasForgotten(s, a, p);
      }
    }
  }

  /** Few enough producers, and no wake-up lost. */
  ghost predicate WakeInv<T>(s: State<T>) {
    BoundInv(s) && |s.producers| <= |s.slots| + 1 && NoLostWakeup(s)
  }

  /** No wake-up is ever lost with at most `B + 1` producers. */
  lemma {:induction false} RunKeepsWakeups<T>(s: State<T>, actions: seq<Action<T>>)
    requires WakeInv(s) && Feasible(s, actions)
    ensures WakeInv(Run(s, actions)) && s.head <= Run(s, actions).head
    decreases |actions|
  {
    if actions != [] {
      StepKeepsBounds(s, actions[0]);
      StepKeepsWakeups(s, actions[0]);
      RunKeepsWakeups(Step(s, actions[0]), actions[1..]);
    }
  }

  // ---------------------------------------------------------------- a lost wake-up is final

  lemma ProducerKeepsForgotten<T>(s: State<T>, q: nat, p: nat)
    requires SlotInv(s) && p < |s.producers| && Forgotten(s, p) && Enabled(s, ProducerStep(q))
    ensures StepProducer(s, q).producers[p] == s.producers[p]
    ensures Forgotten(StepProducer(s, q), p)
  {
    assert ProducerInv(s, p);
    TurnNotBeyond(s, p);
    ProducerTurnFrame(s, q);
    if s.producers[q].PPublish? {
      assert ProducerInv(s, q);
    }
  }

  lemma ConsumerKeepsForgotten<T>(s: State<T>, woken: set<nat>, left: T, p: nat)
    requires SlotInv(s) && p < |s.producers| && Forgotten(s, p)
    requires Enabled(s, ConsumerStep(woken, left))
    ensures StepConsumer(s, woken, left).producers[p] == s.producers[p]
    ensures Forgotten(StepConsumer(s, woken, left), p)
  {
    assert ProducerInv(s, p);
    TurnNotBeyond(s, p);
    ConsumerTurnFrame(s, woken, left);
    if s.consumer.CNotify? && p in Eligible(s) {
      SameSlotApart(s.tail, s.producers[p].pos, |s.slots|);
    }
  }

  lemma StepKeepsForgotten<T>(s: State<T>, a: Action<T>, p: nat)
    requires SlotInv(s) && p < |s.producers| && Forgotten(s, p)
    requires Enabled(s, a) && a != SpuriousWake(p)
    ensures Step(s, a).producers[p] == s.producers[p]
    ensures Forgotten(Step(s, a), p)
  {
    match a
    case BeginPush(_, _) =>
    case SpuriousWake(_) =>
    case ProducerStep(q) => ProducerKeepsForgotten(s, q, p);
    case ConsumerStep(woken, left) => ConsumerKeepsForgotten(s, woken, left, p);
  }

  /** The schedule never wakes `p` spuriously. */
  ghost predicate NeverSpurious<T>(actions: seq<Action<T>>, p: nat) {
    forall i | 0 <= i < |actions| :: actions[i] != SpuriousWake(p)
  }

  /** Once forgotten, a producer sleeps on whatever everybody else does, and the consumer
      never gets past its ticket: that item and all later ones are never delivered. */
  lemma {:induction false} ForgottenForever<T>(s: State<T>, p: nat, actions: seq<Action<T>>)
    requires SlotInv(s) && p < |s.producers| && Forgotten(s, p)
    requires Feasible(s, actions) && NeverSpurious(actions, p)
    ensures var t := Run(s, actions);
      && p < |t.producers| && t.producers[p] == s.producers[p] && |t.slots| > 0
      && Forgotten(t, p)
      && t.tail <= s.producers[p].pos
    decreases |actions|
  {
    assert ProducerInv(s, p);
    if actions != [] {
      StepKeepsForgotten(s, actions[0], p);
      StepKeepsSlotInv(s, actions[0]);
      ForgottenForever(Step(s, actions[0]), p, actions[1..]);
    }
  }

  // ---------------------------------------------------------------- progress

  /** How many steps of its own a producer whose turn has come is from publishing. */
  function Remaining<T>(q: Producer<T>): nat {
    match q
    case PWait(_, _, _) => 4
    case PLoadTurn(_, _) => 3
    case PWrite(_, _) => 2
    case PPublish(_, _) => 1
    case _ => 0
  }

  /** The slot shows `p`'s ticket and `p` is awake. */
  ghost predicate TurnHasCome<T>(s: State<T>, p: nat) {
    && |s.slots| > 0 && p < |s.producers|
    && Holds(s.producers[p]) && !s.producers[p].PParked?
    && TurnAt(s, s.producers[p].pos) == s.producers[p].pos
  }

  /** From `s` to `s'`, `p` has published and its push has returned, or it is still awake at
      its turn, one step closer if the step was its own. */
  ghost predicate CountedDown<T>(s: State<T>, p: nat, own: bool, s': State<T>)
    requires TurnHasCome(s, p)
  {
    var q := s.producers[p];
    if own && q.PPublish? then s'.calls == s.calls + [Push(p, q.item, true)]
    else && TurnHasCome(s', p)
         && s'.producers[p].item == q.item
         && (if own then Remaining(s'.producers[p]) == Remaining(q) - 1 else s'.producers[p] == q)
  }

  lemma ProducerCountsDown<T>(s: State<T>, p: nat, q: nat)
    requires SlotInv(s) && TurnHasCome(s, p) && Enabled(s, ProducerStep(q))
    ensures CountedDown(s, p, q == p, StepProducer(s, q))
  {
    assert ProducerInv(s, p);
    TurnNotBeyond(s, p);
    ProducerTurnFrame(s, q);
    if s.producers[q].PPublish? {
      assert ProducerInv(s, q);
    }
  }

  lemma ConsumerCountsDown<T>(s: State<T>, p: nat, woken: set<nat>, left: T)
    requires SlotInv(s) && TurnHasCome(s, p) && Enabled(s, ConsumerStep(woken, left))
    ensures CountedDown(s, p, false, StepConsumer(s, woken, left))
  {
    assert ProducerInv(s, p);
    TurnNotBeyond(s, p);
    ConsumerTurnFrame(s, woken, left);
  }

  /** Its own next step is enabled and takes `p` closer to publishing, the last one publishes
      and completes the push; nobody else's step takes it back. */
  lemma TurnCountsDown<T>(s: State<T>, p: nat, a: Action<T>)
    requires SlotInv(s) && TurnHasCome(s, p) && Enabled(s, a)
    ensures Enabled(s, ProducerStep(p))
    ensures CountedDown(s, p, a == ProducerStep(p), Step(s, a))
  {
    match a
    case BeginPush(_, _) =>
    case SpuriousWake(_) =>
    case ProducerStep(q) => ProducerCountsDown(s, p, q);
    case ConsumerStep(woken, left) => ConsumerCountsDown(s, p, woken, left);
  }

  function OwnSteps<T>(actions: seq<Action<T>>, p: nat): nat {
    if actions == [] then 0
    else OwnSteps(actions[1..], p) + (if actions[0].ProducerStep? && actions[0].p == p then 1 else 0)
  }

  /** The push of `item` by `p` completed between the histories `was` and `now`. */
  ghost predicate PushCompleted<T>(was: seq<Call<T>>, now: seq<Call<T>>, p: nat, item: T) {
    was < now && exists i :: |was| <= i < |now| && now[i] == Push(p, item, true)
  }

  lemma {:induction false} CallsGrow<T>(s: State<T>, actions: seq<Action<T>>)
    requires Feasible(s, actions)
    ensures s.calls <= Run(s, actions).calls
    decreases |actions|
  {
    if actions != [] {
      CallsGrow(Step(s, actions[0]), actions[1..]);
    }
  }

  /** A producer whose turn has come completes its push within four steps of its own,
      however the other threads interleave with them. */
  lemma {:induction false} PublishesWithin<T>(s: State<T>, p: nat, actions: seq<Action<T>>)
    requires SlotInv(s) && TurnHasCome(s, p) && Feasible(s, actions)
    requires OwnSteps(actions, p) >= Remaining(s.producers[p])
    ensures PushCompleted(s.calls, Run(s, actions).calls, p, s.producers[p].item)
    decreases |actions|
  {
    var a := actions[0];
    var s' := Step(s, a);
    TurnCountsDown(s, p, a);
    if a == ProducerStep(p) && s.producers[p].PPublish? {
      CallsGrow(s', actions[1..]);
      assert Run(s, actions).calls[|s.calls|] == s'.calls[|s.calls|];
    } else {
      StepKeepsSlotInv(s, a);
      PublishesWithin(s', p, actions[1..]);
      assert s.calls <= s'.calls;
    }
  }

  /** How many steps of its own the consumer is from returning the item at the tail. */
  function StepsToReturn<T>(c: Consumer<T>): nat {
    match c
    case CIdle => 6
    case CLoadTurn(_) => 5
    case CTake(_) => 4
    case CFree(_, _) => 3
    case CNotify(_, _) => 2
    case CAdvance(_, _) => 1
  }

  /** The item at the tail is published, or already on its way out. */
  ghost predicate Deliverable<T>(s: State<T>) {
    && SlotInv(s)
    && s.tail < s.head
    && (s.consumer.CIdle? || s.consumer.CLoadTurn? ==> TurnAt(s, s.tail) == s.tail + 1)
  }

  lemma ProducerKeepsDeliverable<T>(s: State<T>, p: nat)
    requires Deliverable(s) && Enabled(s, ProducerStep(p))
    ensures Deliverable(StepProducer(s, p))
  {
    StepKeepsSlotInv(s, ProducerStep(p));
    ProducerTurnFrame(s, p);
    assert ProducerInv(s, p);
    if Freed(s) == s.tail {
      assert InWindow(s, s.tail);
    }
  }

  /** From `s` to `s'`, the item at the tail has been returned, or it is still deliverable,
      one step closer if the step was the consumer's. */
  ghost predicate DeliveryAdvances<T>(s: State<T>, own: bool, s': State<T>)
    requires Deliverable(s)
  {
    var item := s.issued[s.tail].item;
    if own && s.consumer.CAdvance? then s'.tail == s.tail + 1 && s'.calls == s.calls + [Pop(Some(item))]
    else && Deliverable(s') && s'.tail == s.tail && s'.issued[s.tail].item == item
         && StepsToReturn(s'.consumer) == StepsToReturn(s.consumer) - (if own then 1 else 0)
  }

  lemma DeliveryStep<T>(s: State<T>, a: Action<T>)
    requires Deliverable(s) && Enabled(s, a)
    ensures DeliveryAdvances(s, a.ConsumerStep?, Step(s, a))
  {
    StepKeepsSlotInv(s, a);
    if a.ProducerStep? {
      ProducerKeepsDeliverable(s, a.p);
    }
  }

  function ConsumerSteps<T>(actions: seq<Action<T>>): nat {
    if actions == [] then 0
    else ConsumerSteps(actions[1..]) + (if actions[0].ConsumerStep? then 1 else 0)
  }

  ghost predicate PopCompleted<T>(was: seq<Call<T>>, now: seq<Call<T>>, item: T) {
    was < now && exists i :: |was| <= i < |now| && now[i] == Pop(Some(item))
  }

  lemma {:induction false} TailGrows<T>(s: State<T>, actions: seq<Action<T>>)
    requires SlotInv(s) && Feasible(s, actions)
    ensures s.tail <= Run(s, actions).tail
    decreases |actions|
  {
    if actions != [] {
      StepKeepsSlotInv(s, actions[0]);
      TailGrows(Step(s, actions[0]), actions[1..]);
    }
  }

  /** A published item is returned within six steps of the consumer, however the producers
      interleave with them, and the tail moves past it. */
  lemma {:induction false} DeliversWithin<T>(s: State<T>, actions: seq<Action<T>>)
    requires Deliverable(s) && Feasible(s, actions)
    requires ConsumerSteps(actions) >= StepsToReturn(s.consumer)
    ensures PopCompleted(s.calls, Run(s, actions).calls, s.issued[s.tail].item)
    ensures s.tail < Run(s, actions).tail
    decreases |actions|
  {
    var a := actions[0];
    var s' := Step(s, a);
    DeliveryStep(s, a);
    CallsGrow(s', actions[1..]);
    if a.ConsumerStep? && s.consumer.CAdvance? {
      StepKeepsSlotInv(s, a);
      TailGrows(s', actions[1..]);
      assert Run(s, actions).calls[|s.calls|] == s'.calls[|s.calls|];
    } else {
      DeliversWithin(s', actions[1..]);
    }
  }

  // ---------------------------------------------------------------- every ticket is delivered

  /** The owner of the ticket at the tail is awake at its turn, and the consumer between calls
      or about to look at that slot. */
  ghost predicate OwnersTurn<T>(s: State<T>) {
    && SlotInv(s)
    && s.tail < s.head
    && (s.consumer.CIdle? || s.consumer.CLoadTurn?)
    && var p := s.issued[s.tail].owner;
       TurnHasCome(s, p) && s.producers[p].pos == s.tail
  }

  /** With no wake-up lost, whenever a ticket is outstanding the item at the tail can be
      delivered, or its owner is awake at its turn. */
  lemma TailCanMove<T>(s: State<T>)
    requires SlotInv(s) && NoLostWakeup(s) && s.tail < s.head
    ensures Deliverable(s) || OwnersTurn(s)
  {
    if s.consumer.CIdle? || s.consumer.CLoadTurn? {
      assert InWindow(s, s.tail);
      assert Held(s, s.tail) || Published(s, s.tail);
      if Held(s, s.tail) {
        var p := s.issued[s.tail].owner;
        assert ProducerInv(s, p);
        assert !Forgotten(s, p);
      }
    }
  }

  lemma ReachedInvariants<T>(bufSize: nat, producers: nat, initial: T, actions: seq<Action<T>>)
    requires 2 <= bufSize && producers <= bufSize + 1 && bufSize + producers <= WORD
    requires Feasible(Init(bufSize, producers, initial), actions)
    ensures WakeInv(Run(Init(bufSize, producers, initial), actions))
  {
    var s0 := Init(bufSize, producers, initial);
    BoundInvInit(bufSize, producers, initial);
    RunKeepsWakeups(s0, actions);
  }

  /** No reachable state of a ring with at most `B + 1` producers is stuck: whenever a ticket is
      outstanding, the item at the tail can be delivered or its owner is awake at its turn. */
  lemma NeverStuck<T>(bufSize: nat, producers: nat, initial: T, actions: seq<Action<T>>)
    requires 2 <= bufSize && producers <= bufSize + 1 && bufSize + producers <= WORD
    requires Feasible(Init(bufSize, producers, initial), actions)
    ensures var s := Run(Init(bufSize, producers, initial), actions);
      s.tail < s.head ==> Deliverable(s) || OwnersTurn(s)
  {
    ReachedInvariants(bufSize, producers, initial, actions);
    var s := Run(Init(bufSize, producers, initial), actions);
    if s.tail < s.head {
      TailCanMove(s);
    }
  }

  /** One more step, and the owner is one step closer if it was its own; its last step makes
      the item deliverable. */
  lemma OwnersTurnStep<T>(s: State<T>, a: Action<T>)
    requires OwnersTurn(s) && Enabled(s, a)
    ensures var p := s.issued[s.tail].owner;
      var s' := Step(s, a);
      && s'.tail == s.tail && s.issued <= s'.issued
      && if a == ProducerStep(p) && s.producers[p].PPublish? then Deliverable(s')
         else && OwnersTurn(s')
              && Remaining(s'.producers[p]) == Remaining(s.producers[p]) - (if a == ProducerStep(p) then 1 else 0)
  {
    StepKeepsSlotInv(s, a);
    TurnCountsDown(s, s.issued[s.tail].owner, a);
  }

  /** Enough steps of the owner make the item at the tail deliverable, if the consumer has not
      taken it already. */
  lemma {:induction false} TailIsPublished<T>(s: State<T>, actions: seq<Action<T>>)
    requires Deliverable(s) || OwnersTurn(s)
    requires Feasible(s, actions)
    requires !Deliverable(s) ==>
               OwnSteps(actions, s.issued[s.tail].owner) >= Remaining(s.producers[s.issued[s.tail].owner])
    ensures var t := Run(s, actions); s.tail < t.tail || (s.tail == t.tail && Deliverable(t))
    decreases |actions|
  {
    if actions != [] {
      var a := actions[0];
      var s' := Step(s, a);
      StepKeepsSlotInv(s, a);
      TailGrows(s', actions[1..]);
      if Deliverable(s) {
        DeliveryStep(s, a);
      } else {
        OwnersTurnStep(s, a);
      }
      if s'.tail == s.tail {
        TailIsPublished(s', actions[1..]);
      }
    }
  }

  /** A stretch of a schedule: first `work`, then `polls`. */
  datatype Round<T> = Round(work: seq<Action<T>>, polls: seq<Action<T>>)

  /** In `work` the owner of the ticket at the tail takes the steps, at most four, that it is
      from publishing it; in `polls` the consumer takes six. Everybody else does whatever they
      like in between. */
  ghost predicate IsFair<T>(s: State<T>, r: Round<T>) {
    && Feasible(s, r.work) && Feasible(Run(s, r.work), r.polls)
    && (OwnersTurn(s) ==>
          OwnSteps(r.work, s.issued[s.tail].owner) >= Remaining(s.producers[s.issued[s.tail].owner]))
    && ConsumerSteps(r.polls) >= 6
  }

  ghost predicate NoneSpurious<T>(actions: seq<Action<T>>) {
    forall i | 0 <= i < |actions| :: !actions[i].SpuriousWake?
  }

  lemma {:induction false} OwnerCanRun<T>(s: State<T>, p: nat) returns (actions: seq<Action<T>>)
    requires SlotInv(s) && TurnHasCome(s, p)
    ensures Feasible(s, actions) && OwnSteps(actions, p) == Remaining(s.producers[p])
    ensures NoneSpurious(actions)
    decreases Remaining(s.producers[p])
  {
    var a := Action<T>.ProducerStep(p);
    TurnCountsDown(s, p, a);
    StepKeepsSlotInv(s, a);
    var rest := [];
    if !s.producers[p].PPublish? {
      rest := OwnerCanRun(Step(s, a), p);
    }
    actions := [a] + rest;
    assert actions[1..] == rest;
  }

  lemma {:induction false} ConsumerCanRun<T>(s: State<T>, n: nat) returns (actions: seq<Action<T>>)
    requires |s.slots| > 0
    ensures Feasible(s, actions) && ConsumerSteps(actions) == n
    ensures NoneSpurious(actions)
    decreases n
  {
    actions := [];
    if n > 0 {
      var a := ConsumerStep(if s.consumer.CNotify? then Eligible(s) else {}, DataAt(s, 0));
      var rest := ConsumerCanRun(Step(s, a), n - 1);
      actions := [a] + rest;
      assert actions[1..] == rest;
    }
  }

  /** A fair round can always be run, without spurious wake-ups: nobody has to wait for a step
      that is not enabled. */
  lemma FairRoundExists<T>(s: State<T>) returns (r: Round<T>)
    requires SlotInv(s)
    ensures IsFair(s, r)
    ensures NoneSpurious(r.work) && NoneSpurious(r.polls)
  {
    var work: seq<Action<T>> := [];
    if OwnersTurn(s) {
      work := OwnerCanRun(s, s.issued[s.tail].owner);
    }
    RunKeepsSlotInv(s, work);
    var polls := ConsumerCanRun(Run(s, work), 6);
    r := Round(work, polls);
  }

  ghost function AfterRound<T>(s: State<T>, r: Round<T>): State<T>
    requires IsFair(s, r)
  {
    Run(Run(s, r.work), r.polls)
  }

  ghost predicate AllFair<T>(s: State<T>, rounds: seq<Round<T>>)
    decreases |rounds|
  {
    rounds == [] || (IsFair(s, rounds[0]) && AllFair(AfterRound(s, rounds[0]), rounds[1..]))
  }

  ghost function AfterRounds<T>(s: State<T>, rounds: seq<Round<T>>): State<T>
    requires AllFair(s, rounds)
    decreases |rounds|
  {
    if rounds == [] then s else AfterRounds(AfterRound(s, rounds[0]), rounds[1..])
  }

  /** A fair round takes the tail past at least one ticket. */
  lemma RoundMovesTail<T>(s: State<T>, r: Round<T>)
    requires WakeInv(s) && IsFair(s, r)
    ensures var t := AfterRound(s, r);
      WakeInv(t) && s.head <= t.head && s.tail <= t.tail && (s.tail < s.head ==> s.tail < t.tail)
  {
    var u := Run(s, r.work);
    RunKeepsWakeups(s, r.work);
    RunKeepsWakeups(u, r.polls);
    TailGrows(s, r.work);
    TailGrows(u, r.polls);
    if s.tail < s.head {
      TailCanMove(s);
      TailIsPublished(s, r.work);
      if u.tail == s.tail {
        DeliversWithin(u, r.polls);
      }
    }
  }

  /** With `n` tickets ahead of it, a ticket is delivered within `n + 1` fair rounds. */
  lemma {:induction false} DeliveredWithinRounds<T>(s: State<T>, k: nat, rounds: seq<Round<T>>)
    requires WakeInv(s) && k < s.head
    requires AllFair(s, rounds) && k < s.tail + |rounds|
    ensures k < AfterRounds(s, rounds).tail
    decreases |rounds|
  {
    if rounds != [] {
      var t := AfterRound(s, rounds[0]);
      RoundMovesTail(s, rounds[0]);
      DeliveredWithinRounds(t, k, rounds[1..]);
    }
  }
}
