/** The runs the comments in the source rule out - a push refused by an empty ring, a push let
    through by a full one, a wake-up that reaches the wrong waiter - and the exact numbers of
    producers that exclude them. */
module MpscStall {
  import opened Words
  import opened MpscProtocol
  import opened MpscSlots
  import opened MpscBounds
  import opened MpscWakeups

  lemma ProducerMoves<T(!new)>(s0: State<T>, s: State<T>, p: nat) returns (t: State<T>)
    requires Reaches(s0, s) && Enabled(s, ProducerStep(p))
    ensures t == StepProducer(s, p) && Reaches(s0, t)
  {
    ReachesStep(s0, s, ProducerStep(p));
    t := Step(s, ProducerStep(p));
  }

  /** Producer 0 passes the size check and draws a ticket while everybody else stands still. */
  lemma DrawAlone<T(!new)>(s0: State<T>, s: State<T>, x: T) returns (t: State<T>)
    requires Reaches(s0, s) && 0 < |s.slots| < WORD && 0 < |s.producers|
    requires s.producers[0].PIdle? && s.tail <= s.head < s.tail + |s.slots|
    ensures Reaches(s0, t)
    ensures t == Set(s, 0, PLoadTurn(x, s.head)).(head := s.head + 1, issued := s.issued + [Ticket(0, x)])
  {
    ReachesStep(s0, s, BeginPush(0, x));
    t := Step(s, BeginPush(0, x));
    t := ProducerMoves(s0, t, 0);
    t := ProducerMoves(s0, t, 0);
  }

  /** Producer 0 pushes `x` from start to end while everybody else stands still. */
  lemma PushAlone<T(!new)>(s0: State<T>, s: State<T>, x: T) returns (t: State<T>)
    requires Reaches(s0, s) && 0 < |s.slots| < WORD && 0 < |s.producers|
    requires s.producers[0].PIdle?
    requires s.tail <= s.head < s.tail + |s.slots| && TurnAt(s, s.head) == s.head
    ensures Reaches(s0, t)
    ensures t == s.(head := s.head + 1,
                    slots := s.slots[SlotOf(s.head, |s.slots|) := Slot(s.head + 1, x)],
                    issued := s.issued + [Ticket(0, x)],
                    calls := s.calls + [Push(0, x, true)])
  {
    t := DrawAlone(s0, s, x);
    t := ProducerMoves(s0, t, 0);
    t := ProducerMoves(s0, t, 0);
    t := ProducerMoves(s0, t, 0);
    assert t.producers == s.producers;
    assert t.slots == s.slots[SlotOf(s.head, |s.slots|) := Slot(s.head + 1, x)];
  }

  lemma ConsumerMoves<T(!new)>(s0: State<T>, s: State<T>, woken: set<nat>, left: T) returns (t: State<T>)
    requires Reaches(s0, s) && Enabled(s, ConsumerStep(woken, left))
    ensures t == StepConsumer(s, woken, left) && Reaches(s0, t)
  {
    ReachesStep(s0, s, ConsumerStep(woken, left));
    t := Step(s, ConsumerStep(woken, left));
  }

  /** The consumer takes the item at the tail and frees its slot, up to the `notify_one`. */
  lemma PopUpToNotify<T(!new)>(s0: State<T>, s: State<T>) returns (t: State<T>)
    requires Reaches(s0, s) && 0 < |s.slots| && s.consumer.CIdle?
    requires TurnAt(s, s.tail) == s.tail + 1
    ensures Reaches(s0, t)
    ensures t == s.(slots := s.slots[SlotOf(s.tail, |s.slots|) := Slot(s.tail + |s.slots|, DataAt(s, s.tail))],
                    consumer := CNotify(s.tail, DataAt(s, s.tail)))
  {
    var left := DataAt(s, s.tail);
    t := ConsumerMoves(s0, s, {}, left);
    t := ConsumerMoves(s0, t, {}, left);
    t := ConsumerMoves(s0, t, {}, left);
    t := ConsumerMoves(s0, t, {}, left);
    assert t.slots == s.slots[SlotOf(s.tail, |s.slots|) := Slot(s.tail + |s.slots|, DataAt(s, s.tail))];
  }

  // ---------------------------------------------------------------- the size check's verdict

  /** A producer that loads the head, and the tail only after the consumer has moved past
      that head, is refused by an empty ring, whatever the ring size. */
  lemma RefusedWhileEmpty<T(!new)>(bufSize: nat, producers: nat, x: T) returns (s: State<T>)
    requires 2 <= bufSize < WORD && producers >= 2
    ensures Reaches(Init(bufSize, producers, x), s)
    ensures |s.slots| == bufSize && |s.producers| == producers
    ensures s.head == s.tail && s.producers[1] == PLoadTail(x, 0)
    ensures StepProducer(s, 1).producers[1].PIdle?
    ensures StepProducer(s, 1).calls == s.calls + [Push(1, x, false)]
  {
    var s0 := Init(bufSize, producers, x);
    ReachesSelf(s0);
    ReachesStep(s0, s0, BeginPush(1, x));
    s := Step(s0, BeginPush(1, x));
    s := PushAlone(s0, s, x);
    s := PopUpToNotify(s0, s);
    s := ConsumerMoves(s0, s, {}, x);
    s := ConsumerMoves(s0, s, {}, x);
  }

  /** Producer 1 has loaded the head at the start; producer 0 has filled `j` slots since. */
  ghost predicate FilledBehind<T>(s: State<T>, b: nat, count: nat, x: T, j: nat) {
    && |s.slots| == b && |s.producers| == count >= 2
    && s.head == j && s.tail == 0
    && (forall i: nat | i < b :: s.slots[i].turn == if i < j then i + 1 else i)
    && s.producers[0].PIdle? && s.producers[1] == PLoadTail(x, 0)
  }

  lemma {:induction false} FillBehind<T(!new)>(b: nat, count: nat, x: T, j: nat) returns (s: State<T>)
    requires 2 <= b < WORD && 2 <= count && j <= b
    ensures Reaches(Init(b, count, x), s) && FilledBehind(s, b, count, x, j)
    decreases j
  {
    var s0 := Init(b, count, x);
    if j == 0 {
      ReachesSelf(s0);
      ReachesStep(s0, s0, BeginPush(1, x));
      s := Step(s0, BeginPush(1, x));
    } else {
      s := FillBehind(b, count, x, j - 1);
      s := PushAlone(s0, s, x);
    }
  }

  /** A sole producer still sees the head it has loaded. */
  predicate HeadsCurrent<T>(s: State<T>) {
    forall p: nat | p < |s.producers| && s.producers[p].PLoadTail? :: s.producers[p].h == s.head
  }

  lemma {:induction false} SoleProducerSeesHead<T>(s: State<T>, actions: seq<Action<T>>)
    requires |s.producers| <= 1 && HeadsCurrent(s) && Feasible(s, actions)
    ensures HeadsCurrent(Run(s, actions))
    decreases |actions|
  {
    if actions != [] {
      SoleProducerSeesHead(Step(s, actions[0]), actions[1..]);
    }
  }

  /** Every producer about to be refused stands before a full ring. */
  ghost predicate RefusedMeansFull<T>(s: State<T>) {
    |s.slots| > 0 && forall p: nat | p < |s.producers| && s.producers[p].PLoadTail? :: Refused(s, p) ==> Full(s)
  }

  /** Every producer at the size check of a full ring is about to be refused. */
  ghost predicate FullMeansRefused<T>(s: State<T>) {
    |s.slots| > 0 && forall p: nat | p < |s.producers| && s.producers[p].PLoadTail? :: Full(s) ==> Refused(s, p)
  }

  lemma SoleVerdictIsExact<T(!new)>(b: nat, count: nat, x: T, s: State<T>)
    requires 2 <= b < WORD && b + count <= WORD && count <= 1 && Reaches(Init(b, count, x), s)
    ensures RefusedMeansFull(s) && FullMeansRefused(s)
  {
    var s0 := Init(b, count, x);
    var actions :| Feasible(s0, actions) && Run(s0, actions) == s;
    BoundInvInit(b, count, x);
    RunKeepsBounds(s0, actions);
    SoleProducerSeesHead(s0, actions);
    forall p: nat | p < |s.producers| && s.producers[p].PLoadTail? ensures Refused(s, p) <==> Full(s) {
      RefusalExplained(s, p);
    }
  }

  /** Exactly when a false from `push` means that the ring is full, and exactly when a full
      ring makes `push` return false: with a single producer. */
  lemma VerdictExactIff<T(!new)>(b: nat, count: nat, x: T)
    requires 2 <= b < WORD && b + count <= WORD
    ensures (forall s: State<T> | Reaches(Init(b, count, x), s) :: RefusedMeansFull(s)) <==> count <= 1
    ensures (forall s: State<T> | Reaches(Init(b, count, x), s) :: FullMeansRefused(s)) <==> count <= 1
  {
    if count <= 1 {
      forall s: State<T> | Reaches(Init(b, count, x), s) ensures RefusedMeansFull(s) && FullMeansRefused(s) {
        SoleVerdictIsExact(b, count, x, s);
      }
    } else {
      var empty := RefusedWhileEmpty(b, count, x);
      assert Refused(empty, 1) && !RefusedMeansFull(empty);
      var full := FillBehind(b, count, x, b);
      assert !Refused(full, 1) && !FullMeansRefused(full);
    }
  }

  // ---------------------------------------------------------------- the lost wake-up

  /** Producers `1..n` have passed the size check with everything still empty. */
  ghost predicate Passed<T>(s: State<T>, b: nat, count: nat, x: T, n: nat) {
    && |s.slots| == b && |s.producers| == count
    && s.head == 0 && s.tail == 0 && s.consumer.CIdle?
    && (forall i: nat | i < b :: s.slots[i].turn == i)
    && (forall p: nat | p < count ::
          s.producers[p] == if 1 <= p <= n then PFetchAdd(x, 0) else PIdle)
  }

  lemma {:induction false} PassCheck<T(!new)>(b: nat, count: nat, x: T, n: nat) returns (s: State<T>)
    requires 2 <= b < WORD && n < count
    ensures Reaches(Init(b, count, x), s) && Passed(s, b, count, x, n)
    decreases n
  {
    var s0 := Init(b, count, x);
    if n == 0 {
      ReachesSelf(s0);
      s := s0;
    } else {
      s := PassCheck(b, count, x, n - 1);
      ReachesStep(s0, s, BeginPush(n, x));
      s := Step(s, BeginPush(n, x));
      s := ProducerMoves(s0, s, n);
    }
  }

  /** Producers `1..m` have passed the check; producer 0 has filled the first `j` slots
      meanwhile. */
  ghost predicate Filled<T>(s: State<T>, b: nat, count: nat, x: T, m: nat, j: nat) {
    && |s.slots| == b && |s.producers| == count
    && s.head == j && s.tail == 0 && s.consumer.CIdle?
    && (forall i: nat | i < b :: s.slots[i].turn == if i < j then i + 1 else i)
    && (forall p: nat | p < count ::
          s.producers[p] == if 1 <= p <= m then PFetchAdd(x, 0) else PIdle)
  }

  lemma {:induction false} FillSlots<T(!new)>(b: nat, count: nat, x: T, m: nat, j: nat) returns (s: State<T>)
    requires 2 <= b < WORD && m < count && j <= b
    ensures Reaches(Init(b, count, x), s) && Filled(s, b, count, x, m, j)
    decreases j
  {
    if j == 0 {
      s := PassCheck(b, count, x, m);
    } else {
      s := FillSlots(b, count, x, m, j - 1);
      s := PushAlone(Init(b, count, x), s, x);
    }
  }

  /** Of those, producers `1..n` have drawn tickets `b..b+n-1`. */
  ghost predicate Ticketed<T>(s: State<T>, b: nat, count: nat, x: T, m: nat, n: nat) {
    && |s.slots| == b && |s.producers| == count
    && s.head == b + n && s.tail == 0 && s.consumer.CIdle?
    && (forall i: nat | i < b :: s.slots[i].turn == i + 1)
    && (forall p: nat | p < count ::
          s.producers[p] == if 1 <= p <= n then PLoadTurn(x, b + p - 1)
                            else if n < p <= m then PFetchAdd(x, 0) else PIdle)
  }

  lemma {:induction false} DrawTickets<T(!new)>(b: nat, count: nat, x: T, m: nat, n: nat) returns (s: State<T>)
    requires 2 <= b < WORD && m < count && n <= m
    ensures Reaches(Init(b, count, x), s) && Ticketed(s, b, count, x, m, n)
    decreases n
  {
    if n == 0 {
      s := FillSlots(b, count, x, m, b);
    } else {
      s := DrawTickets(b, count, x, m, n - 1);
      s := ProducerMoves(Init(b, count, x), s, n);
    }
  }

  /** The overshoot bound is attained: with all slots full, every other producer can still
      hold a ticket. */
  lemma OvershootReachable<T(!new)>(b: nat, count: nat, x: T) returns (s: State<T>)
    requires 2 <= b < WORD && 1 <= count
    ensures Reaches(Init(b, count, x), s)
    ensures s.head == s.tail + b + count - 1
  {
    s := DrawTickets(b, count, x, count - 1, count - 1);
  }

  /** A producer whose slot shows an older turn goes to sleep on it. */
  lemma GoToSleep<T(!new)>(s0: State<T>, s: State<T>, p: nat) returns (t: State<T>)
    requires Reaches(s0, s) && 0 < |s.slots| && p < |s.producers| && s.producers[p].PLoadTurn?
    requires TurnAt(s, s.producers[p].pos) != s.producers[p].pos
    ensures Reaches(s0, t)
    ensures t == Set(s, p, PParked(s.producers[p].item, s.producers[p].pos, TurnAt(s, s.producers[p].pos)))
  {
    t := ProducerMoves(s0, s, p);
    t := ProducerMoves(s0, t, p);
  }

  /** With `b + 2` producers or more, tickets `b` and `2b` can sleep on slot 0 together; the
      `notify_one` meant for ticket `b` may wake the other. */
  lemma LostWakeupReachable<T(!new)>(b: nat, count: nat, x: T) returns (s: State<T>)
    requires 2 <= b < WORD && b + 2 <= count
    ensures Reaches(Init(b, count, x), s)
    ensures |s.slots| == b && |s.producers| == count && Forgotten(s, 1)
  {
    var s0 := Init(b, count, x);
    s := DrawTickets(b, count, x, b + 1, b + 1);
    NextLapSameSlot(0, b);
    NextLapSameSlot(b, b);
    s := GoToSleep(s0, s, 1);
    s := GoToSleep(s0, s, b + 1);
    s := PopUpToNotify(s0, s);
    assert b + 1 in Eligible(s);
    s := ConsumerMoves(s0, s, {b + 1}, x);
  }

  /** The exact condition for the parking protocol to be safe: every reachable state of a
      ring of `b` slots is free of lost wake-ups if and only if there are at most `b + 1`
      producers. */
  lemma NoLostWakeupIff<T(!new)>(b: nat, count: nat, x: T)
    requires 2 <= b && b + count <= WORD
    ensures (forall s: State<T> | Reaches(Init(b, count, x), s) :: NoLostWakeup(s)) <==> count <= b + 1
  {
    var s0 := Init(b, count, x);
    if count <= b + 1 {
      forall s: State<T> | Reaches(s0, s) ensures NoLostWakeup(s) {
        var actions :| Feasible(s0, actions) && Run(s0, actions) == s;
        BoundInvInit(b, count, x);
        RunKeepsWakeups(s0, actions);
      }
    } else {
      var s := LostWakeupReachable(b, count, x);
      assert !NoLostWakeup(s);
    }
  }

  // ---------------------------------------------------------------- delivery

  /** If there are as many fair rounds as tickets up to the outstanding ticket `k`, they take
      the tail past it. */
  ghost predicate Delivers<T>(s: State<T>, k: nat, rounds: seq<Round<T>>) {
    k < s.head && AllFair(s, rounds) && k < s.tail + |rounds| ==> k < AfterRounds(s, rounds).tail
  }

  ghost predicate AlwaysDelivers<T(!new)>(s: State<T>) {
    forall k: nat, rounds: seq<Round<T>> :: Delivers(s, k, rounds)
  }

  /** No number of fair rounds takes the tail past a forgotten producer's ticket. */
  lemma {:induction false} FairButStuck<T>(s: State<T>, p: nat, n: nat) returns (rounds: seq<Round<T>>)
    requires SlotInv(s) && p < |s.producers| && Forgotten(s, p)
    ensures |rounds| == n && AllFair(s, rounds)
    ensures AfterRounds(s, rounds).tail <= s.producers[p].pos
    decreases n
  {
    ForgottenForever(s, p, []);
    rounds := [];
    if n > 0 {
      var r := FairRoundExists(s);
      ForgottenForever(s, p, r.work);
      RunKeepsSlotInv(s, r.work);
      ForgottenForever(Run(s, r.work), p, r.polls);
      RunKeepsSlotInv(Run(s, r.work), r.polls);
      var rest := FairButStuck(AfterRound(s, r), p, n - 1);
      rounds := [r] + rest;
      assert rounds[1..] == rest;
    }
  }

  /** The exact condition for the queue to deliver: in every reachable state of a ring of `b`
      slots every outstanding ticket is delivered by every fair schedule, if and only if there
      are at most `b + 1` producers. */
  lemma DeliveryIff<T(!new)>(b: nat, count: nat, x: T)
    requires 2 <= b && b + count <= WORD
    ensures (forall s: State<T> | Reaches(Init(b, count, x), s) :: AlwaysDelivers(s)) <==> count <= b + 1
  {
    var s0 := Init(b, count, x);
    BoundInvInit(b, count, x);
    if count <= b + 1 {
      forall s: State<T> | Reaches(s0, s) ensures AlwaysDelivers(s) {
        var actions :| Feasible(s0, actions) && Run(s0, actions) == s;
        RunKeepsWakeups(s0, actions);
        forall k: nat, rounds: seq<Round<T>> ensures Delivers(s, k, rounds) {
          if k < s.head && AllFair(s, rounds) && k < s.tail + |rounds| {
            DeliveredWithinRounds(s, k, rounds);
          }
        }
      }
    } else {
      var s := LostWakeupReachable(b, count, x);
      var actions :| Feasible(s0, actions) && Run(s0, actions) == s;
      RunKeepsSlotInv(s0, actions);
      assert ProducerInv(s, 1);
      var k := s.producers[1].pos;
      var rounds := FairButStuck(s, 1, k + 1 - s.tail);
      assert !Delivers(s, k, rounds);
    }
  }
}
