/** How far the tickets can run ahead of the consumer. The size check and the `fetch_add`
    are separate accesses, so the ring can overshoot its capacity; these are the exact
    consequences of what the check still guarantees. */
module MpscBounds {
  import opened Words
  import opened MpscProtocol
  import opened MpscSlots

  /** The threads and slots together stay below the 64-bit range. */
  predicate Fits<T>(s: State<T>) {
    |s.slots| + |s.producers| <= WORD
  }

  /** All tickets issued to `p` so far lie below `h`. */
  predicate TicketsBelow<T>(s: State<T>, p: nat, h: nat) {
    forall k: nat | k < |s.issued| && s.issued[k].owner == p :: k < h
  }

  /** `p` loaded a head that was above all its own tickets, and the check it passed bounds
      that head. */
  predicate SampleInv<T>(s: State<T>, p: nat)
    requires p < |s.producers|
  {
    var q := s.producers[p];
    && (q.PLoadTail? || q.PFetchAdd? ==> q.h <= s.head && TicketsBelow(s, p, q.h))
    && (q.PFetchAdd? ==> q.h < s.tail + |s.slots|)
    && (q.PWait? || q.PParked? ==> q.pos < q.seen + |s.slots| + |s.producers|)
  }

  /** From `tail + B - 1` on, no producer owns two tickets. */
  predicate OwnersDistinct<T>(s: State<T>) {
    forall j: nat, k: nat | s.tail + |s.slots| <= j + 1 && j < k < |s.issued| ::
      s.issued[j].owner != s.issued[k].owner
  }

  ghost predicate BoundInv<T>(s: State<T>) {
    && SlotInv(s)
    && Fits(s)
    && (forall k: nat | k < |s.issued| :: s.issued[k].owner < |s.producers|)
    && (forall p: nat | p < |s.producers| :: SampleInv(s, p))
    && OwnersDistinct(s)
  }

  // ---------------------------------------------------------------- pigeonhole

  /** The numbers below `n`. */
  ghost function Below(n: nat): (r: set<nat>)
    ensures |r| == n
    ensures forall i: nat :: i in r <==> i < n
  {
    if n == 0 then {} else Below(n - 1) + {n - 1}
  }

  lemma {:induction false} SubsetSize(a: set<nat>, b: set<nat>)
    requires a <= b
    ensures |a| <= |b|
  {
    if a != {} {
      var x :| x in a;
      SubsetSize(a - {x}, b - {x});
    }
  }

  lemma {:induction false} Pigeonhole(owners: seq<nat>, n: nat) returns (used: set<nat>)
    requires forall i | 0 <= i < |owners| :: owners[i] < n
    requires forall i, j | 0 <= i < j < |owners| :: owners[i] != owners[j]
    ensures used == set i | 0 <= i < |owners| :: owners[i]
    ensures |used| == |owners| <= n
  {
    if owners == [] {
      used := {};
    } else {
      var last := |owners| - 1;
      var before := Pigeonhole(owners[..last], n);
      used := before + {owners[last]};
      assert owners[last] !in before;
    }
    SubsetSize(used, Below(n));
  }

  /** The overshoot bound: at most `B + P - 1` tickets are ever outstanding. */
  lemma OvershootBound<T>(s: State<T>)
    requires BoundInv(s)
    ensures s.head <= s.tail + |s.slots| + |s.producers| - 1 || |s.producers| == 0
    ensures s.head <= s.tail + |s.slots| + |s.producers|
  {
    var first := s.tail + |s.slots| - 1;
    if first < s.head {
      var owners := seq(s.head - first, i requires 0 <= i < s.head - first => s.issued[first + i].owner);
      var _ := Pigeonhole(owners, |s.producers|);
    }
  }

  // ---------------------------------------------------------------- preservation

  lemma BoundInvInit<T>(bufSize: nat, producers: nat, initial: T)
    requires bufSize >= 2 && bufSize + producers <= WORD
    ensures BoundInv(Init(bufSize, producers, initial))
  {
  }

  lemma FetchAddKeepsBounds<T>(s: State<T>, p: nat)
    requires BoundInv(s) && p < |s.producers| && s.producers[p].PFetchAdd?
    ensures BoundInv(StepProducer(s, p))
  {
    var s' := StepProducer(s, p);
    StepKeepsSlotInv(s, ProducerStep(p));
    assert SampleInv(s, p);
    forall q: nat | q < |s'.producers| ensures SampleInv(s', q) {
      assert SampleInv(s, q);
    }
  }

  lemma LoadTailKeepsBounds<T>(s: State<T>, p: nat)
    requires BoundInv(s) && p < |s.producers| && s.producers[p].PLoadTail?
    ensures BoundInv(StepProducer(s, p))
  {
    var s' := StepProducer(s, p);
    StepKeepsSlotInv(s, ProducerStep(p));
    assert SampleInv(s, p);
    OvershootBound(s);
    if s.tail <= s.producers[p].h {
      assert Wrap(s.producers[p].h - s.tail) == s.producers[p].h - s.tail;
    }
    forall q: nat | q < |s'.producers| ensures SampleInv(s', q) {
      assert SampleInv(s, q);
    }
  }

  lemma LoadTurnKeepsBounds<T>(s: State<T>, p: nat)
    requires BoundInv(s) && p < |s.producers| && s.producers[p].PLoadTurn?
    ensures BoundInv(StepProducer(s, p))
  {
    var s' := StepProducer(s, p);
    StepKeepsSlotInv(s, ProducerStep(p));
    assert ProducerInv(s, p);
    OvershootBound(s);
    TurnNotBeyond(s, p);
    forall q: nat | q < |s'.producers| ensures SampleInv(s', q) {
      assert SampleInv(s, q);
    }
  }

  lemma ProducerKeepsBounds<T>(s: State<T>, p: nat)
    requires BoundInv(s) && Enabled(s, ProducerStep(p))
    ensures BoundInv(StepProducer(s, p))
  {
    if s.producers[p].PFetchAdd? {
      FetchAddKeepsBounds(s, p);
    } else if s.producers[p].PLoadTail? {
      LoadTailKeepsBounds(s, p);
    } else if s.producers[p].PLoadTurn? {
      LoadTurnKeepsBounds(s, p);
    } else {
      var s' := StepProducer(s, p);
      StepKeepsSlotInv(s, ProducerStep(p));
      forall q: nat | q < |s'.producers| ensures SampleInv(s', q) {
        assert SampleInv(s, q);
      }
    }
  }

  lemma StepKeepsBounds<T>(s: State<T>, a: Action<T>)
    requires BoundInv(s) && Enabled(s, a)
    ensures BoundInv(Step(s, a))
  {
    if a.ProducerStep? {
      ProducerKeepsBounds(s, a.p);
    } else {
      var s' := Step(s, a);
      StepKeepsSlotInv(s, a);
      forall q: nat | q < |s'.producers| ensures SampleInv(s', q) {
        assert SampleInv(s, q);
      }
    }
  }

  lemma {:induction false} RunKeepsBounds<T>(s: State<T>, actions: seq<Action<T>>)
    requires BoundInv(s) && Feasible(s, actions)
    ensures BoundInv(Run(s, actions))
    ensures |Run(s, actions).slots| == |s.slots| && |Run(s, actions).producers| == |s.producers|
    decreases |actions|
  {
    if actions != [] {
      StepKeepsBounds(s, actions[0]);
      RunKeepsBounds(Step(s, actions[0]), actions[1..]);
    }
  }

  /** Overshoot in every reachable state of a ring of `bufSize` slots and any number of
      producers. */
  lemma ReachableOvershootBound<T>(bufSize: nat, producers: nat, initial: T, actions: seq<Action<T>>)
    requires bufSize >= 2 && 1 <= producers && bufSize + producers <= WORD
    requires Feasible(Init(bufSize, producers, initial), actions)
    ensures var s := Run(Init(bufSize, producers, initial), actions);
      s.tail <= s.head <= s.tail + bufSize + producers - 1
  {
    BoundInvInit(bufSize, producers, initial);
    RunKeepsBounds(Init(bufSize, producers, initial), actions);
    OvershootBound(Run(Init(bufSize, producers, initial), actions));
  }

  // ---------------------------------------------------------------- refused pushes

  /** At least a ring of tickets is out that the consumer has not moved past. */
  predicate Full<T>(s: State<T>) {
    s.head >= s.tail + |s.slots|
  }

  /** `p` is at the size check and about to be refused. */
  ghost predicate Refused<T>(s: State<T>, p: nat)
    requires |s.slots| > 0 && p < |s.producers| && s.producers[p].PLoadTail?
  {
    StepProducer(s, p).producers[p].PIdle?
  }

  lemma WrapOfNegative(gap: int, b: nat)
    requires 0 < b < WORD
    ensures Wrap(-gap) >= b <==> 0 < Wrap(gap) <= WORD - b
  {
    assert Wrap(-gap) == if Wrap(gap) == 0 then 0 else WORD - Wrap(gap);
  }

  /** The size check refuses a push in exactly two cases: the loaded head is a full ring
      ahead of the tail, or the consumer has moved past the loaded head meanwhile and the
      unsigned difference wrapped. In the first case the ring is full at that moment; in the
      second it may even be empty. */
  lemma RefusalExplained<T>(s: State<T>, p: nat)
    requires BoundInv(s) && p < |s.producers| && s.producers[p].PLoadTail?
    requires |s.slots| < WORD
    ensures var h := s.producers[p].h;
      && (Refused(s, p) <==>
            s.tail + |s.slots| <= h || (h < s.tail && 0 < Wrap(s.tail - h) <= WORD - |s.slots|))
      && (s.tail + |s.slots| <= h ==> Full(s))
  {
    OvershootBound(s);
    assert SampleInv(s, p);
    var h := s.producers[p].h;
    if h < s.tail {
      WrapOfNegative(s.tail - h, |s.slots|);
    }
  }
}
