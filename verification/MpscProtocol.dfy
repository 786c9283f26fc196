/** The multi-producer / single-consumer ring as an interleaved step machine: any number of
    producers, one step per atomic access, the plain write and read of a slot as steps of
    their own, and `wait` / `notify_one` as section 31.6 of ISO/IEC 14882:2020 has them.
    Counters are unbounded here; `MpscRing` runs the same steps on 64-bit words. */
module MpscProtocol {
  import opened Options
  import opened Words

  /** `turn` is the slot's sequence number. */
  datatype Slot<T> = Slot(turn: nat, data: T)

  /** Where a producer is in `push`, with the locals it has computed. */
  datatype Producer<T> =
    | PIdle
    | PLoadTail(item: T, h: nat)              // head loaded
    | PFetchAdd(item: T, h: nat)              // not full
    | PLoadTurn(item: T, pos: nat)            // ticket in hand, about to load the slot's turn
    | PWait(item: T, pos: nat, seen: nat)     // turn was `seen`, about to wait on it
    | PParked(item: T, pos: nat, seen: nat)   // blocked in wait(seen)
    | PWrite(item: T, pos: nat)               // the slot is ours
    | PPublish(item: T, pos: nat)             // slot written

  /** Where the consumer is in `pop`. */
  datatype Consumer<T> =
    | CIdle
    | CLoadTurn(pos: nat)                     // tail loaded
    | CTake(pos: nat)                         // an item is there
    | CFree(pos: nat, value: T)               // item moved out
    | CNotify(pos: nat, value: T)             // slot freed
    | CAdvance(pos: nat, value: T)            // waiter notified

  /** A ticket as `fetch_add` hands it out. */
  datatype Ticket<T> = Ticket(owner: nat, item: T)

  /** A completed call of a producer or of the consumer. */
  datatype Call<T> = Push(p: nat, item: T, ok: bool) | Pop(result: Option<T>)

  datatype State<T> = State(
    head: nat, tail: nat, slots: seq<Slot<T>>,
    producers: seq<Producer<T>>, consumer: Consumer<T>,
    issued: seq<Ticket<T>>,         // history: ticket k, for every k < head
    calls: seq<Call<T>>)            // history: completed calls, in completion order

  /** `woken` is the choice `notify_one` makes; `left` is what moving the item out leaves
      behind in the slot. Both matter only at their own step of the consumer. */
  datatype Action<T> =
    | BeginPush(p: nat, item: T)
    | ProducerStep(p: nat)
    | SpuriousWake(p: nat)
    | ConsumerStep(woken: set<nat>, left: T)

  function Init<T>(bufSize: nat, producers: nat, initial: T): State<T> {
    State(0, 0, seq(bufSize, i requires 0 <= i => Slot(i, initial)),
          seq(producers, _ => PIdle), CIdle, [], [])
  }

  /** Does the producer hold a ticket it has not published yet? */
  predicate Holds<T>(p: Producer<T>) {
    p.PLoadTurn? || p.PWait? || p.PParked? || p.PWrite? || p.PPublish?
  }

  /** The turn of the slot that position `k` falls on. */
  function TurnAt<T>(s: State<T>, k: nat): nat
    requires |s.slots| > 0
  {
    s.slots[SlotOf(k, |s.slots|)].turn
  }

  function DataAt<T>(s: State<T>, k: nat): T
    requires |s.slots| > 0
  {
    s.slots[SlotOf(k, |s.slots|)].data
  }

  /** The waiters `notify_one` may unblock: those blocked on the slot just freed that saw a
      value older than the one the consumer has stored there. */
  ghost function Eligible<T>(s: State<T>): set<nat>
    requires |s.slots| > 0 && s.consumer.CNotify?
  {
    var b := |s.slots|;
    var pos := s.consumer.pos;
    set p: nat | p < |s.producers| && s.producers[p].PParked?
                 && SlotOf(s.producers[p].pos, b) == SlotOf(pos, b)
                 && s.producers[p].seen < pos + b
  }

  /** `notify_one` unblocks at least one eligible waiter if there is one. */
  ghost predicate NotifyChoice<T>(s: State<T>, woken: set<nat>)
    requires |s.slots| > 0
  {
    if s.consumer.CNotify? then woken <= Eligible(s) && (Eligible(s) != {} ==> woken != {})
    else woken == {}
  }

  ghost predicate Enabled<T>(s: State<T>, a: Action<T>) {
    && |s.slots| > 0
    && match a
       case BeginPush(p, _) => p < |s.producers| && s.producers[p].PIdle?
       case ProducerStep(p) =>
         p < |s.producers| && !s.producers[p].PIdle? && !s.producers[p].PParked?
       case SpuriousWake(p) => p < |s.producers| && s.producers[p].PParked?
       case ConsumerStep(woken, _) => NotifyChoice(s, woken)
  }

  function Set<T>(s: State<T>, p: nat, q: Producer<T>): State<T>
    requires p < |s.producers|
  {
    s.(producers := s.producers[p := q])
  }

  function Unblocked<T>(p: Producer<T>): Producer<T> {
    if p.PParked? then PWait(p.item, p.pos, p.seen) else p
  }

  function StepProducer<T>(s: State<T>, p: nat): State<T>
    requires |s.slots| > 0 && p < |s.producers|
    requires !s.producers[p].PIdle? && !s.producers[p].PParked?
  {
    var b := |s.slots|;
    match s.producers[p]
    case PLoadTail(item, h) =>
      if Wrap(h - s.tail) >= b
      then Set(s, p, PIdle).(calls := s.calls + [Push(p, item, false)])
      else Set(s, p, PFetchAdd(item, h))
    case PFetchAdd(item, _) =>
      Set(s, p, PLoadTurn(item, s.head)).(head := s.head + 1, issued := s.issued + [Ticket(p, item)])
    case PLoadTurn(item, pos) =>
      Set(s, p, if TurnAt(s, pos) == pos then PWrite(item, pos) else PWait(item, pos, TurnAt(s, pos)))
    case PWait(item, pos, seen) =>
      Set(s, p, if TurnAt(s, pos) == seen then PParked(item, pos, seen) else PLoadTurn(item, pos))
    case PWrite(item, pos) =>
      Set(s, p, PPublish(item, pos)).(slots := s.slots[SlotOf(pos, b) := Slot(TurnAt(s, pos), item)])
    case PPublish(item, pos) =>
      Set(s, p, PIdle).(slots := s.slots[SlotOf(pos, b) := Slot(pos + 1, DataAt(s, pos))],
                        calls := s.calls + [Push(p, item, true)])
  }

  function StepConsumer<T>(s: State<T>, woken: set<nat>, left: T): State<T>
    requires |s.slots| > 0
  {
    var b := |s.slots|;
    match s.consumer
    case CIdle => s.(consumer := CLoadTurn(s.tail))
    case CLoadTurn(pos) =>
      if TurnAt(s, pos) != pos + 1
      then s.(consumer := CIdle, calls := s.calls + [Pop(None)])
      else s.(consumer := CTake(pos))
    case CTake(pos) =>
      s.(slots := s.slots[SlotOf(pos, b) := Slot(TurnAt(s, pos), left)],
         consumer := CFree(pos, DataAt(s, pos)))
    case CFree(pos, value) =>
      s.(slots := s.slots[SlotOf(pos, b) := Slot(pos + b, DataAt(s, pos))],
         consumer := CNotify(pos, value))
    case CNotify(pos, value) =>
      s.(producers := seq(|s.producers|, p requires 0 <= p < |s.producers| =>
                            if p in woken then Unblocked(s.producers[p]) else s.producers[p]),
         consumer := CAdvance(pos, value))
    case CAdvance(pos, value) =>
      s.(tail := pos + 1, consumer := CIdle, calls := s.calls + [Pop(Some(value))])
  }

  ghost function Step<T>(s: State<T>, a: Action<T>): State<T>
    requires Enabled(s, a)
  {
    match a
    case BeginPush(p, item) => Set(s, p, PLoadTail(item, s.head))
    case ProducerStep(p) => StepProducer(s, p)
    case SpuriousWake(p) => Set(s, p, Unblocked(s.producers[p]))
    case ConsumerStep(woken, left) => StepConsumer(s, woken, left)
  }

  // ---------------------------------------------------------------- runs

  ghost predicate Feasible<T>(s: State<T>, actions: seq<Action<T>>)
    decreases |actions|
  {
    actions == [] || (Enabled(s, actions[0]) && Feasible(Step(s, actions[0]), actions[1..]))
  }

  ghost function Run<T>(s: State<T>, actions: seq<Action<T>>): State<T>
    requires Feasible(s, actions)
    decreases |actions|
  {
    if actions == [] then s else Run(Step(s, actions[0]), actions[1..])
  }

  /** `t` is the state after some schedule from `s`. */
  ghost predicate Reaches<T(!new)>(s: State<T>, t: State<T>) {
    exists actions: seq<Action<T>> :: Feasible(s, actions) && Run(s, actions) == t
  }

  lemma {:induction false} RunConcat<T>(s: State<T>, first: seq<Action<T>>, second: seq<Action<T>>)
    requires Feasible(s, first) && Feasible(Run(s, first), second)
    ensures Feasible(s, first + second)
    ensures Run(s, first + second) == Run(Run(s, first), second)
    decreases |first|
  {
    if first == [] {
      assert first + second == second;
    } else {
      assert (first + second)[1..] == first[1..] + second;
      RunConcat(Step(s, first[0]), first[1..], second);
    }
  }

  lemma ReachesSelf<T(!new)>(s: State<T>)
    ensures Reaches(s, s)
  {
    assert Feasible(s, []) && Run(s, []) == s;
  }

  lemma ReachesStep<T(!new)>(s: State<T>, t: State<T>, a: Action<T>)
    requires Reaches(s, t) && Enabled(t, a)
    ensures Reaches(s, Step(t, a))
  {
    var actions :| Feasible(s, actions) && Run(s, actions) == t;
    var u := Step(t, a);
    assert Feasible(u, []) && Run(u, []) == u;
    assert [a][1..] == [];
    assert Feasible(t, [a]) && Run(t, [a]) == Run(u, [a][1..]);
    RunConcat(s, actions, [a]);
  }

  // ---------------------------------------------------------------- one call in a schedule

  /** Whose call it is. */
  datatype Caller = ByProducer(p: nat) | ByConsumer

  predicate Busy<T>(s: State<T>, who: Caller) {
    match who
    case ByProducer(p) => p < |s.producers| && !s.producers[p].PIdle?
    case ByConsumer => !s.consumer.CIdle?
  }

  datatype Outcome<T> = Outcome(state: State<T>, rest: seq<Action<T>>)

  /** Everybody runs as the schedule says until the caller's call has returned; with what is
      left of the schedule then. */
  ghost function UntilReturn<T>(s: State<T>, who: Caller, schedule: seq<Action<T>>): Outcome<T>
    requires Feasible(s, schedule)
    decreases |schedule|
  {
    if schedule == [] || !Busy(s, who) then Outcome(s, schedule)
    else UntilReturn(Step(s, schedule[0]), who, schedule[1..])
  }

  ghost predicate BusyAfter<T>(s: State<T>, who: Caller, actions: seq<Action<T>>) {
    Feasible(s, actions) && Busy(Run(s, actions), who)
  }

  /** From `s` to `t` exactly the part of `schedule` before `rest` has been run: as far as the
      first step after which the caller is between calls, or all of it. */
  ghost predicate RanUntilReturn<T>(
      s: State<T>, who: Caller, schedule: seq<Action<T>>, rest: seq<Action<T>>, t: State<T>)
  {
    |rest| <= |schedule|
    && var n := |schedule| - |rest|;
       && rest == schedule[n..]
       && Feasible(s, schedule[..n]) && t == Run(s, schedule[..n])
       && (forall m | 0 <= m < n :: BusyAfter(s, who, schedule[..m]))
       && (Busy(t, who) ==> rest == [])
  }

  lemma {:induction false} UntilReturnRuns<T>(s: State<T>, who: Caller, schedule: seq<Action<T>>)
    requires Feasible(s, schedule)
    ensures var o := UntilReturn(s, who, schedule); RanUntilReturn(s, who, schedule, o.rest, o.state)
    decreases |schedule|
  {
    if schedule != [] && Busy(s, who) {
      var a, later := schedule[0], schedule[1..];
      UntilReturnRuns(Step(s, a), who, later);
      var n := |schedule| - |UntilReturn(s, who, schedule).rest|;
      forall m: nat | m <= n && m > 0
        ensures Feasible(s, schedule[..m]) == Feasible(Step(s, a), later[..m - 1])
        ensures Feasible(s, schedule[..m]) ==> Run(s, schedule[..m]) == Run(Step(s, a), later[..m - 1])
      {
        assert schedule[..m][1..] == later[..m - 1];
      }
      forall m | 0 <= m < n ensures BusyAfter(s, who, schedule[..m]) {
        if m == 0 {
          assert schedule[..0] == [];
        } else {
          assert BusyAfter(Step(s, a), who, later[..m - 1]);
        }
      }
    } else {
      assert schedule[..0] == [];
    }
  }

  /** A run that has the same outcome left as the whole schedule, and stands at its return or at
      the schedule's end, is that outcome. */
  lemma StandsAtReturn<T>(s: State<T>, who: Caller, schedule: seq<Action<T>>, t: State<T>, rest: seq<Action<T>>)
    requires Feasible(s, schedule) && Feasible(t, rest)
    requires UntilReturn(t, who, rest) == UntilReturn(s, who, schedule)
    requires Busy(t, who) ==> rest == []
    ensures RanUntilReturn(s, who, schedule, rest, t)
  {
    UntilReturnRuns(s, who, schedule);
  }
}
