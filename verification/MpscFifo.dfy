/** What the callers of the multi-producer ring see: nothing lost, nothing doubled, ticket
    order, and every producer's items in the order it pushed them. */
module MpscFifo {
  import opened Options
  import opened Words
  import opened MpscProtocol
  import opened MpscSlots
  import opened MpscBounds
  import opened MpscWakeups

  /** The items of a run of tickets. */
  function Items<T>(tickets: seq<Ticket<T>>): (r: seq<T>)
    ensures |r| == |tickets|
    ensures forall i | 0 <= i < |r| :: r[i] == tickets[i].item
  {
    seq(|tickets|, i requires 0 <= i < |tickets| => tickets[i].item)
  }

  /** The items among `items` that `owners` says are `p`'s. */
  function From<T>(items: seq<T>, owners: seq<nat>, p: nat): seq<T>
    requires |items| == |owners|
  {
    if items == [] then []
    else
      var n := |items| - 1;
      From(items[..n], owners[..n], p) + (if owners[n] == p then [items[n]] else [])
  }

  function Owners<T>(tickets: seq<Ticket<T>>): (r: seq<nat>)
    ensures |r| == |tickets|
    ensures forall i | 0 <= i < |r| :: r[i] == tickets[i].owner
  {
    seq(|tickets|, i requires 0 <= i < |tickets| => tickets[i].owner)
  }

  /** The items of `p`'s tickets, in ticket order. */
  function TicketsOf<T>(tickets: seq<Ticket<T>>, p: nat): seq<T> {
    From(Items(tickets), Owners(tickets), p)
  }

  /** What the consumer's calls returned. */
  function Received<T>(calls: seq<Call<T>>): seq<T> {
    if calls == [] then []
    else
      var c := calls[|calls| - 1];
      Received(calls[..|calls| - 1]) + (if c.Pop? && c.result.Some? then [c.result.value] else [])
  }

  /** The items of `p`'s calls that returned true, in the order `p` made them. */
  function Sent<T>(calls: seq<Call<T>>, p: nat): seq<T> {
    if calls == [] then []
    else
      var c := calls[|calls| - 1];
      Sent(calls[..|calls| - 1], p) + (if c.Push? && c.p == p && c.ok then [c.item] else [])
  }

  /** The item of the push `p` is in the middle of, once it has a ticket. */
  function InFlight<T>(s: State<T>, p: nat): seq<T>
    requires p < |s.producers|
  {
    if Holds(s.producers[p]) then [s.producers[p].item] else []
  }

  /** The ledger balances: received is the tickets below the tail, and what each producer
      had accepted, with the push it is in the middle of, is its tickets. */
  ghost predicate Ledger<T>(s: State<T>) {
    && s.tail <= |s.issued|
    && Received(s.calls) == Items(s.issued[..s.tail])
    && forall p: nat | p < |s.producers| ::
         Sent(s.calls, p) + InFlight(s, p) == TicketsOf(s.issued, p)
  }

  /** Every ticket is that of a producer. */
  predicate OwnersReal<T>(s: State<T>) {
    forall k: nat | k < |s.issued| :: s.issued[k].owner < |s.producers|
  }

  ghost predicate FifoInv<T>(s: State<T>) {
    SlotInv(s) && Ledger(s) && OwnersReal(s)
  }

  // ---------------------------------------------------------------- sequences

  lemma AppendCall<T>(calls: seq<Call<T>>, c: Call<T>)
    ensures Received(calls + [c]) == Received(calls) + (if c.Pop? && c.result.Some? then [c.result.value] else [])
    ensures forall p: nat ::
              Sent(calls + [c], p) == Sent(calls, p) + (if c.Push? && c.p == p && c.ok then [c.item] else [])
  {
    assert (calls + [c])[..|calls|] == calls;
  }

  lemma AppendTicket<T>(tickets: seq<Ticket<T>>, t: Ticket<T>, p: nat)
    ensures TicketsOf(tickets + [t], p) == TicketsOf(tickets, p) + (if t.owner == p then [t.item] else [])
  {
    var n := |tickets|;
    var all := tickets + [t];
    assert Items(all)[..n] == Items(tickets);
    assert Owners(all)[..n] == Owners(tickets);
  }

  lemma {:induction false} FromPrefix<T>(items: seq<T>, owners: seq<nat>, n: nat, p: nat)
    requires |items| == |owners| && n <= |items|
    ensures From(items[..n], owners[..n], p) <= From(items, owners, p)
    decreases |items|
  {
    if n < |items| {
      var m := |items| - 1;
      FromPrefix(items[..m], owners[..m], n, p);
      assert items[..m][..n] == items[..n] && owners[..m][..n] == owners[..n];
    } else {
      assert items[..n] == items && owners[..n] == owners;
    }
  }

  /** The items a producer drew first are the first of its items. */
  lemma TicketsOfPrefix<T>(tickets: seq<Ticket<T>>, n: nat, p: nat)
    requires n <= |tickets|
    ensures TicketsOf(tickets[..n], p) <= TicketsOf(tickets, p)
  {
    FromPrefix(Items(tickets), Owners(tickets), n, p);
    assert Items(tickets)[..n] == Items(tickets[..n]);
    assert Owners(tickets)[..n] == Owners(tickets[..n]);
  }

  // ---------------------------------------------------------------- preservation

  lemma FifoInvInit<T>(bufSize: nat, producers: nat, initial: T)
    requires bufSize >= 2
    ensures FifoInv(Init(bufSize, producers, initial))
  {
    SlotInvInit(bufSize, producers, initial);
  }

  /** A step that ends no call and issues no ticket. */
  lemma QuietKeepsLedger<T>(s: State<T>, s': State<T>)
    requires Ledger(s)
    requires s'.issued == s.issued && s'.calls == s.calls && s'.tail == s.tail
    requires |s'.producers| == |s.producers|
    requires forall p: nat | p < |s.producers| :: InFlight(s', p) == InFlight(s, p)
    ensures Ledger(s')
  {
    forall p: nat | p < |s'.producers|
      ensures Sent(s'.calls, p) + InFlight(s', p) == TicketsOf(s'.issued, p)
    {
      assert InFlight(s', p) == InFlight(s, p);
    }
  }

  /** A step of `q` that ends its push. */
  lemma ReplyKeepsLedger<T>(s: State<T>, q: nat, ok: bool, s': State<T>)
    requires Ledger(s) && q < |s.producers| && !s.producers[q].PIdle?
    requires ok == Holds(s.producers[q])
    requires s'.issued == s.issued && s'.tail == s.tail && s'.producers == s.producers[q := PIdle]
    requires s'.calls == s.calls + [Push(q, s.producers[q].item, ok)]
    ensures Ledger(s')
  {
    AppendCall(s.calls, Push(q, s.producers[q].item, ok));
    forall p: nat | p < |s'.producers|
      ensures Sent(s'.calls, p) + InFlight(s', p) == TicketsOf(s'.issued, p)
    {
      assert Sent(s.calls, p) + InFlight(s, p) == TicketsOf(s.issued, p);
    }
  }

  /** A step of `q` that draws the next ticket. */
  lemma TicketKeepsLedger<T>(s: State<T>, q: nat, s': State<T>)
    requires Ledger(s) && q < |s.producers| && s.producers[q].PFetchAdd?
    requires s'.tail == s.tail && s'.calls == s.calls
    requires s'.producers == s.producers[q := PLoadTurn(s.producers[q].item, |s.issued|)]
    requires s'.issued == s.issued + [Ticket(q, s.producers[q].item)]
    ensures Ledger(s')
  {
    assert s'.issued[..s.tail] == s.issued[..s.tail];
    forall p: nat | p < |s'.producers|
      ensures Sent(s'.calls, p) + InFlight(s', p) == TicketsOf(s'.issued, p)
    {
      assert Sent(s.calls, p) + InFlight(s, p) == TicketsOf(s.issued, p);
      AppendTicket(s.issued, Ticket(q, s.producers[q].item), p);
    }
  }

  /** A step of the consumer that ends its pop. */
  lemma PopKeepsLedger<T>(s: State<T>, c: Call<T>, s': State<T>)
    requires Ledger(s) && c.Pop?
    requires s'.producers == s.producers && s'.issued == s.issued && s'.calls == s.calls + [c]
    requires if c.result.Some?
             then s.tail < |s.issued| && s'.tail == s.tail + 1 && c.result.value == s.issued[s.tail].item
             else s'.tail == s.tail
    ensures Ledger(s')
  {
    AppendCall(s.calls, c);
    if c.result.Some? {
      assert Items(s.issued[..s.tail + 1]) == Items(s.issued[..s.tail]) + [c.result.value];
    }
    forall p: nat | p < |s'.producers|
      ensures Sent(s'.calls, p) + InFlight(s', p) == TicketsOf(s'.issued, p)
    {
      assert Sent(s.calls, p) + InFlight(s, p) == TicketsOf(s.issued, p);
    }
  }

  lemma ProducerKeepsLedger<T>(s: State<T>, p: nat)
    requires FifoInv(s) && Enabled(s, ProducerStep(p))
    ensures Ledger(StepProducer(s, p))
  {
    var s' := StepProducer(s, p);
    if s'.calls != s.calls {
      ReplyKeepsLedger(s, p, s.producers[p].PPublish?, s');
    } else if s.producers[p].PFetchAdd? {
      TicketKeepsLedger(s, p, s');
    } else {
      QuietKeepsLedger(s, s');
    }
  }

  lemma ConsumerKeepsLedger<T>(s: State<T>, woken: set<nat>, left: T)
    requires FifoInv(s) && Enabled(s, ConsumerStep(woken, left))
    ensures Ledger(StepConsumer(s, woken, left))
  {
    var s' := StepConsumer(s, woken, left);
    if s'.calls != s.calls {
      PopKeepsLedger(s, s'.calls[|s.calls|], s');
    } else {
      QuietKeepsLedger(s, s');
    }
  }

  lemma StepKeepsOwners<T>(s: State<T>, a: Action<T>)
    requires OwnersReal(s) && Enabled(s, a)
    ensures OwnersReal(Step(s, a))
  {
  }

  lemma StepKeepsLedger<T>(s: State<T>, a: Action<T>)
    requires FifoInv(s) && Enabled(s, a)
    ensures Ledger(Step(s, a))
  {
    match a
    case BeginPush(_, _) => QuietKeepsLedger(s, Step(s, a));
    case SpuriousWake(_) => QuietKeepsLedger(s, Step(s, a));
    case ProducerStep(p) => ProducerKeepsLedger(s, p);
    case ConsumerStep(woken, left) => ConsumerKeepsLedger(s, woken, left);
  }

  lemma StepKeepsFifo<T>(s: State<T>, a: Action<T>)
    requires FifoInv(s) && Enabled(s, a)
    ensures FifoInv(Step(s, a))
  {
    StepKeepsSlotInv(s, a);
    StepKeepsLedger(s, a);
    StepKeepsOwners(s, a);
  }

  lemma {:induction false} RunKeepsFifo<T>(s: State<T>, actions: seq<Action<T>>)
    requires FifoInv(s) && Feasible(s, actions)
    ensures FifoInv(Run(s, actions)) && |Run(s, actions).producers| == |s.producers|
    decreases |actions|
  {
    if actions != [] {
      StepKeepsFifo(s, actions[0]);
      RunKeepsFifo(Step(s, actions[0]), actions[1..]);
    }
  }

  lemma {:induction false} IssuedGrows<T>(s: State<T>, actions: seq<Action<T>>)
    requires Feasible(s, actions)
    ensures s.issued <= Run(s, actions).issued
    decreases |actions|
  {
    if actions != [] {
      IssuedGrows(Step(s, actions[0]), actions[1..]);
    }
  }

  // ---------------------------------------------------------------- what callers see

  /** After any run the consumer has received the items of the oldest tickets in ticket order.
      Each ticket is a producer's, and each producer's share is a prefix of what it pushed, in
      its own order: its accepted pushes, and possibly the one it is still in the middle of. */
  lemma ReceivedInOrder<T>(bufSize: nat, producers: nat, initial: T, actions: seq<Action<T>>)
    requires bufSize >= 2 && Feasible(Init(bufSize, producers, initial), actions)
    ensures var t := Run(Init(bufSize, producers, initial), actions);
      && |t.producers| == producers && t.tail <= |t.issued|
      && var owners := Owners(t.issued[..t.tail]);
      && Received(t.calls) == Items(t.issued[..t.tail])
      && (forall i | 0 <= i < |owners| :: owners[i] < producers)
      && forall p: nat | p < producers ::
           From(Received(t.calls), owners, p) <= Sent(t.calls, p) + InFlight(t, p)
  {
    FifoInvInit(bufSize, producers, initial);
    RunKeepsFifo(Init(bufSize, producers, initial), actions);
    var t := Run(Init(bufSize, producers, initial), actions);
    forall p: nat | p < producers
      ensures TicketsOf(t.issued[..t.tail], p) <= Sent(t.calls, p) + InFlight(t, p)
    {
      TicketsOfPrefix(t.issued, t.tail, p);
    }
  }

  /** Everything that the producers below `n` had accepted. */
  ghost function SentByAll<T>(calls: seq<Call<T>>, n: nat): multiset<T> {
    if n == 0 then multiset{} else SentByAll(calls, n - 1) + multiset(Sent(calls, n - 1))
  }

  /** Everything drawn by the producers below `n`. */
  ghost function DrawnByAll<T>(tickets: seq<Ticket<T>>, n: nat): multiset<T> {
    if n == 0 then multiset{} else DrawnByAll(tickets, n - 1) + multiset(TicketsOf(tickets, n - 1))
  }

  lemma {:induction false} DrawnByNobody<T>(n: nat)
    ensures DrawnByAll<T>([], n) == multiset{}
  {
    if n > 0 {
      DrawnByNobody<T>(n - 1);
    }
  }

  ghost function OneIf<T>(counted: bool, x: T): multiset<T> {
    if counted then multiset{x} else multiset{}
  }

  lemma AddOne<T>(a: multiset<T>, b: seq<T>, x: T, owner: nat, p: nat)
    ensures a + OneIf(owner < p, x) + multiset(b + if owner == p then [x] else [])
         == a + multiset(b) + OneIf(owner < p + 1, x)
  {
    assert b + [] == b;
  }

  lemma {:induction false} DrawnAppend<T>(tickets: seq<Ticket<T>>, t: Ticket<T>, n: nat)
    ensures DrawnByAll(tickets + [t], n) == DrawnByAll(tickets, n) + OneIf(t.owner < n, t.item)
  {
    if n > 0 {
      var p := n - 1;
      DrawnAppend(tickets, t, p);
      assert TicketsOf(tickets + [t], p) == TicketsOf(tickets, p) + if t.owner == p then [t.item] else [] by {
        AppendTicket(tickets, t, p);
      }
      AddOne(DrawnByAll(tickets, p), TicketsOf(tickets, p), t.item, t.owner, p);
    }
  }

  /** Tickets of real producers are shared out among them without loss. */
  lemma {:induction false} DrawnIsEverything<T>(tickets: seq<Ticket<T>>, n: nat)
    requires forall k | 0 <= k < |tickets| :: tickets[k].owner < n
    ensures DrawnByAll(tickets, n) == multiset(Items(tickets))
  {
    if tickets == [] {
      DrawnByNobody<T>(n);
    } else {
      var m := |tickets| - 1;
      DrawnIsEverything(tickets[..m], n);
      DrawnAppend(tickets[..m], tickets[m], n);
      assert tickets == tickets[..m] + [tickets[m]];
      assert Items(tickets) == Items(tickets[..m]) + [tickets[m].item];
    }
  }

  lemma {:induction false} SameShares<T>(tickets: seq<Ticket<T>>, calls: seq<Call<T>>, n: nat)
    requires forall p: nat | p < n :: TicketsOf(tickets, p) == Sent(calls, p)
    ensures DrawnByAll(tickets, n) == SentByAll(calls, n)
  {
    if n > 0 {
      SameShares(tickets, calls, n - 1);
    }
  }

  /** Conservation: after any run that leaves the ring drained, what the consumer has received
      is what the producers had accepted, item for item, none lost and none invented; and what
      it received from each producer is what that producer sent, in the same order. */
  lemma DrainedLosesNothing<T>(bufSize: nat, producers: nat, initial: T, actions: seq<Action<T>>)
    requires bufSize >= 2 && Feasible(Init(bufSize, producers, initial), actions)
    requires var t := Run(Init(bufSize, producers, initial), actions); t.tail == t.head
    ensures var t := Run(Init(bufSize, producers, initial), actions);
      && multiset(Received(t.calls)) == SentByAll(t.calls, producers)
      && |Received(t.calls)| == |t.issued|
      && forall p: nat | p < producers :: From(Received(t.calls), Owners(t.issued), p) == Sent(t.calls, p)
  {
    FifoInvInit(bufSize, producers, initial);
    RunKeepsFifo(Init(bufSize, producers, initial), actions);
    var t := Run(Init(bufSize, producers, initial), actions);
    assert t.issued[..t.tail] == t.issued;
    forall p: nat | p < producers ensures TicketsOf(t.issued, p) == Sent(t.calls, p) {
      assert ProducerInv(t, p);
    }
    DrawnIsEverything(t.issued, producers);
    SameShares(t.issued, t.calls, producers);
  }

  // ---------------------------------------------------------------- real-time order

  /** Ticket `k` is the `n`-th that `p` drew. */
  predicate NthTicket<T>(tickets: seq<Ticket<T>>, p: nat, n: nat, k: nat) {
    k < |tickets| && tickets[k].owner == p && |TicketsOf(tickets[..k], p)| == n
  }

  lemma NthTicketItem<T>(tickets: seq<Ticket<T>>, p: nat, n: nat, k: nat)
    requires NthTicket(tickets, p, n, k)
    ensures n < |TicketsOf(tickets, p)| && TicketsOf(tickets, p)[n] == tickets[k].item
  {
    AppendTicket(tickets[..k], tickets[k], p);
    assert tickets[..k] + [tickets[k]] == tickets[..k + 1];
    TicketsOfPrefix(tickets, k + 1, p);
  }

  lemma {:induction false} FindTicket<T>(tickets: seq<Ticket<T>>, p: nat, n: nat) returns (k: nat)
    requires n < |TicketsOf(tickets, p)|
    ensures NthTicket(tickets, p, n, k)
  {
    var m := |tickets| - 1;
    AppendTicket(tickets[..m], tickets[m], p);
    assert tickets == tickets[..m] + [tickets[m]];
    if n < |TicketsOf(tickets[..m], p)| {
      k := FindTicket(tickets[..m], p, n);
      assert tickets[..m][..k] == tickets[..k];
    } else {
      k := m;
    }
  }

  /** The consumer has received the `n`-th push of `p`, as its `k`-th item. */
  predicate ReceivedAt<T>(s: State<T>, p: nat, n: nat, k: nat) {
    k < s.tail && NthTicket(s.issued, p, n, k)
  }

  lemma EarlierTicket<T>(s: State<T>, t: State<T>, p: nat, n: nat, q: nat, m: nat, k: nat) returns (j: nat)
    requires FifoInv(s) && FifoInv(t) && s.issued <= t.issued
    requires p < |s.producers| && n < |Sent(s.calls, p)|
    requires q < |s.producers| && s.producers[q].PIdle? && |Sent(s.calls, q)| <= m
    requires ReceivedAt(t, q, m, k)
    ensures j < k && NthTicket(t.issued, p, n, j) && t.issued[j].item == Sent(s.calls, p)[n]
  {
    j := FindTicket(s.issued, p, n);
    NthTicketItem(s.issued, p, n, j);
    assert t.issued[..j] == s.issued[..j];
    if k < |s.issued| {
      assert t.issued[..k] == s.issued[..k];
      NthTicketItem(s.issued, q, m, k);
    }
  }

  /** Real-time order, whoever the producers: if the `n`-th push of `p` had returned in `s`,
      where `q` is between calls, then by the time a push of `q` from `s` on is received, that
      one has been received before it. */
  lemma EarlierPushReceivedFirst<T>(
      bufSize: nat, producers: nat, initial: T, before: seq<Action<T>>, after: seq<Action<T>>,
      p: nat, n: nat, q: nat, m: nat, k: nat)
    returns (j: nat)
    requires bufSize >= 2 && p < producers && q < producers
    requires Feasible(Init(bufSize, producers, initial), before)
    requires var s := Run(Init(bufSize, producers, initial), before);
      && n < |Sent(s.calls, p)|
      && |s.producers| == producers && s.producers[q].PIdle? && |Sent(s.calls, q)| <= m
      && Feasible(s, after) && ReceivedAt(Run(s, after), q, m, k)
    ensures var s := Run(Init(bufSize, producers, initial), before);
      var t := Run(s, after);
      && j < k < |Received(t.calls)|
      && ReceivedAt(t, p, n, j)
      && Received(t.calls)[j] == Sent(s.calls, p)[n]
  {
    FifoInvInit(bufSize, producers, initial);
    RunKeepsFifo(Init(bufSize, producers, initial), before);
    var s := Run(Init(bufSize, producers, initial), before);
    RunKeepsFifo(s, after);
    IssuedGrows(s, after);
    j := EarlierTicket(s, Run(s, after), p, n, q, m, k);
  }

  // ---------------------------------------------------------------- delivery

  lemma {:induction false} RoundsKeepFifo<T>(s: State<T>, rounds: seq<Round<T>>)
    requires FifoInv(s) && AllFair(s, rounds)
    ensures FifoInv(AfterRounds(s, rounds)) && s.issued <= AfterRounds(s, rounds).issued
    decreases |rounds|
  {
    if rounds != [] {
      var r := rounds[0];
      RunKeepsFifo(s, r.work);
      IssuedGrows(s, r.work);
      RunKeepsFifo(Run(s, r.work), r.polls);
      IssuedGrows(Run(s, r.work), r.polls);
      RoundsKeepFifo(AfterRound(s, r), rounds[1..]);
    }
  }

  /** With at most `B + 1` producers every push that has drawn a ticket is received, as the item
      of that ticket, within one fair round for each ticket not popped before it. */
  lemma EveryTicketIsDelivered<T>(
      bufSize: nat, producers: nat, initial: T, actions: seq<Action<T>>, k: nat, rounds: seq<Round<T>>)
    requires 2 <= bufSize && producers <= bufSize + 1 && bufSize + producers <= WORD
    requires Feasible(Init(bufSize, producers, initial), actions)
    requires var s := Run(Init(bufSize, producers, initial), actions);
      k < s.head && AllFair(s, rounds) && k < s.tail + |rounds|
    ensures var s := Run(Init(bufSize, producers, initial), actions);
      var t := AfterRounds(s, rounds);
      && k < |s.issued| && k < |Received(t.calls)|
      && Received(t.calls)[k] == s.issued[k].item
  {
    var s := Run(Init(bufSize, producers, initial), actions);
    ReachedInvariants(bufSize, producers, initial, actions);
    DeliveredWithinRounds(s, k, rounds);
    FifoInvInit(bufSize, producers, initial);
    RunKeepsFifo(Init(bufSize, producers, initial), actions);
    RoundsKeepFifo(s, rounds);
  }
}
