/** Ticks, orders, and the bookkeeping that any one-lot strategy has to satisfy. */
module Trading {
  import opened Numbers
  import opened Options

  datatype Direction = Buy | Sell

  datatype Offset = Open | Close

  datatype Order = Order(
    strategy: string, symbol: string, timestamp: int, volume: nat,
    direction: Direction, offset: Offset)

  /** The fields of a tick that the strategies look at. */
  datatype Tick = Tick(symbol: string, stamp: int, last: Num)

  function Opposite(d: Direction): Direction {
    if d.Buy? then Sell else Buy
  }

  function Sign(d: Direction): int {
    if d.Buy? then 1 else -1
  }

  /** Net volume bought by a list of orders. */
  function Exposure(orders: seq<Order>): int {
    if orders == [] then 0
    else
      var o := orders[|orders| - 1];
      Exposure(orders[..|orders| - 1]) + Sign(o.direction) * o.volume
  }

  /** Opens and closes alternate, starting with an open, and a close reverses the open just
      before it. */
  predicate Alternates(orders: seq<Order>) {
    forall i | 0 <= i < |orders| ::
      && orders[i].offset == (if i % 2 == 0 then Open else Close)
      && (i % 2 == 1 ==> && orders[i].direction == Opposite(orders[i - 1].direction)
                         && orders[i].volume == orders[i - 1].volume)
  }

  /** The orders so far are those of a book now at `position` with `lots` per trade. */
  predicate Book(orders: seq<Order>, position: int, lots: nat) {
    && Alternates(orders)
    && (|orders| % 2 == 0 <==> position == 0)
    && (|orders| % 2 == 1 ==>
          position == Sign(orders[|orders| - 1].direction) && orders[|orders| - 1].volume == lots)
  }

  /** One tick takes `position` to `position'` with the order `o`: from flat only an open,
      from a position only the close that reverses it. */
  predicate Trades(position: int, o: Option<Order>, position': int, lots: nat) {
    match o
    case None => position' == position
    case Some(order) =>
      && order.volume == lots
      && if position == 0 then order.offset.Open? && position' == Sign(order.direction)
         else order.offset.Close? && position == -Sign(order.direction) && position' == 0
  }

  function Append(orders: seq<Order>, o: Option<Order>): seq<Order> {
    match o
    case None => orders
    case Some(order) => orders + [order]
  }

  lemma TradeKeepsBook(orders: seq<Order>, position: int, o: Option<Order>, position': int, lots: nat)
    requires Book(orders, position, lots) && Trades(position, o, position', lots)
    ensures Book(Append(orders, o), position', lots)
  {
    if o.Some? && |orders| % 2 == 1 {
      assert orders[|orders| - 1].direction == Opposite(o.value.direction);
    }
  }

  lemma ClosedVolume(orders: seq<Order>, n: nat)
    requires n < |orders| && n % 2 == 1 && Alternates(orders)
    ensures orders[n].volume == orders[n - 1].volume
    ensures orders[n].direction == Opposite(orders[n - 1].direction)
  {
  }

  /** A book's exposure is its position times the lots traded. */
  lemma {:induction false} BookExposure(orders: seq<Order>, position: int, lots: nat)
    requires Book(orders, position, lots)
    ensures Exposure(orders) == position * lots
  {
    if orders != [] {
      var n := |orders| - 1;
      var o := orders[n];
      var before := if n % 2 == 0 then 0 else -Sign(o.direction);
      assert Alternates(orders[..n]);
      if n % 2 == 0 {
        BookExposure(orders[..n], 0, lots);
      } else {
        assert orders[..n][n - 1] == orders[n - 1];
        ClosedVolume(orders, n);
        BookExposure(orders[..n], before, o.volume);
        assert position == 0;
        assert before * o.volume + Sign(o.direction) * o.volume == 0;
      }
    }
  }

  // ---------------------------------------------------------------- replies

  /** What a strategy replies to the last tick of a run. */
  type Strategy = seq<Tick> -> Option<Order>

  /** The replies to the ticks of a run, one each. */
  function RepliesOf(ticks: seq<Tick>, answer: Strategy): (replies: seq<Option<Order>>)
    ensures |replies| == |ticks|
    ensures forall k | 0 <= k < |replies| :: replies[k] == answer(ticks[..k + 1])
  {
    seq(|ticks|, k requires 0 <= k < |ticks| => answer(ticks[..k + 1]))
  }

  /** All the orders of a run. */
  function Sent(ticks: seq<Tick>, answer: Strategy): seq<Order> {
    if ticks == [] then [] else Append(Sent(ticks[..|ticks| - 1], answer), answer(ticks))
  }

  lemma RepliesGrow(ticks: seq<Tick>, answer: Strategy)
    requires ticks != []
    ensures RepliesOf(ticks, answer) == RepliesOf(ticks[..|ticks| - 1], answer) + [answer(ticks)]
  {
    var n := |ticks| - 1;
    assert ticks[..n + 1] == ticks;
    forall k | 0 <= k < n ensures RepliesOf(ticks, answer)[k] == RepliesOf(ticks[..n], answer)[k] {
      assert ticks[..n][..k + 1] == ticks[..k + 1];
    }
  }

  lemma SentGrows(ticks: seq<Tick>, i: nat, answer: Strategy)
    requires i < |ticks|
    ensures ticks[..i] + [ticks[i]] == ticks[..i + 1]
    ensures Sent(ticks[..i + 1], answer) == Append(Sent(ticks[..i], answer), answer(ticks[..i + 1]))
  {
    assert ticks[..i + 1][..i] == ticks[..i];
  }

  /** `at` lists the ticks that were answered, in order, with their orders. */
  predicate Answers(replies: seq<Option<Order>>, at: seq<nat>, orders: seq<Order>) {
    && |at| == |orders|
    && (forall i | 0 <= i < |at| :: at[i] < |replies| && replies[at[i]] == Some(orders[i]))
    && (forall i, j | 0 <= i < j < |at| :: at[i] < at[j])
    && (forall k: nat | k < |replies| && replies[k].Some? :: k in at)
  }

  lemma AnswerNext(replies: seq<Option<Order>>, at: seq<nat>, orders: seq<Order>, o: Option<Order>)
    returns (at': seq<nat>)
    requires Answers(replies, at, orders)
    ensures at' == if o.Some? then at + [|replies|] else at
    ensures Answers(replies + [o], at', Append(orders, o))
  {
    at' := if o.Some? then at + [|replies|] else at;
    forall k: nat | k < |replies + [o]| && (replies + [o])[k].Some? ensures k in at' {
      if k < |replies| {
        assert replies[k].Some?;
      } else {
        assert at'[|at|] == k;
      }
    }
  }

  /** The orders of a run are the replies to its ticks, in order, none left out and none
      added. */
  lemma {:induction false} SentAnswers(ticks: seq<Tick>, answer: Strategy) returns (at: seq<nat>)
    ensures Answers(RepliesOf(ticks, answer), at, Sent(ticks, answer))
  {
    at := [];
    if ticks != [] {
      var before := ticks[..|ticks| - 1];
      at := SentAnswers(before, answer);
      RepliesGrow(ticks, answer);
      at := AnswerNext(RepliesOf(before, answer), at, Sent(before, answer), answer(ticks));
    }
  }
}
