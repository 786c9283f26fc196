/** The Aberration strategy: bands of two standard deviations around a rolling mean, against a
    reference that recomputes both from the last 100 prices on every tick. */
module AberrationStrategy {
  import opened Numbers
  import Moments
  import opened Options
  import opened Windows
  import opened Rolling
  import opened Trading

  const SPAN: nat := 100

  // ---------------------------------------------------------------- reference

  /** What to do at a price, given the mean and the variance. */
  function Rule(position: int, last: Num, mean: Num, variance: Num): Option<(Direction, Offset)> {
    if position == 0 then
      if AboveBand(last, mean, variance) then Some((Buy, Open))
      else if BelowBand(last, mean, variance) then Some((Sell, Open))
      else None
    else if position > 0 then
      if Less(last, mean) then Some((Sell, Close)) else None
    else
      if Less(mean, last) then Some((Buy, Close)) else None
  }

  /** What a trader with the whole price history does at its last price. */
  function Verdict(position: int, prices: seq<Num>): Option<(Direction, Offset)>
    requires prices != []
  {
    var w := WindowOf(prices, SPAN);
    Rule(position, prices[|prices| - 1], MeanOf(w), VarianceOf(w))
  }

  function Moved(position: int, verdict: Option<(Direction, Offset)>): int {
    match verdict
    case None => position
    case Some((direction, Open)) => Sign(direction)
    case Some((_, Close)) => 0
  }

  function Prices(ticks: seq<Tick>): (prices: seq<Num>)
    ensures |prices| == |ticks|
    ensures forall i | 0 <= i < |ticks| :: prices[i] == ticks[i].last
  {
    seq(|ticks|, i requires 0 <= i < |ticks| => ticks[i].last)
  }

  /** The position after a run of ticks, by the reference. */
  function PositionAfter(ticks: seq<Tick>): int {
    if ticks == [] then 0
    else
      var before := PositionAfter(ticks[..|ticks| - 1]);
      Moved(before, Verdict(before, Prices(ticks)))
  }

  function OrderFor(tick: Tick, lots: nat, verdict: Option<(Direction, Offset)>): Option<Order> {
    match verdict
    case None => None
    case Some((direction, offset)) =>
      Some(Order("Aberration", tick.symbol, tick.stamp, lots, direction, offset))
  }

  /** The order the reference sends on the last tick of a run. */
  function OrderAt(ticks: seq<Tick>, lots: nat): Option<Order>
    requires ticks != []
  {
    OrderFor(ticks[|ticks| - 1], lots, Verdict(PositionAfter(ticks[..|ticks| - 1]), Prices(ticks)))
  }

  function Answer(lots: nat): Strategy {
    ticks => if ticks == [] then None else OrderAt(ticks, lots)
  }

  /** All the orders of a run. */
  function OrdersOf(ticks: seq<Tick>, lots: nat): seq<Order> {
    Sent(ticks, Answer(lots))
  }

  /** How the reference follows one more tick. */
  lemma NextTick(ticks: seq<Tick>, tick: Tick, lots: nat)
    ensures var now, position := ticks + [tick], PositionAfter(ticks);
      var w := WindowOf(Prices(ticks) + [tick.last], SPAN);
      var verdict := Rule(position, tick.last, MeanOf(w), VarianceOf(w));
      && Prices(now) == Prices(ticks) + [tick.last]
      && PositionAfter(now) == Moved(position, verdict)
      && OrderAt(now, lots) == OrderFor(tick, lots, verdict)
  {
    assert Prices(ticks + [tick]) == Prices(ticks) + [tick.last];
    assert (ticks + [tick])[..|ticks|] == ticks;
  }

  // ---------------------------------------------------------------- the strategy in place

  method NewStatistics() returns (m: Meaner, s: Stder)
    ensures fresh(m.Repr()) && fresh(s.Repr()) && m.Repr() !! s.Repr()
    ensures m.Valid() && m.Window() == WindowOf([], SPAN)
    ensures s.Valid() && s.Window() == WindowOf([], SPAN)
  {
    m := new Meaner(SPAN);
    s := new Stder(SPAN);
  }

  class Aberration {
    const meaner: Meaner
    const stder: Stder
    var position: int
    const lots: nat := 1
    var order: Order
    /** The ticks seen so far. */
    ghost var ticks: seq<Tick>

    ghost function Repr(): set<object> {
      {this} + meaner.Repr() + stder.Repr()
    }

    /** Both statistics are those of the window at the end of `prices`. */
    ghost predicate Follows(prices: seq<Num>)
      reads meaner.Repr(), stder.Repr()
    {
      && meaner.Repr() !! stder.Repr() && this !in meaner.Repr() && this !in stder.Repr()
      && meaner.Valid() && meaner.Window() == WindowOf(prices, SPAN)
      && stder.Valid() && stder.Window() == WindowOf(prices, SPAN)
    }

    ghost predicate Valid()
      reads Repr()
    {
      && Follows(Prices(ticks))
      && position == PositionAfter(ticks)
      && order.strategy == "Aberration"
    }

    constructor ()
      ensures Valid() && fresh(Repr()) && ticks == []
    {
      var m, s := NewStatistics();
      meaner, stder := m, s;
      position := 0;
      order := Order("Aberration", "", 0, 0, Buy, Open);
      ticks := [];
    }

    /** The branches of `onTick`. */
    method Decide(tick: Tick, mean: Num, variance: Num) returns (reply: Option<Order>)
      requires order.strategy == "Aberration"
      modifies this`position, this`order
      ensures order.strategy == "Aberration"
      ensures position == Moved(old(position), Rule(old(position), tick.last, mean, variance))
      ensures reply == OrderFor(tick, lots, Rule(old(position), tick.last, mean, variance))
    {
      if position == 0 {
        if AboveBand(tick.last, mean, variance) {
          order := order.(symbol := tick.symbol, timestamp := tick.stamp, volume := lots,
                          direction := Buy, offset := Open);
          position := 1;
          return Some(order);
        }
        if BelowBand(tick.last, mean, variance) {
          order := order.(symbol := tick.symbol, timestamp := tick.stamp, volume := lots,
                          direction := Sell, offset := Open);
          position := -1;
          return Some(order);
        }
      }
      if position > 0 {
        if Less(tick.last, mean) {
          order := order.(symbol := tick.symbol, timestamp := tick.stamp, volume := lots,
                          direction := Sell, offset := Close);
          position := 0;
          return Some(order);
        }
      } else if position < 0 {
        if Less(mean, tick.last) {
          order := order.(symbol := tick.symbol, timestamp := tick.stamp, volume := lots,
                          direction := Buy, offset := Close);
          position := 0;
          return Some(order);
        }
      }
      return None;
    }

    method UpdateStatistics(last: Num, ghost prices: seq<Num>) returns (mean: Num, variance: Num)
      requires Follows(prices)
      modifies meaner.Repr(), stder.Repr()
      ensures Follows(prices + [last])
      ensures mean == MeanOf(WindowOf(prices + [last], SPAN))
      ensures variance == VarianceOf(WindowOf(prices + [last], SPAN))
    {
      SlideIsWindowOf(prices, SPAN, last);
      mean := meaner.Update(last);
      variance := stder.Update(last);
    }

    /** The rest of `onTick` once the statistics are up to date. */
    method React(tick: Tick, mean: Num, variance: Num) returns (reply: Option<Order>)
      requires position == PositionAfter(ticks) && order.strategy == "Aberration"
      requires mean == MeanOf(WindowOf(Prices(ticks) + [tick.last], SPAN))
      requires variance == VarianceOf(WindowOf(Prices(ticks) + [tick.last], SPAN))
      modifies this`position, this`order, this`ticks
      ensures position == PositionAfter(ticks) && order.strategy == "Aberration"
      ensures ticks == old(ticks) + [tick] && Prices(ticks) == old(Prices(ticks)) + [tick.last]
      ensures reply == OrderAt(ticks, lots)
    {
      NextTick(ticks, tick, lots);
      reply := Decide(tick, mean, variance);
      ticks := ticks + [tick];
    }

    /** What does not touch the statistics leaves them in step with the prices. */
    twostate lemma StatisticsStand(prices: seq<Num>)
      requires old(Follows(prices)) && unchanged(meaner.Repr()) && unchanged(stder.Repr())
      ensures Follows(prices)
    {
      assert Follows(prices) == old(Follows(prices));
    }

    /** The same, with the statistics standing still. */
    method Settle(tick: Tick, mean: Num, variance: Num) returns (reply: Option<Order>)
      requires Follows(Prices(ticks) + [tick.last])
      requires position == PositionAfter(ticks) && order.strategy == "Aberration"
      requires mean == MeanOf(WindowOf(Prices(ticks) + [tick.last], SPAN))
      requires variance == VarianceOf(WindowOf(Prices(ticks) + [tick.last], SPAN))
      modifies this
      ensures Valid() && ticks == old(ticks) + [tick]
      ensures reply == OrderAt(ticks, lots)
    {
      ghost var prices := Prices(ticks) + [tick.last];
      reply := React(tick, mean, variance);
      StatisticsStand(prices);
    }

    /** On every tick sequence the order is the one the reference sends. */
    method OnTick(tick: Tick) returns (reply: Option<Order>)
      requires Valid()
      modifies Repr()
      ensures Valid()
      ensures ticks == old(ticks) + [tick]
      ensures reply == OrderAt(ticks, lots)
    {
      var mean, variance := UpdateStatistics(tick.last, Prices(ticks));
      reply := Settle(tick, mean, variance);
    }
  }

  // ---------------------------------------------------------------- whole runs

  lemma FullWindow(prices: seq<Num>, n: nat)
    requires n > 0 && AllFinite(WindowOf(prices, n))
    ensures |prices| >= n
    ensures forall i | |prices| - n <= i < |prices| :: prices[i].Fin?
  {
    var w := WindowOf(prices, n);
    assert w[0].Fin?;
    forall i | |prices| - n <= i < |prices| ensures prices[i].Fin? {
      assert w[i - (|prices| - n)].Fin?;
    }
  }

  /** No order before 100 prices have been seen, nor while one of the last 100 is not a finite
      number. */
  lemma OrderNeedsFullWindow(ticks: seq<Tick>, lots: nat)
    requires ticks != [] && OrderAt(ticks, lots).Some?
    ensures |ticks| >= SPAN
    ensures forall i | |ticks| - SPAN <= i < |ticks| :: ticks[i].last.Fin?
  {
    assert MeanOf(WindowOf(Prices(ticks), SPAN)).Fin?;
    FullWindow(Prices(ticks), SPAN);
  }

  /** On a window of equal prices nothing is sent, flat or not: no position is opened and none
      is closed. */
  lemma ConstantWindowSendsNothing(ticks: seq<Tick>, lots: nat)
    requires ticks != []
    requires var w := WindowOf(Prices(ticks), SPAN); forall i | 0 <= i < SPAN :: w[i] == w[0]
    ensures OrderAt(ticks, lots).None?
  {
    var w := WindowOf(Prices(ticks), SPAN);
    if AllFinite(w) {
      var xs := Values(w);
      Moments.SumOfConstant(xs, xs[0]);
      assert Moments.Mean(xs) == xs[0];
      assert w[SPAN - 1] == ticks[|ticks| - 1].last;
    }
  }

  /** Over every run opens and closes alternate, each close reverses its open, and the net
      volume sent is the position times the lots. */
  lemma {:induction false} RunKeepsBook(ticks: seq<Tick>, lots: nat)
    ensures Book(OrdersOf(ticks, lots), PositionAfter(ticks), lots)
    ensures Exposure(OrdersOf(ticks, lots)) == PositionAfter(ticks) * lots
    ensures PositionAfter(ticks) in {-1, 0, 1}
  {
    if ticks != [] {
      var before := ticks[..|ticks| - 1];
      RunKeepsBook(before, lots);
      TradeKeepsBook(OrdersOf(before, lots), PositionAfter(before), OrderAt(ticks, lots),
                     PositionAfter(ticks), lots);
    }
    BookExposure(OrdersOf(ticks, lots), PositionAfter(ticks), lots);
  }

  // ---------------------------------------------------------------- orders and their ticks

  /** An order carries the symbol and the time of the tick it answers. */
  lemma OrderIsForItsTick(ticks: seq<Tick>, lots: nat)
    requires ticks != [] && OrderAt(ticks, lots).Some?
    ensures var o, tick := OrderAt(ticks, lots).value, ticks[|ticks| - 1];
      && o.strategy == "Aberration" && o.volume == lots
      && o.symbol == tick.symbol && o.timestamp == tick.stamp
  {
  }

  /** Over whole runs the orders are the replies to the ticks, in order, none left out and none
      added, each with the symbol and the time of its tick. */
  lemma OrdersAnswerTicks(ticks: seq<Tick>, lots: nat) returns (at: seq<nat>)
    ensures Answers(RepliesOf(ticks, Answer(lots)), at, OrdersOf(ticks, lots))
    ensures forall i | 0 <= i < |at| ::
              var o, tick := OrdersOf(ticks, lots)[i], ticks[at[i]];
              o.symbol == tick.symbol && o.timestamp == tick.stamp && o.volume == lots
  {
    at := SentAnswers(ticks, Answer(lots));
    forall i | 0 <= i < |at|
      ensures var o, tick := OrdersOf(ticks, lots)[i], ticks[at[i]];
        o.symbol == tick.symbol && o.timestamp == tick.stamp && o.volume == lots
    {
      OrderIsForItsTick(ticks[..at[i] + 1], lots);
    }
  }

  /** The last 100 prices of a run are `xs`, with mean `m` and, over 99, variance `v`. */
  ghost predicate LastHundred(ticks: seq<Tick>, xs: seq<real>, m: real, v: real) {
    && |ticks| >= 100 && |xs| == 100
    && (forall i | 0 <= i < 100 :: ticks[|ticks| - 100 + i].last == Fin(xs[i]))
    && m * 100.0 == Moments.Sum(xs)
    && v * 99.0 == Moments.Deviation2(xs, m)
  }

  lemma HundredStatistics(ticks: seq<Tick>, xs: seq<real>, m: real, v: real)
    requires LastHundred(ticks, xs, m, v)
    ensures var w := WindowOf(Prices(ticks), SPAN);
      MeanOf(w) == Fin(m) && VarianceOf(w) == Fin(v)
  {
    var w := WindowOf(Prices(ticks), SPAN);
    assert forall i | 0 <= i < 100 :: w[i] == Fin(xs[i]);
    assert Values(w) == xs;
    QuotientOf(Moments.Sum(xs), m, 100.0);
    QuotientOf(Moments.Deviation2(xs, m), v, 99.0);
  }

  /** What is sent, on every run, told from the prices and from what was sent before: from flat a
      buy exactly above the mean by more than two standard deviations, a sell exactly below it by
      more; a long position is closed exactly below the mean and a short one exactly above it. */
  lemma WhatIsSent(ticks: seq<Tick>, xs: seq<real>, m: real, v: real, root: real)
    requires LastHundred(ticks, xs, m, v) && root >= 0.0 && root * root == v
    ensures var x, o := xs[99], OrderAt(ticks, 1);
      var net := Exposure(OrdersOf(ticks[..|ticks| - 1], 1));
      if net == 0 then
        && (o.Some? <==> x > m + 2.0 * root || x < m - 2.0 * root)
        && (o.Some? ==> o.value.offset == Open
                        && o.value.direction == if x > m + 2.0 * root then Buy else Sell)
      else
        && (o.Some? <==> if net > 0 then x < m else x > m)
        && (o.Some? ==> o.value.offset == Close && o.value.direction == if net > 0 then Sell else Buy)
  {
    var before := ticks[..|ticks| - 1];
    RunKeepsBook(before, 1);
    BandsAreRootTests(xs[99], m, v, root);
    HundredStatistics(ticks, xs, m, v);
  }

  /** Sends a whole run of ticks through the strategy. */
  method TradeAll(ticks: seq<Tick>) returns (orders: seq<Order>)
    ensures orders == OrdersOf(ticks, 1)
  {
    var strategy := new Aberration();
    orders := [];
    for i := 0 to |ticks|
      invariant strategy.Valid() && fresh(strategy.Repr())
      invariant strategy.ticks == ticks[..i]
      invariant orders == OrdersOf(ticks[..i], 1)
    {
      SentGrows(ticks, i, Answer(1));
      var reply := strategy.OnTick(ticks[i]);
      orders := Append(orders, reply);
    }
    assert ticks[..|ticks|] == ticks;
  }
}
