/** The DualThrust strategy. On finite prices its range, its thresholds and its short side
    never come into play; on every run of ticks, infinities and NaN included, the code behaves
    like the cycle below. */
module DualThrustStrategy {
  import opened Numbers
  import opened Options
  import opened Trading

  // ---------------------------------------------------------------- one tick, as coded

  /** The fields `onTick` carries from tick to tick. */
  datatype Levels = Levels(position: int, open: Num, max: Num, min: Num, initialized: bool)

  const START := Levels(0, Fin(0.0), Fin(0.0), Fin(0.0), false)

  /** The range of the cycle, its open included, after a price. */
  function Widen(s: Levels, last: Num): Levels {
    if !s.initialized then s.(open := last, max := last, min := last, initialized := true)
    else s.(max := Max(s.max, last), min := Min(s.min, last))
  }

  /** What the branches of `onTick` decide at the widened range. */
  function Decide(s: Levels, last: Num, k1: real, k2: real): Option<(Direction, Offset)> {
    var range := Sub(s.max, s.min);
    if s.position == 0 then
      if AtLeast(last, Add(s.open, Mul(Fin(k1), range))) then Some((Buy, Open))
      else if AtLeast(Sub(s.open, Mul(Fin(k2), range)), last) then Some((Sell, Open))
      else None
    else if s.position > 0 then
      if Less(last, s.open) then Some((Sell, Close)) else None
    else
      if Less(s.open, last) then Some((Buy, Close)) else None
  }

  function Moved(s: Levels, verdict: Option<(Direction, Offset)>): Levels {
    match verdict
    case None => s
    case Some((direction, Open)) => s.(position := Sign(direction))
    case Some((_, Close)) => s.(position := 0, initialized := false)
  }

  function LevelsAfter(ticks: seq<Tick>, k1: real, k2: real): Levels {
    if ticks == [] then START
    else
      var last := ticks[|ticks| - 1].last;
      var s := Widen(LevelsAfter(ticks[..|ticks| - 1], k1, k2), last);
      Moved(s, Decide(s, last, k1, k2))
  }

  // ---------------------------------------------------------------- what the code amounts to

  /** Between two ticks the strategy is waiting for the first tick of a cycle; holding a
      position entered at a price; poised, after a cycle that began at an infinity, with
      `moved` telling whether another number has been seen since; or silent for good. */
  datatype Cycle =
    | Waiting
    | Long(entry: Num)
    | Short
    | Poised(up: bool, moved: bool)
    | Silent

  function Edge(up: bool): Num {
    if up then PosInf else NegInf
  }

  /** Buy on the first tick of a cycle, whatever its finite price; sell on the first tick below
      it. A cycle that begins at an infinity trades only when the price has been elsewhere and
      is back at that infinity; one that begins with NaN never ends. */
  function Rule(c: Cycle, last: Num): (Cycle, Option<(Direction, Offset)>) {
    match c
    case Waiting =>
      if last.Fin? then (Long(last), Some((Buy, Open)))
      else if last.NaN? then (Silent, None)
      else (Poised(last.PosInf?, false), None)
    case Long(entry) =>
      if Less(last, entry) then (Waiting, Some((Sell, Close))) else (c, None)
    case Short =>
      if Less(NegInf, last) then (Waiting, Some((Buy, Close))) else (c, None)
    case Poised(up, moved) =>
      if last.NaN? then (c, None)
      else if last != Edge(up) then (Poised(up, true), None)
      else if !moved then (c, None)
      else if up then (Long(PosInf), Some((Buy, Open)))
      else (Short, Some((Sell, Open)))
    case Silent => (c, None)
  }

  function CycleAfter(ticks: seq<Tick>): Cycle {
    if ticks == [] then Waiting
    else Rule(CycleAfter(ticks[..|ticks| - 1]), ticks[|ticks| - 1].last).0
  }

  function OrderFor(tick: Tick, lots: nat, verdict: Option<(Direction, Offset)>): Option<Order> {
    match verdict
    case None => None
    case Some((direction, offset)) =>
      Some(Order("DualThrust", tick.symbol, tick.stamp, lots, direction, offset))
  }

  /** The order on the last tick of a run, by the rule. */
  function OrderAt(ticks: seq<Tick>, lots: nat): Option<Order>
    requires ticks != []
  {
    var tick := ticks[|ticks| - 1];
    OrderFor(tick, lots, Rule(CycleAfter(ticks[..|ticks| - 1]), tick.last).1)
  }

  function Answer(lots: nat): Strategy {
    ticks => if ticks == [] then None else OrderAt(ticks, lots)
  }

  function OrdersOf(ticks: seq<Tick>, lots: nat): seq<Order> {
    Sent(ticks, Answer(lots))
  }

  function PositionOf(c: Cycle): int {
    if c.Long? then 1 else if c.Short? then -1 else 0
  }

  // ---------------------------------------------------------------- the code follows the rule

  /** The only reachable levels: flat and uninitialized; long, from a finite price with the low
      still at the open; short from minus infinity; flat with the open at an infinity; or stuck
      on NaN. */
  predicate Matches(s: Levels, c: Cycle) {
    && s.position == PositionOf(c)
    && s.initialized == !c.Waiting?
    && match c
       case Waiting => true
       case Long(entry) =>
         s.open == entry && (entry.PosInf? || (entry.Fin? && s.min == s.open && AtLeast(s.max, entry)))
       case Short => s.open == NegInf
       case Poised(true, moved) => s.open == s.max == PosInf && Less(s.min, PosInf) == moved && !s.min.NaN?
       case Poised(false, moved) => s.open == s.min == NegInf && Less(NegInf, s.max) == moved && !s.max.NaN?
       case Silent => s.open == s.max == s.min == NaN
  }

  /** From `s` at cycle `c`, the coded branches decide as the rule and keep matching it. */
  predicate FollowsRule(s: Levels, c: Cycle, last: Num, k1: real, k2: real) {
    var t := Widen(s, last);
    && Decide(t, last, k1, k2) == Rule(c, last).1
    && Matches(Moved(t, Rule(c, last).1), Rule(c, last).0)
  }

  lemma FirstTickFollowsRule(s: Levels, last: Num, k1: real, k2: real)
    requires Matches(s, Waiting)
    ensures FollowsRule(s, Waiting, last, k1, k2)
  {
    assert k1 * 0.0 == 0.0 && k2 * 0.0 == 0.0;
    var range := Sub(last, last);
    assert range == if last.Fin? then Fin(0.0) else NaN;
  }

  lemma UpperPoisedFollowsRule(s: Levels, moved: bool, last: Num, k1: real, k2: real)
    requires Matches(s, Poised(true, moved)) && k1 > 0.0 && k2 > 0.0
    ensures FollowsRule(s, Poised(true, moved), last, k1, k2)
  {
    var t := Widen(s, last);
    if t.min == PosInf {
      assert Sub(t.max, t.min) == NaN;
      assert Mul(Fin(k1), NaN) == NaN && Mul(Fin(k2), NaN) == NaN;
    } else {
      assert Sub(t.max, t.min) == PosInf;
      assert Mul(Fin(k1), PosInf) == PosInf && Mul(Fin(k2), PosInf) == PosInf;
      assert Add(PosInf, PosInf) == PosInf && Sub(PosInf, PosInf) == NaN;
    }
  }

  lemma LowerPoisedFollowsRule(s: Levels, moved: bool, last: Num, k1: real, k2: real)
    requires Matches(s, Poised(false, moved)) && k1 > 0.0 && k2 > 0.0
    ensures FollowsRule(s, Poised(false, moved), last, k1, k2)
  {
    var t := Widen(s, last);
    if t.max == NegInf {
      assert Sub(t.max, t.min) == NaN;
      assert Mul(Fin(k1), NaN) == NaN && Mul(Fin(k2), NaN) == NaN;
    } else {
      assert Sub(t.max, t.min) == PosInf;
      assert Mul(Fin(k1), PosInf) == PosInf && Mul(Fin(k2), PosInf) == PosInf;
      assert Add(NegInf, PosInf) == NaN && Sub(NegInf, PosInf) == NegInf;
    }
  }

  lemma StepFollowsRule(s: Levels, c: Cycle, last: Num, k1: real, k2: real)
    requires Matches(s, c)
    requires c.Poised? ==> k1 > 0.0 && k2 > 0.0
    ensures FollowsRule(s, c, last, k1, k2)
  {
    match c
    case Waiting => FirstTickFollowsRule(s, last, k1, k2);
    case Long(_) =>
    case Short =>
    case Poised(true, moved) => UpperPoisedFollowsRule(s, moved, last, k1, k2);
    case Poised(false, moved) => LowerPoisedFollowsRule(s, moved, last, k1, k2);
    case Silent => assert forall x: Num :: Sub(x, NaN) == NaN && Mul(x, NaN) == NaN && Add(NaN, x) == NaN;
  }

  predicate NoInfinity(ticks: seq<Tick>) {
    forall i | 0 <= i < |ticks| :: ticks[i].last.Fin? || ticks[i].last.NaN?
  }

  /** On any run of ticks the levels the code reaches are those the rule allows, for positive
      coefficients as the source has them; without infinite prices, for any at all. */
  lemma {:induction false} CodeFollowsRule(ticks: seq<Tick>, k1: real, k2: real)
    requires (k1 > 0.0 && k2 > 0.0) || NoInfinity(ticks)
    ensures Matches(LevelsAfter(ticks, k1, k2), CycleAfter(ticks))
    ensures NoInfinity(ticks) ==> !CycleAfter(ticks).Poised? && !CycleAfter(ticks).Short?
  {
    if ticks != [] {
      var before := ticks[..|ticks| - 1];
      assert NoInfinity(ticks) ==> NoInfinity(before);
      CodeFollowsRule(before, k1, k2);
      StepFollowsRule(LevelsAfter(before, k1, k2), CycleAfter(before), ticks[|ticks| - 1].last, k1, k2);
    }
  }

  // ---------------------------------------------------------------- the strategy in place

  class DualThrust {
    var order: Order
    var position: int
    const lots: nat := 1
    const k1: real := 0.5
    const k2: real := 0.5
    var open: Num
    var max: Num
    var min: Num
    var initialized: bool
    /** The ticks seen so far. */
    ghost var ticks: seq<Tick>

    ghost predicate Valid()
      reads this
    {
      && order.strategy == "DualThrust"
      && Levels(position, open, max, min, initialized) == LevelsAfter(ticks, k1, k2)
    }

    constructor ()
      ensures Valid() && ticks == []
    {
      order := Order("DualThrust", "", 0, 0, Buy, Open);
      position := 0;
      open, max, min, initialized := Fin(0.0), Fin(0.0), Fin(0.0), false;
      ticks := [];
    }

    /** The branches of `onTick`. */
    method Branches(tick: Tick) returns (reply: Option<Order>)
      requires order.strategy == "DualThrust"
      modifies this`order, this`position, this`open, this`max, this`min, this`initialized
      ensures order.strategy == "DualThrust"
      ensures var s := Widen(old(Levels(position, open, max, min, initialized)), tick.last);
        var verdict := Decide(s, tick.last, k1, k2);
        && Levels(position, open, max, min, initialized) == Moved(s, verdict)
        && reply == OrderFor(tick, lots, verdict)
    {
      if !initialized {
        open := tick.last;
        max := tick.last;
        min := tick.last;
        initialized := true;
      } else {
        max := Max(max, tick.last);
        min := Min(min, tick.last);
      }
      var range := Sub(max, min);
      var buyThreshold := Add(open, Mul(Fin(k1), range));
      var sellThreshold := Sub(open, Mul(Fin(k2), range));

      if position == 0 {
        if AtLeast(tick.last, buyThreshold) {
          order := order.(symbol := tick.symbol, timestamp := tick.stamp, volume := lots,
                          direction := Buy, offset := Open);
          position := 1;
          return Some(order);
        }
        if AtLeast(sellThreshold, tick.last) {
          order := order.(symbol := tick.symbol, timestamp := tick.stamp, volume := lots,
                          direction := Sell, offset := Open);
          position := -1;
          return Some(order);
        }
      }
      if position > 0 {
        if Less(tick.last, open) {
          order := order.(symbol := tick.symbol, timestamp := tick.stamp, volume := lots,
                          direction := Sell, offset := Close);
          position := 0;
          initialized := false;
          return Some(order);
        }
      } else if position < 0 {
        if Less(open, tick.last) {
          order := order.(symbol := tick.symbol, timestamp := tick.stamp, volume := lots,
                          direction := Buy, offset := Close);
          position := 0;
          initialized := false;
          return Some(order);
        }
      }
      return None;
    }

    /** On every run of ticks the order is the one the rule sends. */
    method OnTick(tick: Tick) returns (reply: Option<Order>)
      requires Valid()
      modifies this
      ensures Valid()
      ensures ticks == old(ticks) + [tick]
      ensures reply == OrderAt(ticks, lots)
      ensures position == PositionOf(CycleAfter(ticks))
    {
      reply := Branches(tick);
      ghost var before := ticks;
      ticks := ticks + [tick];
      assert ticks[..|before|] == before;
      CodeFollowsRule(before, k1, k2);
      CodeFollowsRule(ticks, k1, k2);
      StepFollowsRule(LevelsAfter(before, k1, k2), CycleAfter(before), tick.last, k1, k2);
    }
  }

  /** Sends a whole run of ticks through the strategy. */
  method TradeAll(ticks: seq<Tick>) returns (orders: seq<Order>)
    ensures orders == OrdersOf(ticks, 1)
  {
    var strategy := new DualThrust();
    orders := [];
    for i := 0 to |ticks|
      invariant strategy.Valid() && fresh(strategy)
      invariant strategy.ticks == ticks[..i]
      invariant orders == OrdersOf(ticks[..i], 1)
    {
      SentGrows(ticks, i, Answer(1));
      var reply := strategy.OnTick(ticks[i]);
      orders := Append(orders, reply);
    }
    assert ticks[..|ticks|] == ticks;
  }

  // ---------------------------------------------------------------- whole runs

  /** A position opened in direction `d` at `entry` is worth less at `last`. */
  predicate Loses(d: Direction, entry: Num, last: Num) {
    if d.Buy? then Less(last, entry) else Less(entry, last)
  }

  /** Tick `i` opened in direction `d`, and the position has not been under water since. */
  ghost predicate OpenedAt(ticks: seq<Tick>, i: nat, d: Direction) {
    && i < |ticks|
    && Rule(CycleAfter(ticks[..i]), ticks[i].last).1 == Some((d, Open))
    && forall j | i < j < |ticks| :: !Loses(d, ticks[i].last, ticks[j].last)
  }

  lemma {:induction false} EntryOf(ticks: seq<Tick>) returns (i: nat)
    requires CycleAfter(ticks).Long? || CycleAfter(ticks).Short?
    ensures OpenedAt(ticks, i, if CycleAfter(ticks).Long? then Buy else Sell)
    ensures ticks[i].last == if CycleAfter(ticks).Long? then CycleAfter(ticks).entry else NegInf
  {
    var n := |ticks| - 1;
    var before := CycleAfter(ticks[..n]);
    if before.Long? || before.Short? {
      i := EntryOf(ticks[..n]);
      assert ticks[..n][..i] == ticks[..i];
    } else {
      i := n;
    }
  }

  /** Every round trip loses: whenever a position is closed, an earlier tick opened it in the
      opposite direction at a strictly better price, and it has not been under water in
      between. */
  lemma EveryRoundTripLoses(ticks: seq<Tick>, lots: nat) returns (i: nat)
    requires ticks != [] && OrderAt(ticks, lots).Some? && OrderAt(ticks, lots).value.offset.Close?
    ensures i < |ticks| - 1
    ensures var d := Opposite(OrderAt(ticks, lots).value.direction);
      && OrderAt(ticks[..i + 1], lots) == OrderFor(ticks[i], lots, Some((d, Open)))
      && Loses(d, ticks[i].last, ticks[|ticks| - 1].last)
      && forall j | i < j < |ticks| - 1 :: !Loses(d, ticks[i].last, ticks[j].last)
  {
    var n := |ticks| - 1;
    i := EntryOf(ticks[..n]);
    assert ticks[..n][..i] == ticks[..i];
    assert ticks[..i + 1][..i] == ticks[..i];
    assert forall j | i < j < n :: ticks[..n][j] == ticks[j];
  }

  /** Tick `i` would start a cycle but carries NaN. */
  predicate StartsOnNaN(ticks: seq<Tick>, i: nat) {
    i < |ticks| && ticks[i].last.NaN? && CycleAfter(ticks[..i]).Waiting?
  }

  /** The strategy falls silent for good exactly when a tick that would start a cycle carries
      NaN; on finite prices it never does. */
  lemma {:induction false} SilentIff(ticks: seq<Tick>)
    ensures CycleAfter(ticks).Silent? <==> exists i :: StartsOnNaN(ticks, i)
  {
    if ticks != [] {
      var n := |ticks| - 1;
      SilentIff(ticks[..n]);
      forall i: nat | i < n ensures StartsOnNaN(ticks, i) == StartsOnNaN(ticks[..n], i) {
        assert ticks[..n][..i] == ticks[..i];
      }
      assert StartsOnNaN(ticks, n) == (ticks[n].last.NaN? && CycleAfter(ticks[..n]).Waiting?);
    }
  }

  /** Over every run opens and closes alternate, each close reverses its open, and the net
      volume sent is the position times the lots. */
  lemma {:induction false} RunKeepsBook(ticks: seq<Tick>, lots: nat)
    ensures Book(OrdersOf(ticks, lots), PositionOf(CycleAfter(ticks)), lots)
    ensures Exposure(OrdersOf(ticks, lots)) == PositionOf(CycleAfter(ticks)) * lots
  {
    if ticks != [] {
      var before := ticks[..|ticks| - 1];
      RunKeepsBook(before, lots);
      TradeKeepsBook(OrdersOf(before, lots), PositionOf(CycleAfter(before)), OrderAt(ticks, lots),
                     PositionOf(CycleAfter(ticks)), lots);
    }
    BookExposure(OrdersOf(ticks, lots), PositionOf(CycleAfter(ticks)), lots);
  }

  // ---------------------------------------------------------------- orders and their ticks

  /** An order carries the symbol and the time of the tick it answers. */
  lemma OrderIsForItsTick(ticks: seq<Tick>, lots: nat)
    requires ticks != [] && OrderAt(ticks, lots).Some?
    ensures var o, tick := OrderAt(ticks, lots).value, ticks[|ticks| - 1];
      && o.strategy == "DualThrust" && o.volume == lots
      && o.symbol == tick.symbol && o.timestamp == tick.stamp
  {
  }

  /** Over whole runs the orders are the replies to the ticks, in order, none left out and none
      added, each with the symbol and the time of its tick. */
  lemma OrdersAnswerTicks(ticks: seq<Tick>, lots: nat) returns (at: seq<nat>)
    ensures Answers(RepliesOf(ticks, Answer(lots)), at, OrdersOf(ticks, lots))
    ensures forall i | 0 <= i < |at| ::
              var o, tick := OrdersOf(ticks, lots)[i], ticks[at[i]];
              o.symbol == tick.symbol && o.timestamp == tick.stamp && o.volume == lots
  {
    at := SentAnswers(ticks, Answer(lots));
    forall i | 0 <= i < |at|
      ensures var o, tick := OrdersOf(ticks, lots)[i], ticks[at[i]];
        o.symbol == tick.symbol && o.timestamp == tick.stamp && o.volume == lots
    {
      OrderIsForItsTick(ticks[..at[i] + 1], lots);
    }
  }

  /** A cycle starts at tick `j`: the tick before answered with a close, or there was none. */
  predicate StartsCycle(replies: seq<Option<Order>>, j: nat) {
    j <= |replies| && (j == 0 || (replies[j - 1].Some? && replies[j - 1].value.offset.Close?))
  }

  /** Nothing has been sent after tick `j`. */
  predicate QuietSince(replies: seq<Option<Order>>, j: nat) {
    forall k | j < k < |replies| :: replies[k].None?
  }

  /** The last order sent is the open in direction `d` that answered tick `j`. */
  predicate LastOpened(replies: seq<Option<Order>>, j: nat, d: Direction) {
    && j < |replies| && QuietSince(replies, j)
    && replies[j].Some? && replies[j].value.offset.Open? && replies[j].value.direction == d
  }

  /** The cycle that starts at tick `j` has sent nothing yet. */
  predicate StillFlat(replies: seq<Option<Order>>, j: nat) {
    j < |replies| && StartsCycle(replies, j) && QuietSince(replies, j) && replies[j].None?
  }

  /** Some tick after `j` carries a number other than tick `j`'s. */
  predicate LeftPrice(ticks: seq<Tick>, j: nat) {
    j < |ticks| && exists k :: j < k < |ticks| && ticks[k].last != ticks[j].last && !ticks[k].last.NaN?
  }

  /** The cycle the strategy is in after a run, told from the ticks and the replies alone: `j`
      is the tick it began at. */
  predicate BeganAt(ticks: seq<Tick>, replies: seq<Option<Order>>, j: nat, c: Cycle) {
    && |replies| == |ticks|
    && match c
       case Waiting => j == |ticks| && StartsCycle(replies, j)
       case Long(entry) => LastOpened(replies, j, Buy) && ticks[j].last == entry
       case Short => LastOpened(replies, j, Sell) && ticks[j].last == NegInf
       case Poised(up, moved) => StillFlat(replies, j) && ticks[j].last == Edge(up) && LeftPrice(ticks, j) == moved
       case Silent => StillFlat(replies, j) && ticks[j].last.NaN?
  }

  lemma LeavesPrice(ticks: seq<Tick>, tick: Tick, j: nat)
    requires j < |ticks|
    ensures LeftPrice(ticks + [tick], j) <==>
              LeftPrice(ticks, j) || (tick.last != ticks[j].last && !tick.last.NaN?)
  {
    var all := ticks + [tick];
    assert forall k | 0 <= k < |ticks| :: all[k] == ticks[k];
    assert all[|ticks|] == tick;
  }

  /** One more tick: the cycle goes on, or opens or closes there. */
  lemma CycleGoesOn(ticks: seq<Tick>, replies: seq<Option<Order>>, j: nat, c: Cycle, tick: Tick) returns (j': nat)
    requires BeganAt(ticks, replies, j, c)
    ensures var (c', verdict) := Rule(c, tick.last);
      BeganAt(ticks + [tick], replies + [OrderFor(tick, 1, verdict)], j', c')
  {
    var (c', verdict) := Rule(c, tick.last);
    match verdict
    case None =>
      j' := j;
      if c.Poised? {
        LeavesPrice(ticks, tick, j);
      }
    case Some((_, offset)) => j' := if offset.Open? then |ticks| else |ticks| + 1;
  }

  lemma {:induction false} CycleBegan(ticks: seq<Tick>) returns (j: nat)
    ensures BeganAt(ticks, RepliesOf(ticks, Answer(1)), j, CycleAfter(ticks))
  {
    j := 0;
    if ticks != [] {
      var n := |ticks| - 1;
      var i := CycleBegan(ticks[..n]);
      RepliesGrow(ticks, Answer(1));
      assert ticks == ticks[..n] + [ticks[n]];
      j := CycleGoesOn(ticks[..n], RepliesOf(ticks[..n], Answer(1)), i, CycleAfter(ticks[..n]), ticks[n]);
    }
  }

  /** What is sent, on every run, told from the prices and from what was sent before. When flat,
      `j` is the tick the cycle starts at: a finite first tick is bought; a cycle that starts at
      an infinity trades when the price is back there after another number; nothing else is
      sent. In a position, `j` is the tick that opened it: it is closed exactly on a price worse
      than that of tick `j`. */
  lemma WhatIsSent(ticks: seq<Tick>) returns (j: nat)
    requires ticks != []
    ensures var n := |ticks| - 1;
      var before, last, o := ticks[..n], ticks[n].last, OrderAt(ticks, 1);
      var replies, net := RepliesOf(before, Answer(1)), Exposure(OrdersOf(before, 1));
      if net == 0 then
        && ((j == n && StartsCycle(replies, j)) || StillFlat(replies, j))
        && (o.Some? <==> if j == n then last.Fin?
                         else last in {PosInf, NegInf} && last == ticks[j].last && LeftPrice(before, j))
        && (o.Some? ==> o.value.offset == Open && o.value.direction == if last == NegInf then Sell else Buy)
      else
        var d := if net > 0 then Buy else Sell;
        && LastOpened(replies, j, d)
        && (o.Some? <==> Loses(d, ticks[j].last, last))
        && (o.Some? ==> o.value.offset == Close && o.value.direction == Opposite(d))
  {
    var before := ticks[..|ticks| - 1];
    j := CycleBegan(before);
    RunKeepsBook(before, 1);
  }

  // ---------------------------------------------------------------- the short side

  /** Every open is a buy and every close a sell. */
  predicate LongOnly(orders: seq<Order>) {
    forall i | 0 <= i < |orders| :: orders[i].direction == if orders[i].offset.Open? then Buy else Sell
  }

  /** The prices of the run come from `feed`. */
  ghost predicate PricedBy(ticks: seq<Tick>, feed: iset<Num>) {
    forall i | 0 <= i < |ticks| :: ticks[i].last in feed
  }

  /** The feed has no minus infinity, or no other number. */
  ghost predicate NeverReturnsToMinusInfinity(feed: iset<Num>) {
    NegInf !in feed || forall price: Num | price in feed :: price == NegInf || price == NaN
  }

  lemma {:induction false} StaysLong(ticks: seq<Tick>, feed: iset<Num>, lots: nat)
    requires NeverReturnsToMinusInfinity(feed) && PricedBy(ticks, feed)
    ensures LongOnly(OrdersOf(ticks, lots))
    ensures !CycleAfter(ticks).Short? && CycleAfter(ticks) != Poised(false, true)
    ensures CycleAfter(ticks) == Poised(false, false) ==> NegInf in feed
  {
    if ticks != [] {
      StaysLong(ticks[..|ticks| - 1], feed, lots);
    }
  }

  /** From minus infinity, through another price, back to minus infinity: the second visit
      sells short. */
  lemma ShortReachable(price: Num, lots: nat) returns (ticks: seq<Tick>)
    requires price != NegInf && price != NaN
    ensures PricedBy(ticks, iset{NegInf, price})
    ensures !LongOnly(OrdersOf(ticks, lots))
  {
    var bottom, elsewhere := Tick("", 0, NegInf), Tick("", 0, price);
    ticks := [bottom, elsewhere, bottom];
    assert ticks[..2] == [bottom, elsewhere] && ticks[..2][..1] == [bottom] && [bottom][..0] == [];
    assert CycleAfter([bottom]) == Poised(false, false);
    assert CycleAfter(ticks[..2]) == Poised(false, true);
    var orders := OrdersOf(ticks, lots);
    assert orders[|orders| - 1] == Order("DualThrust", "", 0, lots, Sell, Open);
  }

  /** Exactly which feeds make the short side dead code: no run over the feed's prices ever
      sells short if and only if the feed has no minus infinity or no other number. */
  lemma NeverShortIff(feed: iset<Num>, lots: nat)
    ensures (forall ticks: seq<Tick> | PricedBy(ticks, feed) :: LongOnly(OrdersOf(ticks, lots)))
            <==> NeverReturnsToMinusInfinity(feed)
  {
    if NeverReturnsToMinusInfinity(feed) {
      forall ticks: seq<Tick> | PricedBy(ticks, feed) ensures LongOnly(OrdersOf(ticks, lots)) {
        StaysLong(ticks, feed, lots);
      }
    } else {
      var price: Num :| price in feed && price != NegInf && price != NaN;
      var ticks := ShortReachable(price, lots);
      assert PricedBy(ticks, feed);
    }
  }
}
