/** Bar aggregation: the fold over ticks in place, against grouping the whole history by
    interval and aggregating each group. */
module Bars {
  import opened Calendar
  import opened Options

  const SYMBOL_LENGTH: nat := 15

  /** The fields of a market-data record that bars are made of. `volume` and `turnover` are
      cumulative over the day. */
  datatype Quote = Quote(
    instrument: string, date: Date, clock: Clock, millisec: int,
    price: real, volume: int, turnover: real, openInterest: real)

  datatype Bar = Bar(
    symbol: string, stampStart: int, stampLast: int,
    open: real, high: real, low: real, close: real,
    volume: int, amount: real, oi: real, adj: real)

  // ---------------------------------------------------------------- intervals

  /** An interval in seconds; zero would divide by zero. */
  type Interval = i: int | i != 0 witness 1

  function Length(interval: int): (n: int)
    requires interval != 0
    ensures n > 0
  {
    if interval < 0 then -interval else interval
  }

  /** The remainder of C++: it has the sign of the dividend. */
  function TruncMod(a: int, b: Interval): int {
    if a >= 0 then a % Length(b) else -((-a) % Length(b))
  }

  function FloorToInterval(t: int, interval: Interval): int {
    t - TruncMod(t, interval)
  }

  lemma {:induction false} ProductMonotone(a: int, b: int, n: int)
    requires a <= b && n > 0
    ensures a * n <= b * n
  {
    var d := b - a;
    assert d * n >= 0;
    assert b * n == a * n + d * n;
  }

  lemma QuotientMonotone(t: int, u: int, n: int)
    requires 0 <= t <= u && n > 0
    ensures t / n <= u / n
  {
    if u / n + 1 <= t / n {
      ProductMonotone(u / n + 1, t / n, n);
    }
  }

  /** From the epoch on, the result is the multiple of the interval at or just below the time,
      and it is monotone in the time. */
  lemma FloorFromEpoch(t: int, u: int, interval: int)
    requires 0 <= t <= u && interval > 0
    ensures FloorToInterval(t, interval) == t / interval * interval
    ensures FloorToInterval(t, interval) <= t < FloorToInterval(t, interval) + interval
    ensures FloorToInterval(t, interval) <= FloorToInterval(u, interval)
  {
    assert t / interval <= u / interval by { QuotientMonotone(t, u, interval); }
    ProductMonotone(t / interval, u / interval, interval);
  }

  lemma RemainderUnique(t: int, q: int, r: int, n: int)
    requires 0 <= r < n && t == q * n + r
    ensures t % n == r
  {
    var d := t / n - q;
    assert d * n == r - t % n;
    if d >= 1 {
      ProductMonotone(1, d, n);
    } else if d <= -1 {
      ProductMonotone(d, -1, n);
    }
  }

  lemma {:induction false} RemainderOfNegated(t: int, n: int)
    requires n > 0
    ensures (-t) % n == if t % n == 0 then 0 else n - t % n
  {
    var q, r := t / n, t % n;
    assert t == q * n + r;
    if r == 0 {
      assert -t == (-q) * n;
      RemainderUnique(-t, -q, 0, n);
    } else {
      assert -t == (-q - 1) * n + (n - r);
      RemainderUnique(-t, -q - 1, n - r, n);
    }
  }

  /** Exactly when the function floors, that is, gives the multiple of the interval at or just
      below the time: from the epoch on and at multiples. At every other time it gives the
      next multiple, so that the bar starts after its tick. */
  lemma FloorsIff(t: int, interval: Interval)
    ensures var n := Length(interval);
      && (FloorToInterval(t, interval) == t - t % n <==> t >= 0 || t % n == 0)
      && (t < 0 && t % n != 0 ==> FloorToInterval(t, interval) == t - t % n + n > t)
  {
    RemainderOfNegated(t, Length(interval));
  }

  // ---------------------------------------------------------------- groups

  /** The bar a quote belongs to, by its start in milliseconds. */
  function StartOf(q: Quote, interval: Interval): int
  {
    FloorToInterval(Seconds(q.date, q.clock), interval) * 1000
  }

  function LastStamp(q: Quote): int {
    Stamp(q.date, q.clock, q.millisec)
  }

  /** A one-minute bar of the last half minute before 1970 starts after its tick. */
  lemma BarStartsAfterTick(q: Quote)
    requires q.date == Date(1969, 12, 31) && q.clock == Clock(23, 59, 30) && q.millisec == 0
    ensures LastStamp(q) == -30_000 && StartOf(q, 60) == 0
  {
    YearEnd(1969);
    FloorsIff(-30, 60);
  }

  /** What quotes are grouped by. */
  type Key = Quote -> int

  function StartKey(interval: Interval): Key {
    q => StartOf(q, interval)
  }

  /** Quote `k` of a history does not belong to the bar of the quote before it. */
  predicate Opens(quotes: seq<Quote>, k: nat, key: Key)
    requires k < |quotes|
  {
    k == 0 || key(quotes[k]) != key(quotes[k - 1])
  }

  /** Where the last group of a history begins. */
  function Cut(quotes: seq<Quote>, key: Key): (k: nat)
    requires quotes != []
    ensures k < |quotes|
  {
    var n := |quotes| - 1;
    if Opens(quotes, n, key) then n else Cut(quotes[..n], key)
  }

  /** The history cut into groups. */
  function Groups(quotes: seq<Quote>, key: Key): seq<seq<Quote>>
    decreases |quotes|
  {
    if quotes == [] then []
    else Groups(quotes[..Cut(quotes, key)], key) + [quotes[Cut(quotes, key)..]]
  }

  function Flatten(gs: seq<seq<Quote>>): seq<Quote> {
    if gs == [] then [] else Flatten(gs[..|gs| - 1]) + gs[|gs| - 1]
  }

  predicate SameKey(g: seq<Quote>, key: Key) {
    g != [] && forall i | 0 <= i < |g| :: key(g[i]) == key(g[0])
  }

  /** The last group is a maximal run of equal keys. */
  lemma {:induction false} CutIsMaximal(quotes: seq<Quote>, key: Key)
    requires quotes != []
    ensures var k := Cut(quotes, key);
      && Opens(quotes, k, key)
      && (forall i | k <= i < |quotes| :: key(quotes[i]) == key(quotes[|quotes| - 1]))
  {
    var n := |quotes| - 1;
    if !Opens(quotes, n, key) {
      CutIsMaximal(quotes[..n], key);
    }
  }

  /** The groups, end to end, are the history. */
  lemma {:induction false} GroupsFlatten(quotes: seq<Quote>, key: Key)
    ensures Flatten(Groups(quotes, key)) == quotes
    decreases |quotes|
  {
    if quotes != [] {
      var c := Cut(quotes, key);
      var gs := Groups(quotes[..c], key);
      GroupsFlatten(quotes[..c], key);
      assert (gs + [quotes[c..]])[..|gs|] == gs;
      assert quotes == quotes[..c] + quotes[c..];
    }
  }

  predicate Differ(gs: seq<seq<Quote>>, k: nat, key: Key)
    requires 0 < k < |gs|
  {
    gs[k - 1] != [] && gs[k] != [] && key(gs[k - 1][0]) != key(gs[k][0])
  }

  /** Each group has one key, and the next group another. */
  ghost predicate MaximalRuns(gs: seq<seq<Quote>>, key: Key) {
    && (forall k | 0 <= k < |gs| :: SameKey(gs[k], key))
    && (forall k | 0 < k < |gs| :: Differ(gs, k, key))
  }

  /** The last group has one key, another than the quote before it. */
  lemma LastGroup(quotes: seq<Quote>, key: Key)
    requires quotes != []
    ensures var c := Cut(quotes, key);
      && SameKey(quotes[c..], key)
      && key(quotes[c]) == key(quotes[|quotes| - 1])
      && (c > 0 ==> key(quotes[c - 1]) != key(quotes[c]))
  {
    CutIsMaximal(quotes, key);
  }

  lemma AppendRun(gs: seq<seq<Quote>>, g: seq<Quote>, key: Key)
    requires MaximalRuns(gs, key) && SameKey(g, key)
    requires gs != [] ==> gs[|gs| - 1] != [] && key(gs[|gs| - 1][0]) != key(g[0])
    ensures MaximalRuns(gs + [g], key)
  {
    forall k | 0 < k < |gs + [g]| ensures Differ(gs + [g], k, key) {
      assert k < |gs| ==> Differ(gs, k, key);
    }
  }

  lemma {:induction false} GroupsMaximal(quotes: seq<Quote>, key: Key)
    ensures MaximalRuns(Groups(quotes, key), key)
    ensures quotes != [] ==> var gs := Groups(quotes, key);
              gs != [] && gs[|gs| - 1] != [] && key(gs[|gs| - 1][0]) == key(quotes[|quotes| - 1])
    decreases |quotes|
  {
    if quotes != [] {
      var c := Cut(quotes, key);
      GroupsMaximal(quotes[..c], key);
      LastGroup(quotes, key);
      AppendRun(Groups(quotes[..c], key), quotes[c..], key);
    }
  }

  // ---------------------------------------------------------------- aggregation from scratch

  function Highest(g: seq<Quote>): real
    requires g != []
  {
    var last := g[|g| - 1].price;
    if |g| == 1 then last
    else
      var p := Highest(g[..|g| - 1]);
      if p < last then last else p
  }

  function Lowest(g: seq<Quote>): real
    requires g != []
  {
    var last := g[|g| - 1].price;
    if |g| == 1 then last
    else
      var p := Lowest(g[..|g| - 1]);
      if last < p then last else p
  }

  /** High and low are the largest and the smallest price of the group. */
  lemma {:induction false} PriceRange(g: seq<Quote>)
    requires g != []
    ensures forall i | 0 <= i < |g| :: Lowest(g) <= g[i].price <= Highest(g)
    ensures exists i :: 0 <= i < |g| && g[i].price == Highest(g)
    ensures exists i :: 0 <= i < |g| && g[i].price == Lowest(g)
  {
    var n := |g| - 1;
    assert g[n].price == g[n].price;
    if n > 0 {
      PriceRange(g[..n]);
      var hi :| 0 <= hi < n && g[..n][hi].price == Highest(g[..n]);
      var lo :| 0 <= lo < n && g[..n][lo].price == Lowest(g[..n]);
      assert g[hi].price == Highest(g[..n]) && g[lo].price == Lowest(g[..n]);
      assert forall i | 0 <= i < n :: g[..n][i] == g[i];
    }
  }

  /** The latest quote of a history that did not open a bar, or the very first one. */
  function Anchor(quotes: seq<Quote>, key: Key): Quote
    requires quotes != []
  {
    var n := |quotes| - 1;
    if n == 0 then quotes[0]
    else if Opens(quotes, n, key) then Anchor(quotes[..n], key)
    else quotes[n]
  }

  /** The quote whose cumulative figures the last group is counted from: the anchor of what
      came before the group. */
  function Base(quotes: seq<Quote>, key: Key): Quote
    requires quotes != []
  {
    var c := Cut(quotes, key);
    if c == 0 then quotes[0] else Anchor(quotes[..c], key)
  }

  function Symbol(instrument: string): string {
    if |instrument| <= SYMBOL_LENGTH then instrument else instrument[..SYMBOL_LENGTH]
  }

  /** The bar of a group of quotes, given the quote its volume is counted from. A bar of one
      quote has no volume of its own. */
  function BarOf(g: seq<Quote>, base: Quote, key: Key): Bar
    requires g != []
  {
    var first, last := g[0], g[|g| - 1];
    Bar(Symbol(first.instrument), key(first), LastStamp(last),
        first.price, Highest(g), Lowest(g), last.price,
        if |g| == 1 then 0 else last.volume - base.volume,
        if |g| == 1 then 0.0 else last.turnover - base.turnover,
        last.openInterest, 1.0)
  }

  /** The bar of the last group of a history. */
  function LastBar(quotes: seq<Quote>, key: Key): Bar
    requires quotes != []
  {
    BarOf(quotes[Cut(quotes, key)..], Base(quotes, key), key)
  }

  /** All the bars of a history, the last one still growing. */
  function BarsOf(quotes: seq<Quote>, key: Key): seq<Bar>
    decreases |quotes|
  {
    if quotes == [] then []
    else BarsOf(quotes[..Cut(quotes, key)], key) + [LastBar(quotes, key)]
  }

  // ---------------------------------------------------------------- one more quote

  /** The bar of a single quote. */
  function OpeningBar(q: Quote, key: Key): Bar {
    Bar(Symbol(q.instrument), key(q), LastStamp(q), q.price, q.price, q.price, q.price,
        0, 0.0, q.openInterest, 1.0)
  }

  /** A quote that opens a bar is counted from the anchor of what came before. */
  lemma QuoteOpens(quotes: seq<Quote>, q: Quote, key: Key)
    requires quotes != [] && key(q) != key(quotes[|quotes| - 1])
    ensures LastBar(quotes + [q], key) == OpeningBar(q, key)
    ensures Base(quotes + [q], key) == Anchor(quotes, key)
  {
    assert (quotes + [q])[..|quotes|] == quotes;
    assert (quotes + [q])[|quotes|..] == [q];
    assert LastBar(quotes + [q], key) == BarOf([q], Anchor(quotes, key), key);
  }

  lemma SameCut(quotes: seq<Quote>, q: Quote, key: Key)
    requires quotes != [] && key(q) == key(quotes[|quotes| - 1])
    ensures Cut(quotes + [q], key) == Cut(quotes, key)
  {
    assert (quotes + [q])[..|quotes|] == quotes;
  }

  function ExtendedBar(b: Bar, q: Quote, baseVolume: int, baseTurnover: real): Bar {
    b.(stampLast := LastStamp(q),
       high := if b.high < q.price then q.price else b.high,
       low := if q.price < b.low then q.price else b.low,
       close := q.price,
       volume := q.volume - baseVolume,
       amount := q.turnover - baseTurnover,
       oi := q.openInterest)
  }

  lemma ExtendGroup(g: seq<Quote>, q: Quote, base: Quote, key: Key)
    requires g != []
    ensures BarOf(g + [q], base, key) == ExtendedBar(BarOf(g, base, key), q, base.volume, base.turnover)
  {
    assert (g + [q])[..|g|] == g;
  }

  /** A quote within the bar extends its group, which stays counted from the same base. */
  lemma QuoteExtends(quotes: seq<Quote>, q: Quote, key: Key)
    requires quotes != [] && key(q) == key(quotes[|quotes| - 1])
    ensures Base(quotes + [q], key) == Base(quotes, key)
    ensures var base := Base(quotes, key);
      LastBar(quotes + [q], key) == ExtendedBar(LastBar(quotes, key), q, base.volume, base.turnover)
  {
    var c := Cut(quotes, key);
    SameCut(quotes, q, key);
    assert (quotes + [q])[..c] == quotes[..c];
    assert (quotes + [q])[c..] == quotes[c..] + [q];
    ExtendGroup(quotes[c..], q, Base(quotes, key), key);
  }

  lemma LastBarStart(quotes: seq<Quote>, key: Key)
    requires quotes != []
    ensures LastBar(quotes, key).stampStart == key(quotes[|quotes| - 1])
  {
    CutIsMaximal(quotes, key);
  }

  /** What the last bar adds to its base takes it to the anchor. */
  lemma BaseToAnchor(quotes: seq<Quote>, key: Key)
    requires quotes != []
    ensures Base(quotes, key).volume + LastBar(quotes, key).volume == Anchor(quotes, key).volume
    ensures Base(quotes, key).turnover + LastBar(quotes, key).amount == Anchor(quotes, key).turnover
  {
    var n := |quotes| - 1;
    if !Opens(quotes, n, key) {
      assert Cut(quotes, key) < n;
    }
  }

  /** How the last bar and the figures it is counted from follow one more quote. */
  lemma NextBar(quotes: seq<Quote>, q: Quote, key: Key)
    requires quotes != []
    ensures var bar, bar' := LastBar(quotes, key), LastBar(quotes + [q], key);
      var base, base' := Base(quotes, key), Base(quotes + [q], key);
      if key(q) != bar.stampStart then
        && bar' == OpeningBar(q, key)
        && base'.volume == base.volume + bar.volume
        && base'.turnover == base.turnover + bar.amount
      else
        && bar' == ExtendedBar(bar, q, base.volume, base.turnover)
        && base' == base
  {
    LastBarStart(quotes, key);
    if key(q) != key(quotes[|quotes| - 1]) {
      QuoteOpens(quotes, q, key);
      BaseToAnchor(quotes, key);
    } else {
      QuoteExtends(quotes, q, key);
    }
  }

  // ---------------------------------------------------------------- the generator in place

  /** A bar replaces the last one kept while their starts agree. */
  function Keep(bars: seq<Bar>, bar: Bar): seq<Bar> {
    if bars != [] && bars[|bars| - 1].stampStart == bar.stampStart then bars[..|bars| - 1] + [bar]
    else bars + [bar]
  }

  lemma LastOfBars(quotes: seq<Quote>, key: Key)
    requires quotes != []
    ensures var bars := BarsOf(quotes, key);
      bars != [] && bars[|bars| - 1] == LastBar(quotes, key)
      && bars[..|bars| - 1] == BarsOf(quotes[..Cut(quotes, key)], key)
  {
  }

  lemma BarsGrow(quotes: seq<Quote>, q: Quote, key: Key)
    ensures BarsOf(quotes + [q], key) == Keep(BarsOf(quotes, key), LastBar(quotes + [q], key))
  {
    var all := quotes + [q];
    assert all[..|quotes|] == quotes;
    LastBarStart(all, key);
    LastOfBars(all, key);
    if quotes != [] {
      LastBarStart(quotes, key);
      LastOfBars(quotes, key);
      if key(q) == key(quotes[|quotes| - 1]) {
        SameCut(quotes, q, key);
        assert all[..Cut(quotes, key)] == quotes[..Cut(quotes, key)];
      } else {
        assert Cut(all, key) == |quotes|;
      }
    }
  }

  lemma BarsGrowAt(run: seq<Quote>, i: nat, key: Key)
    requires i < |run|
    ensures run[..i] + [run[i]] == run[..i + 1]
    ensures BarsOf(run[..i + 1], key) == Keep(BarsOf(run[..i], key), LastBar(run[..i + 1], key))
  {
    assert run[..i] + [run[i]] == run[..i + 1];
    BarsGrow(run[..i], run[i], key);
  }

  class BarGenerator {
    const interval: Interval
    var current: Option<Bar>
    var lastBarVol: int
    var lastBarAmt: real
    /** The quotes processed so far. */
    ghost var quotes: seq<Quote>

    ghost predicate Valid()
      reads this
    {
      if quotes == [] then current == None
         else && current == Some(LastBar(quotes, StartKey(interval)))
              && lastBarVol == Base(quotes, StartKey(interval)).volume
              && lastBarAmt == Base(quotes, StartKey(interval)).turnover
    }

    constructor (interval: Interval)
      ensures Valid() && quotes == [] && this.interval == interval
    {
      this.interval := interval;
      current, lastBarVol, lastBarAmt := None, 0, 0.0;
      quotes := [];
    }

    /** The branches of `process_tick`. */
    method Branches(q: Quote) returns (bar: Bar)
      modifies this`current, this`lastBarVol, this`lastBarAmt
      ensures current == Some(bar)
      ensures match old(current)
              case None =>
                bar == OpeningBar(q, StartKey(interval)) && lastBarVol == q.volume && lastBarAmt == q.turnover
              case Some(c) =>
                if StartOf(q, interval) != c.stampStart then
                  && bar == OpeningBar(q, StartKey(interval))
                  && lastBarVol == old(lastBarVol) + c.volume && lastBarAmt == old(lastBarAmt) + c.amount
                else
                  && bar == ExtendedBar(c, q, lastBarVol, lastBarAmt)
                  && lastBarVol == old(lastBarVol) && lastBarAmt == old(lastBarAmt)
    {
      var tpLast := Seconds(q.date, q.clock);
      var tpStart := FloorToInterval(tpLast, interval);
      var stampLast := tpLast * 1000 + q.millisec;
      var stampStart := tpStart * 1000;
      if current == None {
        lastBarVol := q.volume;
        lastBarAmt := q.turnover;
        current := Some(Bar(Symbol(q.instrument), stampStart, stampLast,
                            q.price, q.price, q.price, q.price, 0, 0.0, q.openInterest, 1.0));
        return current.value;
      }
      if stampStart != current.value.stampStart {
        lastBarVol := lastBarVol + current.value.volume;
        lastBarAmt := lastBarAmt + current.value.amount;
        current := Some(Bar(Symbol(q.instrument), stampStart, stampLast,
                            q.price, q.price, q.price, q.price, 0, 0.0, q.openInterest, 1.0));
        return current.value;
      }
      var c := current.value;
      current := Some(c.(stampLast := stampLast,
                         high := if c.high < q.price then q.price else c.high,
                         low := if q.price < c.low then q.price else c.low,
                         close := q.price,
                         volume := q.volume - lastBarVol,
                         amount := q.turnover - lastBarAmt,
                         oi := q.openInterest));
      return current.value;
    }

    /** On every run of quotes the bar returned is the aggregate of the last group. */
    method ProcessTick(q: Quote) returns (bar: Bar)
      requires Valid()
      modifies this
      ensures Valid() && quotes == old(quotes) + [q]
      ensures bar == LastBar(quotes, StartKey(interval))
    {
      ghost var before, key := quotes, StartKey(interval);
      bar := Branches(q);
      quotes := before + [q];
      if before == [] {
        assert quotes == [q];
      } else {
        NextBar(before, q, key);
      }
    }

    /** Processes a whole run and keeps every bar. */
    method ProcessAll(run: seq<Quote>) returns (bars: seq<Bar>)
      requires Valid() && quotes == []
      modifies this
      ensures Valid() && quotes == run
      ensures bars == BarsOf(run, StartKey(interval))
    {
      bars := [];
      for i := 0 to |run|
        invariant Valid() && quotes == run[..i]
        invariant bars == BarsOf(run[..i], StartKey(interval))
      {
        BarsGrowAt(run, i, StartKey(interval));
        var bar := ProcessTick(run[i]);
        bars := Keep(bars, bar);
      }
      assert run[..|run|] == run;
    }
  }

  // ---------------------------------------------------------------- what the bars promise

  predicate Summarises(b: Bar, g: seq<Quote>, key: Key) {
    && g != []
    && b.symbol <= g[0].instrument
    && |b.symbol| == (if |g[0].instrument| < 15 then |g[0].instrument| else 15)
    && b.stampStart == key(g[0])
    && (var last := g[|g| - 1];
        b.close == last.price && b.oi == last.openInterest
        && b.stampLast == Stamp(last.date, last.clock, last.millisec))
    && b.open == g[0].price && b.adj == 1.0
    && (forall i | 0 <= i < |g| :: b.low <= g[i].price <= b.high)
    && (exists i :: 0 <= i < |g| && g[i].price == b.low)
    && (exists i :: 0 <= i < |g| && g[i].price == b.high)
  }

  lemma BarSummarises(g: seq<Quote>, base: Quote, key: Key)
    requires g != []
    ensures Summarises(BarOf(g, base, key), g, key)
  {
    PriceRange(g);
  }

  /** Open and close lie between low and high, and the bars carry the prices and stamps of
      their groups. */
  lemma {:induction false} BarsMatchGroups(quotes: seq<Quote>, key: Key)
    ensures var gs, bars := Groups(quotes, key), BarsOf(quotes, key);
      && |bars| == |gs|
      && forall k | 0 <= k < |gs| :: Summarises(bars[k], gs[k], key)
    decreases |quotes|
  {
    if quotes != [] {
      var c := Cut(quotes, key);
      BarsMatchGroups(quotes[..c], key);
      BarSummarises(quotes[c..], Base(quotes, key), key);
    }
  }

  /** The last bar is that of the last group. */
  lemma LastBarMatchesGroup(quotes: seq<Quote>, key: Key)
    requires quotes != []
    ensures var gs := Groups(quotes, key);
      gs != [] && Summarises(LastBar(quotes, key), gs[|gs| - 1], key)
  {
    BarSummarises(quotes[Cut(quotes, key)..], Base(quotes, key), key);
  }

  function TotalVolume(bars: seq<Bar>): int {
    if bars == [] then 0 else TotalVolume(bars[..|bars| - 1]) + bars[|bars| - 1].volume
  }

  function TotalAmount(bars: seq<Bar>): real {
    if bars == [] then 0.0 else TotalAmount(bars[..|bars| - 1]) + bars[|bars| - 1].amount
  }

  /** Quote `i` is the first of all or did not open a bar, and all later ones opened one. */
  predicate IsAnchor(quotes: seq<Quote>, i: nat, key: Key) {
    && i < |quotes|
    && (i == 0 || key(quotes[i]) == key(quotes[i - 1]))
    && forall j | i < j < |quotes| :: key(quotes[j]) != key(quotes[j - 1])
  }

  lemma {:induction false} AnchorIsLatest(quotes: seq<Quote>, key: Key) returns (i: nat)
    requires quotes != []
    ensures IsAnchor(quotes, i, key) && quotes[i] == Anchor(quotes, key)
  {
    var n := |quotes| - 1;
    i := n;
    if n > 0 && Opens(quotes, n, key) {
      i := AnchorIsLatest(quotes[..n], key);
      assert forall j | i < j < n :: key(quotes[..n][j]) != key(quotes[..n][j - 1]);
    }
  }

  lemma {:induction false} TotalsReachAnchor(quotes: seq<Quote>, key: Key)
    requires quotes != []
    ensures quotes[0].volume + TotalVolume(BarsOf(quotes, key)) == Anchor(quotes, key).volume
    ensures quotes[0].turnover + TotalAmount(BarsOf(quotes, key)) == Anchor(quotes, key).turnover
    decreases |quotes|
  {
    var c := Cut(quotes, key);
    var before := BarsOf(quotes[..c], key);
    assert (before + [LastBar(quotes, key)])[..|before|] == before;
    BaseToAnchor(quotes, key);
    if c > 0 {
      TotalsReachAnchor(quotes[..c], key);
    }
  }

  /** Conservation: the first cumulative figures plus all bars are the cumulative figures at the
      latest quote that did not open a bar. A bar of one quote defers its volume to the next,
      and none is lost or counted twice. */
  lemma VolumeConserved(quotes: seq<Quote>, key: Key) returns (i: nat)
    requires quotes != []
    ensures IsAnchor(quotes, i, key)
    ensures quotes[0].volume + TotalVolume(BarsOf(quotes, key)) == quotes[i].volume
    ensures quotes[0].turnover + TotalAmount(BarsOf(quotes, key)) == quotes[i].turnover
  {
    TotalsReachAnchor(quotes, key);
    i := AnchorIsLatest(quotes, key);
  }

  predicate VolumeGrows(quotes: seq<Quote>) {
    forall i, j | 0 <= i <= j < |quotes| :: quotes[i].volume <= quotes[j].volume
  }

  predicate TurnoverGrows(quotes: seq<Quote>) {
    forall i, j | 0 <= i <= j < |quotes| :: quotes[i].turnover <= quotes[j].turnover
  }

  /** The last group is counted from a quote of the history. */
  lemma BaseIsQuote(quotes: seq<Quote>, key: Key)
    requires quotes != []
    ensures exists i :: 0 <= i < |quotes| && quotes[i] == Base(quotes, key)
  {
    var c := Cut(quotes, key);
    if c == 0 {
      assert quotes[0] == Base(quotes, key);
    } else {
      var i := AnchorIsLatest(quotes[..c], key);
      assert quotes[i] == Base(quotes, key);
    }
  }

  /** Cumulative volume that never falls gives bars of non-negative volume, and cumulative
      turnover that never falls bars of non-negative amount. */
  lemma {:induction false} FiguresNonNegative(quotes: seq<Quote>, key: Key)
    ensures VolumeGrows(quotes) ==> forall bar | bar in BarsOf(quotes, key) :: bar.volume >= 0
    ensures TurnoverGrows(quotes) ==> forall bar | bar in BarsOf(quotes, key) :: bar.amount >= 0.0
    decreases |quotes|
  {
    if quotes != [] {
      FiguresNonNegative(quotes[..Cut(quotes, key)], key);
      BaseIsQuote(quotes, key);
    }
  }

  predicate TimeGrows(quotes: seq<Quote>) {
    && (forall i | 0 <= i < |quotes| :: 0 <= Seconds(quotes[i].date, quotes[i].clock) && 0 <= quotes[i].millisec < 1000)
    && (forall i, j | 0 <= i <= j < |quotes| ::
          Seconds(quotes[i].date, quotes[i].clock) <= Seconds(quotes[j].date, quotes[j].clock))
  }

  /** Every quote's stamp lies within `length` of its key, and the keys never fall. */
  predicate KeysGrow(quotes: seq<Quote>, key: Key, length: int) {
    && (forall i | 0 <= i < |quotes| :: key(quotes[i]) <= LastStamp(quotes[i]) < key(quotes[i]) + length)
    && (forall i, j | 0 <= i <= j < |quotes| :: key(quotes[i]) <= key(quotes[j]))
  }

  predicate StartsGrow(bars: seq<Bar>, length: int) {
    && (forall k | 0 <= k < |bars| :: bars[k].stampStart <= bars[k].stampLast < bars[k].stampStart + length)
    && (forall k | 0 < k < |bars| :: bars[k - 1].stampStart < bars[k].stampStart)
  }

  lemma AppendBar(bars: seq<Bar>, bar: Bar, length: int)
    requires StartsGrow(bars, length)
    requires bar.stampStart <= bar.stampLast < bar.stampStart + length
    requires bars != [] ==> bars[|bars| - 1].stampStart < bar.stampStart
    ensures StartsGrow(bars + [bar], length)
  {
  }

  lemma {:induction false} KeysOrderBars(quotes: seq<Quote>, key: Key, length: int)
    requires KeysGrow(quotes, key, length)
    ensures StartsGrow(BarsOf(quotes, key), length)
    decreases |quotes|
  {
    if quotes != [] {
      var c := Cut(quotes, key);
      KeysOrderBars(quotes[..c], key, length);
      LastGroup(quotes, key);
      LastBarStart(quotes, key);
      if c > 0 {
        LastBarStart(quotes[..c], key);
        LastOfBars(quotes[..c], key);
      }
      AppendBar(BarsOf(quotes[..c], key), LastBar(quotes, key), length);
    }
  }

  /** From the epoch on a bar starts at the multiple of the interval at or just below its
      ticks. */
  lemma StartIsBoundary(q: Quote, interval: Interval)
    requires interval > 0 && 0 <= Seconds(q.date, q.clock)
    ensures StartOf(q, interval) == Seconds(q.date, q.clock) / interval * interval * 1000
  {
    FloorFromEpoch(Seconds(q.date, q.clock), Seconds(q.date, q.clock), interval);
  }

  lemma FloorOrdersQuotes(a: Quote, b: Quote, interval: Interval)
    requires interval > 0 && 0 <= Seconds(a.date, a.clock) <= Seconds(b.date, b.clock)
    requires 0 <= a.millisec < 1000
    ensures StartOf(a, interval) <= StartOf(b, interval)
    ensures StartOf(a, interval) <= LastStamp(a) < StartOf(a, interval) + interval * 1000
  {
    FloorFromEpoch(Seconds(a.date, a.clock), Seconds(b.date, b.clock), interval);
  }

  /** For times from the epoch on that never go back, bar starts strictly increase, and the
      last stamp of a bar lies in its interval. */
  lemma StartsIncrease(quotes: seq<Quote>, interval: Interval)
    requires TimeGrows(quotes) && interval > 0
    ensures StartsGrow(BarsOf(quotes, StartKey(interval)), interval * 1000)
  {
    forall i, j | 0 <= i <= j < |quotes|
      ensures var key := StartKey(interval);
        && key(quotes[i]) <= key(quotes[j])
        && key(quotes[i]) <= LastStamp(quotes[i]) < key(quotes[i]) + interval * 1000
    {
      FloorOrdersQuotes(quotes[i], quotes[j], interval);
    }
    KeysOrderBars(quotes, StartKey(interval), interval * 1000);
  }
}
