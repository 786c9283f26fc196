# Verified model of futrader's channels, rolling statistics, bars and strategies

`futrader` moves orders between threads through two lock-free rings, turns exchange ticks into
bars, and runs two trading strategies on rolling statistics. This project models that core in
Dafny and proves what it promises, or exactly when it keeps the promise.

| files | what they model |
|---|---|
| `Options.dfy` | a value that may be missing |
| `Words.dfy` | 64-bit counters that wrap, `pos & MASK`, the `BufSize` test |
| `SpscProtocol.dfy`, `SpscRing.dfy` | single-producer / single-consumer ring |
| `MpscProtocol.dfy` | multi-producer ring: one step per atomic access, parking, notification |
| `MpscSlots.dfy`, `MpscBounds.dfy`, `MpscWakeups.dfy`, `MpscStall.dfy`, `MpscFifo.dfy` | what holds in every reachable state of it |
| `MpscRing.dfy` | the multi-producer ring on arrays and 64-bit words |
| `Numbers.dfy`, `Moments.dfy`, `Windows.dfy`, `Rolling.dfy` | rolling sums, mean, variance, skew |
| `Trading.dfy`, `Aberration.dfy`, `DualThrust.dfy` | the two strategies |
| `Calendar.dfy`, `Bars.dfy` | timestamps and bar aggregation |

The rings are modelled twice. A step machine with unbounded counters carries the proofs about
interleavings: every atomic access is one step, the plain read and write of a slot are steps of
their own, `wait` blocks only if the value is still the one passed in, and `notify_one` unblocks a
non-empty choice of eligible waiters (section 31.6 of ISO/IEC 14882:2020); waiters may also be
unblocked spuriously. The classes `Spsc` and `Mpsc` then hold the real arrays and words. Each of
their methods is one line of `push` or `pop`, proved to be the machine's step on the counters the
words stand for, and `Push` and `Pop` put the lines together as the source does, with any schedule
of the other threads in between. The rolling operators, strategies, bar generator and timestamp
calculator are classes updated in place, each proved against a specification computed from the
whole history.

## Where the code does not do what its comments say

- `push` is said to return false when the queue is "(definitely) full" (src/channel/mpsc.hpp:62).
  If the consumer moves past the head a producer has loaded before that producer loads the tail,
  the unsigned difference wraps and an empty queue refuses the push (`RefusedWhileEmpty`);
  `RefusalExplained` gives the two cases of a refusal. The other way round, a head loaded before
  others filled the ring lets a push through although the ring is full. `VerdictExactIff` is the
  exact condition for either direction: at most one producer.
- `notify_one` is meant to wake the producer waiting for the slot (src/channel/mpsc.hpp:148). The
  size check and the ticket are separate accesses, so with `BufSize + 2` producers or more, tickets
  a lap apart can sleep on one slot and the wrong one may be woken; then the queue never gets past
  that ticket (`ForgottenForever`). `NoLostWakeupIff` is the exact condition: at most
  `BufSize + 1` producers; `DeliveryIff` shows that it is also the exact condition for every push
  that has drawn a ticket to be delivered by every fair schedule.
- `floor_to_interval` rounds up before 1970 (`FloorsIff`), so that a bar starts after its tick
  (`BarStartsAfterTick`).
- `DualThrust` has a short side and a breakout range. On finite prices neither can ever matter: it
  buys on the first tick of every cycle and sells on the first tick below that price
  (`CodeFollowsRule`). Whatever the prices, every round trip loses (`EveryRoundTripLoses`), a NaN on
  the first tick of a cycle silences the strategy for good (`SilentIff`), and only a feed that leaves
  minus infinity and returns to it makes it sell short (`NeverShortIff`).

## Model

| member | source | states |
|---|---|---|
| `Words.PowerOfTwoTest` | src/channel/mpsc.hpp:21 | the template constraint `(b & (b - 1)) == 0` holds of exactly the powers of two |
| `Words.MaskFindsSlot` | src/channel/mpsc.hpp:90 | masking a counter that wraps at 2^64 finds the slot that counting laps of the unbounded counter finds, for every legal `BufSize` |
| `SpscProtocol.StepRefinesFifo` | src/channel/spsc.hpp:48-95 | forward simulation: every step of either thread leaves the queue alone or completes one call that a bounded FIFO could answer so; a refusal sees a full queue, an empty pop an empty one |
| `SpscProtocol.LinearizableFromInit` | src/channel/spsc.hpp:34-95 | under every interleaving the completed calls, in completion order, replay on a bounded FIFO and leave there what the ring holds |
| `SpscProtocol.FifoConserves` | src/channel/spsc.hpp:48-95 | items accepted = items returned, in order, followed by what is queued, which never exceeds the capacity |
| `SpscProtocol.NoDataRace` | src/channel/spsc.hpp:58-59 | the slot about to be written is never the slot about to be read |
| `SpscRing.Spsc.constructor` | src/channel/spsc.hpp:17-25 | a new ring is the machine's initial state |
| `SpscRing.Spsc.CheckFull` | src/channel/spsc.hpp:51-56 | the test on wrapped words answers full exactly when the queue holds `BufSize` items |
| `SpscRing.Spsc.WriteSlot` | src/channel/spsc.hpp:59 | the masked store is the machine's write |
| `SpscRing.Spsc.PublishSlot` | src/channel/spsc.hpp:62 | the wrapped store of `_write_pos` is the machine's publication |
| `SpscRing.Spsc.CheckEmpty` | src/channel/spsc.hpp:81-86 | the test on wrapped words answers empty exactly when the queue is empty |
| `SpscRing.Spsc.TakeSlot` | src/channel/spsc.hpp:89 | the masked move takes the front of the queue |
| `SpscRing.Spsc.AdvanceRead` | src/channel/spsc.hpp:92 | the wrapped store of `_read_pos` is the machine's step |
| `SpscRing.Spsc.Push` | src/channel/spsc.hpp:48-64 | whole call: runs exactly the consumer activity given before each of its accesses; refused only with the queue full, otherwise its item is last when it returns; it completes once |
| `SpscRing.Spsc.Pop` | src/channel/spsc.hpp:79-95 | whole call: runs exactly the producer activity given before each of its accesses; empty-handed only with the queue empty, otherwise with the oldest item pushed and not popped before; it completes once |
| `MpscSlots.StepKeepsSlotInv` | src/channel/mpsc.hpp:81-155 | every step of any thread keeps the slot protocol: in the lap above the freed count the turn of position k is k or k + 1, and every ticket is held by its owner or published |
| `MpscSlots.TakeKeepsSlotInv` | src/channel/mpsc.hpp:141 | the value moved out is the item of the ticket at the tail |
| `MpscSlots.SlotAccessExclusive` | src/channel/mpsc.hpp:103-104 | no two producers, and no producer and the consumer, are at one slot's data together |
| `MpscSlots.PopEmptyExplained` | src/channel/mpsc.hpp:133-137 | `pop` finds nothing exactly when the next ticket is not issued or not published by its owner yet |
| `MpscBounds.StepKeepsBounds` | src/channel/mpsc.hpp:83-89 | every step keeps: no producer owns two tickets from `tail + B - 1` on, and what the size check still guarantees |
| `MpscBounds.ReachableOvershootBound` | src/channel/mpsc.hpp:83-89 | in every reachable state `head - tail <= B + P - 1`, although check and ticket are separate accesses |
| `MpscStall.OvershootReachable` | src/channel/mpsc.hpp:83-89 | the bound is attained for every B and P |
| `MpscBounds.RefusalExplained` | src/channel/mpsc.hpp:83-86 | a push is refused exactly when the loaded head is a ring ahead of the tail or the tail has overtaken it and the difference wrapped; only the first means full |
| `MpscStall.VerdictExactIff` | src/channel/mpsc.hpp:62 | in every reachable state a refused push stands before a full ring, if and only if P <= 1; in every reachable state a push that stands before a full ring is refused, if and only if P <= 1; for every B and P |
| `MpscStall.RefusedWhileEmpty` | src/channel/mpsc.hpp:83-86 | for every ring size a run in which an empty ring refuses a push |
| `MpscWakeups.NotifyReachesOwner` | src/channel/mpsc.hpp:146-149 | with P <= B + 1 the only waiter `notify_one` can wake is the owner of ticket `pos + B` |
| `MpscWakeups.StepKeepsWakeups` | src/channel/mpsc.hpp:93-101 | with P <= B + 1 no step leaves a producer asleep on its own turn, unless its notification is next |
| `MpscStall.NoLostWakeupIff` | src/channel/mpsc.hpp:146-149 | every reachable state is free of lost wake-ups if and only if P <= B + 1, for every B and P |
| `MpscStall.LostWakeupReachable` | src/channel/mpsc.hpp:93-101 | with P >= B + 2, a run that ends with producer 1 asleep on its own turn |
| `MpscWakeups.ForgottenForever` | src/channel/mpsc.hpp:96-100 | a lost wake-up is final: the producer sleeps on through every schedule and the tail never passes its ticket |
| `MpscWakeups.NeverStuck` | src/channel/mpsc.hpp:130-152 | with P <= B + 1, in every reachable state with a ticket outstanding the item at the tail can be delivered, or its owner is awake at its turn |
| `MpscWakeups.PublishesWithin` | src/channel/mpsc.hpp:93-107 | a producer whose turn has come completes its push within four steps of its own, whatever the others do |
| `MpscWakeups.TailIsPublished` | src/channel/mpsc.hpp:89-107 | from such a state, once its owner has taken the steps it is from publishing (at most four), the item at the tail can be delivered or has been, whatever the others do |
| `MpscWakeups.DeliversWithin` | src/channel/mpsc.hpp:129-155 | a published item is returned within six steps of the consumer and the tail moves past it, whatever the producers do |
| `MpscWakeups.FairRoundExists` | src/channel/mpsc.hpp:81-155 | from every state that keeps the slot protocol a fair round can be run: nobody waits for a step that is not enabled |
| `MpscFifo.EveryTicketIsDelivered` | src/channel/mpsc.hpp:81-155 | with P <= B + 1, after any run an outstanding ticket with n before it is received, as that ticket's item, within n + 1 fair rounds |
| `MpscStall.DeliveryIff` | src/channel/mpsc.hpp:146-149 | every fair schedule from every reachable state delivers every outstanding ticket if and only if P <= B + 1, for every B and P |
| `MpscFifo.StepKeepsFifo` | src/channel/mpsc.hpp:81-155 | every step keeps the ledger: received = items of the tickets below the tail; accepted and in flight = tickets drawn, per producer; every ticket is a producer's |
| `MpscFifo.ReceivedInOrder` | src/channel/mpsc.hpp:81-155 | after any run the consumer has received the items of tickets 0..tail-1 in ticket order; each of these tickets was drawn by one of the P producers, and the items of each producer's tickets are a prefix of what it pushed, in its own order |
| `MpscFifo.DrainedLosesNothing` | src/channel/mpsc.hpp:81-155 | after any run that drains the ring, received and accepted are the same multiset of items, and what was received from each producer is what it sent, in order |
| `MpscFifo.EarlierPushReceivedFirst` | src/channel/mpsc.hpp:89 | in any run, a push that had returned before another began (of any two producers) is received, with its own item, before that other is |
| `MpscRing.TurnTestOnWords` | src/channel/mpsc.hpp:93-94 | `seq_val != pos` on wrapped words decides as on unbounded counters |
| `MpscRing.WaitTestOnWords` | src/channel/mpsc.hpp:98 | so does the comparison inside `wait` |
| `MpscRing.PublishedTestOnWords` | src/channel/mpsc.hpp:133-134 | so does `seq_val != pos + 1` |
| `MpscRing.Mpsc.constructor` | src/channel/mpsc.hpp:44-50 | the loop over the slots establishes the machine's initial state |
| `MpscRing.Mpsc.CheckFull` | src/channel/mpsc.hpp:84-86 | the unsigned size check is the machine's step |
| `MpscRing.Mpsc.DrawTicket` | src/channel/mpsc.hpp:89 | so is the wrapping `fetch_add` |
| `MpscRing.Mpsc.LoadTurn` | src/channel/mpsc.hpp:93-94 | so is the load of the sequence number and its test |
| `MpscRing.Mpsc.WaitTurn` | src/channel/mpsc.hpp:98 | so is `wait` |
| `MpscRing.Mpsc.AwaitTurn` | src/channel/mpsc.hpp:94-101 | the loop ends with the slot ours, still holding the ticket drawn |
| `MpscRing.Mpsc.WriteSlot` | src/channel/mpsc.hpp:104 | the masked store of the data is the machine's step |
| `MpscRing.Mpsc.PublishSlot` | src/channel/mpsc.hpp:107 | so is the store of `pos + 1` |
| `MpscRing.Mpsc.Push` | src/channel/mpsc.hpp:81-112 | whole call: runs exactly the schedule up to the first step after which the producer is between calls, and is unfinished only when the schedule is used up; its verdict is the last completed call, and if accepted it has drawn a new ticket for its item |
| `MpscRing.Mpsc.CheckPublished` | src/channel/mpsc.hpp:130-137 | the consumer's load and test are the machine's step |
| `MpscRing.Mpsc.TakeSlot` | src/channel/mpsc.hpp:141 | so is the move out of the slot |
| `MpscRing.Mpsc.FreeSlot` | src/channel/mpsc.hpp:146 | so is the store of `pos + BufSize` |
| `MpscRing.Mpsc.NotifyOne` | src/channel/mpsc.hpp:149 | so is the notification, for any choice of eligible waiters |
| `MpscRing.Mpsc.AdvanceTail` | src/channel/mpsc.hpp:152 | so is the store of `_tail` |
| `MpscRing.Mpsc.Pop` | src/channel/mpsc.hpp:129-155 | whole call, run in the same sense: a value returned is the item of the ticket at the old tail, and the tail moves by one |
| `MpscProtocol.UntilReturnRuns` | src/channel/mpsc.hpp:81-155 | running a schedule until a caller's return runs its shortest prefix that ends with the caller between calls, or all of it |
| `MpscRing.Mpsc.Execute` | src/channel/mpsc.hpp:22-182 | any feasible schedule of all threads, run in place on words, is the machine's run |
| `Numbers.NanOrInf` | src/operator/rolling.hpp:11 | `x - x != 0` holds exactly of NaN and the infinities |
| `Numbers.LessIsOrder` | src/stra_cta/dual_thrust.hpp:34-75 | the comparisons are a strict order with the infinities at its ends; with NaN all are false |
| `Numbers.BandsAreRootTests` | src/stra_cta/aberration.hpp:19-30 | the band tests on squares are the tests with two standard deviations |
| `Moments.SecondCentralMoment` | src/operator/rolling.hpp:73 | `sq_sum - sum*sum/n` is the sum of squared deviations from the mean, and `sq_sum/n - mean*mean` the population variance |
| `Moments.ThirdCentralMoment` | src/operator/rolling.hpp:90-92 | the skew numerator is the third central moment |
| `Windows.SlideAllIsWindowOf` | src/operator/rolling.hpp:22-26 | after any number of updates the window is the last n values, with non-numbers for those not seen |
| `Windows.VarianceOfSign` | src/operator/rolling.hpp:73-74 | the radicand is never negative, and zero exactly on constant windows |
| `Windows.StatisticsWrittenOut` | src/operator/rolling.hpp:59-93 | mean, sample variance, population variance and third moment of a window are the sums of values, squared and cubed deviations over n, n - 1, n and n; of a window not all finite they are NaN |
| `Rolling.Container.Update` | src/operator/rolling.hpp:22-26 | drops the oldest value, appends the new one, which becomes the tail |
| `Rolling.Container.Get` | src/operator/rolling.hpp:21 | `get(i)` is the i-th oldest value |
| `Rolling.Sumer.Update` | src/operator/rolling.hpp:35-52 | the incremental sum is the sum of the window recomputed, a number exactly when all entries are finite; `nan_count` is exact |
| `Rolling.Meaner.Update` | src/operator/rolling.hpp:59-61 | returns the mean of the window |
| `Rolling.Stder.Update` | src/operator/rolling.hpp:70-75 | the radicand is the sample variance of the window |
| `Rolling.Skewer.Update` | src/operator/rolling.hpp:86-93 | numerator and variance are the third and second central moments of the window |
| `AberrationStrategy.Aberration.OnTick` | src/stra_cta/aberration.hpp:14-67 | the order is that of a reference recomputing mean and variance from the last 100 prices |
| `AberrationStrategy.TradeAll` | src/stra_cta/aberration.hpp:14-67 | over every run of ticks all orders are those of the reference |
| `AberrationStrategy.WhatIsSent` | src/stra_cta/aberration.hpp:18-64 | on every run, with mean m and root r of the sample variance of the last 100 prices: net flat, a buy open exactly above m + 2r, a sell open exactly below m - 2r; long, a sell close exactly below m; short, a buy close exactly above m; nothing else |
| `AberrationStrategy.OrdersAnswerTicks` | src/stra_cta/aberration.hpp:21-25 | the i-th order of a run answers a definite tick, later than the one before, and carries its symbol and time and one lot; all other ticks go unanswered |
| `AberrationStrategy.OrderNeedsFullWindow` | src/stra_cta/aberration.hpp:15-16 | no order unless the last 100 prices exist and are finite |
| `AberrationStrategy.ConstantWindowSendsNothing` | src/stra_cta/aberration.hpp:18-64 | on a constant window nothing is sent, from any position |
| `AberrationStrategy.RunKeepsBook` | src/stra_cta/aberration.hpp:18-64 | over every run opens and closes alternate, each close reverses its open, and net volume = position * lots |
| `DualThrustStrategy.CodeFollowsRule` | src/stra_cta/dual_thrust.hpp:16-80 | on any run, NaN and infinities included, the only reachable levels are those of the rule's cycle: flat and uninitialized, long with `_min == _open <= _max` from a finite price, flat or short at an infinite open, or stuck on NaN; without infinities, for any coefficients and never short |
| `DualThrustStrategy.DualThrust.OnTick` | src/stra_cta/dual_thrust.hpp:14-83 | the order is that of the rule: buy the first finite tick of a cycle, sell the first tick below it |
| `DualThrustStrategy.TradeAll` | src/stra_cta/dual_thrust.hpp:14-83 | over every run of ticks all orders are those of the rule |
| `DualThrustStrategy.WhatIsSent` | src/stra_cta/dual_thrust.hpp:16-80 | on every run, from the prices and earlier replies alone: a cycle's first tick is bought exactly when finite; a cycle begun at an infinity opens exactly on a return there after another number; a position is closed exactly on a price worse than its opening tick's; nothing else |
| `DualThrustStrategy.OrdersAnswerTicks` | src/stra_cta/dual_thrust.hpp:34-41 | the i-th order of a run answers a definite tick, later than the one before, and carries its symbol and time and one lot; all other ticks go unanswered |
| `DualThrustStrategy.EveryRoundTripLoses` | src/stra_cta/dual_thrust.hpp:54-80 | every close reverses an earlier open at a strictly worse price, with no such price in between |
| `DualThrustStrategy.SilentIff` | src/stra_cta/dual_thrust.hpp:16-29 | the strategy falls silent for good exactly when a tick that would start a cycle is NaN |
| `DualThrustStrategy.ShortReachable` | src/stra_cta/dual_thrust.hpp:42-51 | minus infinity, any other number, minus infinity: a run that sells short |
| `DualThrustStrategy.NeverShortIff` | src/stra_cta/dual_thrust.hpp:42-51 | no run over a feed's prices sends a short open if and only if the feed has no minus infinity or no other number |
| `DualThrustStrategy.RunKeepsBook` | src/stra_cta/dual_thrust.hpp:31-80 | over every run opens and closes alternate and net volume = position * lots |
| `Calendar.DayCountIsGregorian` | src/parser/tick_parser.hpp:135-136 | the day count is 0 at 1970-01-01 and each calendar day adds one |
| `Calendar.KnownYears` | src/parser/tick_parser.hpp:135-136 | the months of 2024 and 2025 and the century rule at 1900, 2000 and 2100, as days from the epoch |
| `Calendar.StampOrders` | src/parser/tick_parser.hpp:138-142 | timestamps are strictly increasing in date, time and millisecond |
| `Calendar.SecondsCount` | src/parser/tick_parser.hpp:141-142 | each second of the clock adds 1000, over midnight too |
| `Calendar.MillisecondsCount` | src/parser/tick_parser.hpp:141-142 | each millisecond adds one, from 0 at midnight of 1970-01-01 |
| `Calendar.TextsReadBack` | src/parser/tick_parser.hpp:132-140 | every date written `YYYYMMDD` and every time written `HH:MM:SS` reads back as itself |
| `Calendar.KnownInstant` | src/parser/tick_parser.hpp:128-143 | "20250602", "09:30:15" is 1748856615000 |
| `Calendar.TimeStampCalculator.Compute` | src/parser/tick_parser.hpp:128-143 | whatever is cached, the result is the stateless conversion, the same as the bar generator's last stamp; of any date and time written out it is their stamp |
| `Bars.FloorFromEpoch` | src/parser/tick_parser.hpp:20-24 | from 1970 on the result is the multiple of the interval at or just below the time, monotone in it |
| `Bars.FloorsIff` | src/parser/tick_parser.hpp:20-24 | the result is the multiple of the interval's length at or just below the time exactly from 1970 on and at multiples; at all other times it is the next multiple |
| `Bars.BarStartsAfterTick` | src/parser/tick_parser.hpp:65-68 | the one-minute bar of 1969-12-31 23:59:30 starts 30 seconds after that tick |
| `Bars.BarGenerator.ProcessTick` | src/parser/tick_parser.hpp:61-118 | on every run the bar returned aggregates the last maximal run of ticks of one start, counted from the anchor before it |
| `Bars.BarGenerator.ProcessAll` | src/parser/tick_parser.hpp:61-118 | the bars of a whole run are the aggregates of its groups |
| `Bars.GroupsFlatten` | src/parser/tick_parser.hpp:89 | the groups end to end are the run |
| `Bars.GroupsMaximal` | src/parser/tick_parser.hpp:89 | each group has one start and its neighbours another |
| `Bars.BarsMatchGroups` | src/parser/tick_parser.hpp:75-116 | one bar per group with the first 15 characters of its instrument, its first, highest, lowest and last price, its stamps, its open interest and adjustment 1.0 |
| `Bars.LastBarMatchesGroup` | src/parser/tick_parser.hpp:75-117 | so has the bar returned on a tick, for the last group |
| `Bars.VolumeConserved` | src/parser/tick_parser.hpp:70-72 | first cumulative volume and turnover plus all bars = the figures at the latest tick in the same interval as the one before it, or the first tick: single-tick bars defer volume, none is lost or doubled |
| `Bars.FiguresNonNegative` | src/parser/tick_parser.hpp:114-115 | cumulative volume that never falls gives no negative bar volume, cumulative turnover that never falls no negative bar amount |
| `Bars.StartIsBoundary` | src/parser/tick_parser.hpp:65-68 | from 1970 on a tick's bar starts at the multiple of the interval at or just below it |
| `Bars.StartsIncrease` | src/parser/tick_parser.hpp:65-68 | for times from 1970 on that never go back, starts strictly increase and start <= last stamp < start + interval |

## Left out

- Weak memory: atomics are sequentially consistent steps; that the acquire and release orders in the source suffice for this is assumed.
- MpscBounds.StepKeepsBounds: assumes `BufSize` plus the number of threads stays within 2^64, which the source does not state.
- MpscWakeups.ForgottenForever: assumes the platform never unblocks that waiter spuriously; the standard allows it to but promises nothing.
- Rolling.Stder.Update: returns the radicand; the square root itself is not modelled, and `BandsAreRootTests` covers its only use.
- Rolling.Skewer.Update: returns numerator and variance; the 1.5th power and the quotient are not modelled.
- Rounding, overflow, cancellation and the sign of zero of doubles; finite values are real numbers, NaN and the infinities follow IEEE 754.
- Bars.BarGenerator.ProcessTick: prices and turnovers are real numbers and volumes integers; non-finite prices and the 2^53 limit of exact doubles are not modelled.
- DualThrustStrategy.CodeFollowsRule: on runs with infinite prices it assumes positive coefficients, as the source has them; without infinities it holds for any.
- MpscFifo.EveryTicketIsDelivered: counts fair rounds, in which the owner of the oldest ticket and the consumer get their steps; that a scheduler gives them is not modelled.
- Calendar.TimeStampCalculator.Compute: covers eight-digit day texts with a month from 1 to 12; for others the library leaves the conversion unspecified or the parser falls back to day 0.
- The parsing inside `from_stream` and the formatting around it: quotes carry the decoded date and time.
- The second `pop(T&)` overloads, which take the same steps as the optional-returning ones.
- `engine_cta.hpp`, the CTP and backtest clients, the configuration and error parsers: sockets, thread pools, vendor callbacks and file access.
- `hashFutureSymbol` and `check_zoned_time`: a short branch and a print-out.
