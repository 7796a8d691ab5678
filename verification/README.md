# Verification model of the trading daemon

This project models the arithmetic, the state and the protocols of the `oboobot` trading daemon in Dafny, and proves
what the rest of the code relies on. It covers the numbers (correlation, position sizing, weighted fills, the simulated
ledger), the calendar (Gregorian dates, Easter, New York wall-clock time), whole runs of the trading cycle against a
broker that can act on its own or lose an answer, and the four protocols underneath (request correlation, the event
bus, the append-only log, the renamed snapshot).

Run `dafny verify dfyconfig.toml` in this directory to check everything.

## How it is laid out

| file | what it models |
|---|---|
| `Prelude`, `RealArith`, `Window`, `Domain` | options and results, facts about real products, the bounded sample window, the shared vocabulary |
| `Correlation` | the 500-sample window and the one-pass Pearson coefficient |
| `Gregorian`, `Holidays` | day numbers and dates, n-th weekdays, the computus, the holiday list |
| `NewYork`, `MacroCycle`, `TrueOpen`, `Buffers` | wall-clock searches across clock changes, entry windows, True Open levels, rolling ranges, spread history |
| `Smt`, `Risk`, `Entry`, `Monitor`, `Exposure`, `FillLegs` | divergence to signal, sizing and risk gates, stop and target, the exit sweep, currency exposure, fills |
| `Replay`, `Trade` | the simulated broker as a ledger, its quotes, the replay loop, decided trades through the ledger |
| `Recovery`, `Cycle`, `Daemon` | reconciliation, the trading cycle as a step machine over whole runs, the cycle as imperative code that decides its own exits and orders and refines it |
| `LiveReplay` | a replay of cycles that build their levels as live ones do |
| `Deriv`, `Retry` | request and response correlation under arbitrary interleaving, retry with backoff |
| `EventBus`, `Cursor`, `Snapshot` | the two-channel bus, the append-only log, crash-safe overwriting |

Code that updates fields in place is a class whose methods are proved equal to a function of the old state; the
theorems are then about runs of that function. Pure code is a function with lemmas.

## Idealisations

- `Decimal` and `f64` are `real`; rounding is not modelled. The library square root is a parameter known only to return
  the non-negative root.
- New York time is any function from instants to offsets that takes only the values -5 h and -4 h and changes only when
  the clock shows 02:00. Instants are nanoseconds counted from 1 January of year 0.
- Equality, hashing and ordering of identifiers are those of integers; identifiers are never reused by the broker.
- Of the broker, the cycle theorems assume: it lists exactly the positions it has open; it never reports another pair or
  entry time for one id; fills are stamped no more than a given skew before the clock reading of the cycle (Deriv stamps
  whole seconds, so the skew can reach a second even with clocks that agree). It may close and re-mark positions when it
  likes, lose answers, and fill an order long after its call has ended: the position limit is then exceeded by at most
  the number of such orders outstanding, and the spacing of entries is stated for the others. The daemon's own clock need
  not be monotone. Cycles do not overlap.
- In `Cycle` signals, account contexts, exits and failures are arbitrary inputs of a run; in `Daemon` the cycle works them
  out from prices, levels, biases, spreads, correlations and equity, which are arbitrary in turn.
- Logged records are JSON objects on one line. `Cursor.Objects` says what is used of them: part of an object does not
  parse, nor does part of one, or all of it, run into another (`Cursor.EmptyObjectIsObject` meets this).

## Where the code differs from its own description

- `next_ny_occurrence` is strictly after its input, not at or after it: an hour that has begun is skipped
  (`session_time/src/true_open_capture.rs:38`). It is the first matching instant for every hour but 1 and 2
  (`NewYork.AlwaysFirstIff`).
- Each pair-set is described as having its own True Open bias, but all share one weekly and one daily file, so a bias
  can weigh one symbol's price against another's (`TrueOpen.SecondPairSetMisled`); `TrueOpen.BiasWeighsFirstLook` says
  whose level it is.
- The macro window is everything less than eleven minutes either side of a centre, because minutes are truncated
  (`MacroCycle.WithinIffNearCenter`).
- The live cycle widens each range with the current price and then tests that price against it, so it never sees a
  divergence and never signals (`Smt.LiveCycleNeverSignals`); over any number of cycles it opens no position
  (`Daemon.LiveDaemonNeverTrades`), and a replay of it ends with the equity it started with (`LiveReplay.ReplayLive`).
  Everything else about entries is therefore proved for arbitrary levels.
- The collision guard is described as counting closed positions too, but is handed reconciled ones, so a position
  entered a minute ago and closed since does not hold back another (`Cycle.ClosedPositionForgotten`);
  `Cycle.GuardMatchesRecordIff` says exactly when the two readings agree.
- A fill leg that is refused stays in the position's list and makes every later fill fail
  (`FillLegs.GrowingPosition.ApplyFillLeg`, `FillLegs.RefusedLegPoisons`).
- Submitted sizes are units, while the exposure gate adds leg sizes as if they were amounts of risk
  (`daemon/src/main.rs:676`, `risk/src/sizing.rs:245`). The two agree exactly when the stop is one away
  (`Risk.SizeReadAsRisk`). Two approved trades can exceed the cap on a currency (`Risk.CapCanBeExceeded`), and at the
  settings shipped one trade can close a currency to the next (`Risk.CapCanShutOut`); `Risk.CapHoldsIff` and
  `Risk.CapLetsInIff` say exactly when.
- The replay decides on quotes half a spread either side of the bar's close and fills at the close, so a trade closed at
  its stop costs half a spread on its size less than the risk it was sized for (`Trade.LedgerBooksRisk`;
  `Trade.SomeArePlaced` is such a trade).
- The simulated broker rewrites its state file in place and takes an unreadable one for empty, so a save that fails part
  way wipes out every position and all that was made. Its ledger finances itself exactly as long as that does not happen,
  or there is nothing to lose (`Replay.SelfFinancingIff`).
- The simulated broker stamps fills with the real clock while the replayed cycle reads a simulated one days behind, so
  a replayed pair is held back for as long as a position on it is open (`Cycle.StampAheadBlocks`).
- An append that is cut short is not repaired. Unless no byte of it arrived, whatever is appended next makes the log
  unreadable (`Cursor.TornAppendFuses`), and as every cycle begins by reading the position log, one torn line stops all
  later ones (`Cursor.TornLogStopsLaterCycles`). Whether there are such bytes shows at the end of the file
  (`Cursor.TornShowsAtTheEnd`). Nor is the directory ever synced, so the whole log can be lost after an append was
  acknowledged; it keeps everything exactly if it is never lost with something in it (`Cursor.NothingLostIff`).
- A snapshot is synced but its directory is not, so a value acknowledged to the caller can still be lost to a crash,
  though never torn (`Snapshot.AcknowledgedCanBeLost`, `Snapshot.CrashKeepsIff`, `Snapshot.ReadIsNeverTorn`).

## Model

| member | source | states |
|---|---|---|
| Correlation.CorrelationState.RecordSample | strategy/src/correlation.rs:47-59 | the window slides: the sample is added at the back and the oldest dropped over 500; the update time is set |
| Window.WindowIsLastSamples | strategy/src/correlation.rs:47-59 | a window fed any sequence holds exactly its last 500 samples, in order (likewise the 900 spreads) |
| Correlation.ComputeCoefficient | strategy/src/correlation.rs:64-101 | what the one-pass loop returns is the coefficient of its sums, and Pearson's: its square times both sums of squared deviations from the mean is the squared sum of their products, whose sign it has |
| Correlation.CovIsCoDeviation | strategy/src/correlation.rs:86-94 | each one-pass factor is the number of samples times the corresponding sum of products of deviations from the means |
| Correlation.VarianceFactor | strategy/src/correlation.rs:64-101 | a variance factor is never negative, and is zero exactly for a constant series |
| Correlation.CauchySchwarz | strategy/src/correlation.rs:64-101 | the squared numerator never exceeds the product of the variance factors |
| Correlation.CoefficientInRange | strategy/src/correlation.rs:64-101 | the root is taken of a non-negative number and the result lies in [-1, 1], as the risk threshold assumes |
| Correlation.NoCoefficientIff | strategy/src/correlation.rs:64-101 | None exactly for fewer than two samples or a constant series |
| Correlation.PermutationInvariant | strategy/src/correlation.rs:64-101 | the order of samples does not matter |
| Correlation.SwapInvariant | strategy/src/correlation.rs:64-101 | the two series may be exchanged |
| Correlation.AffineInvariant | strategy/src/correlation.rs:64-101 | any positive rescaling and shift of either series leaves the coefficient alone |
| Correlation.LineIsExtreme | strategy/src/correlation.rs:64-101 | exactly +1 or -1, by the sign of the slope, on every sloped line |
| Correlation.ExtremeMeansLine | strategy/src/correlation.rs:64-101 | conversely, +1 or -1 means all samples lie on one line sloped that way |
| Gregorian.NthWeekdayIsNth | session_time/src/calendar.rs:160-167 | the date found falls on the weekday and exactly n - 1 earlier days of the month do |
| Holidays.EasterIsFirstSundayAfterFullMoon | session_time/src/calendar.rs:172-188 | for every year from 0 the computus is total and gives the first Sunday strictly after the ecclesiastical full moon of golden number and century corrections, from 22 March to 25 April |
| Holidays.MoonOffsetMatchesEpact | session_time/src/calendar.rs:172-188 | the moon inside the computus is the epact's moon up to its two one-day corrections |
| Holidays.SundayAfterIsFirst | session_time/src/calendar.rs:172-188 | what "first Sunday strictly after" means, in both directions |
| Holidays.ThanksgivingInNovember | session_time/src/calendar.rs:107-126 | Thanksgiving exists every year, is a Thursday, and lies from 22 to 28 November |
| Holidays.HolidaysAre | session_time/src/calendar.rs:107-131 | the list holds exactly New Year's Day, Christmas, Thanksgiving and Good Friday, the last two on a Thursday and a Friday |
| Holidays.LowLiquidityDays | session_time/src/calendar.rs:133-153 | entries are skipped on 1 January, Good Friday, Thanksgiving and the day after, and 25 to 31 December, and no other day |
| NewYork.FromLocalIsInverse | session_time/src/true_open_capture.rs:49-60 | resolving a reading yields exactly the instants at which the clock shows it |
| NewYork.NextNyOccurrence | session_time/src/true_open_capture.rs:28-61 | the loop computes the specified occurrence and steps at most six dates to the weekday |
| NewYork.NextOccurrenceIsFirst | session_time/src/true_open_capture.rs:28-61 | for every hour but 1 and 2, with or without a weekday, the result is the first instant strictly after the input whose New York clock so reads, at most a day (a week) and an hour away, across every clock change |
| NewYork.HourTwoFirstIff | session_time/src/true_open_capture.rs:28-61 | call by call, the search for 02:00 is right exactly when the reading it settles on exists |
| NewYork.HourOneFirstIff | session_time/src/true_open_capture.rs:28-61 | call by call, the search for 01:00 is right exactly outside the first pass of a repeated hour |
| NewYork.HourTwoInGap | session_time/src/true_open_capture.rs:28-61 | a spring evening on which the search for 02:00 returns its own input |
| NewYork.HourOneRepeats | session_time/src/true_open_capture.rs:28-61 | an autumn night on which the search for 01:00 skips the repeated hour |
| NewYork.AlwaysFirstIff | session_time/src/true_open_capture.rs:28-61 | the hours for which the search is right on every input are exactly those other than 1 and 2, whose inputs the two rows above settle |
| TrueOpen.WeekStartIsSundayEvening | session_time/src/calendar.rs:193-217 | the week opens at 18:00 New York time on the Sunday on or before the date |
| TrueOpen.SevenDaysApart | session_time/src/calendar.rs:228-240 | the seven-day test holds for every week, whatever the clock changes |
| TrueOpen.WeekRefusedIff | session_time/src/true_open.rs:90-97 | a week is refused exactly when its Sunday is 1 January or 25 December |
| TrueOpen.CapturedLevel | session_time/src/true_open_capture.rs:79-113 | the weekly level is withheld exactly in a week that opens on 1 January or 25 December, the daily one never; a captured one has the price, symbol and time asked with and lasts to the next moment that ends one |
| TrueOpen.RecapturedIffBoundaryPassed | session_time/src/true_open_capture.rs:66-113 | a captured level is asked for again exactly once a New York midnight (for the week, a Monday 18:00) has come |
| TrueOpen.LevelFile.LoadOrCapture | daemon/src/main.rs:1179-1197 | a look takes the level on file, or captures one and writes it if there is one, and weighs its price against it: one more look of the run |
| TrueOpen.BiasWeighsFirstLook | daemon/src/main.rs:1179-1197 | over any run of looks, by any pair-sets, a look's bias weighs its price against that of the first look since midnight (Monday 18:00) at which a level could be captured, and takes no side without one |
| TrueOpen.SecondPairSetMisled | daemon/src/main.rs:713-731 | an input: of two pair-sets in one cycle, the second goes by the other symbol's price and takes a side it would not take alone |
| TrueOpen.GateFollowsBias | session_time/src/true_open.rs:53-82 | a direction passes exactly when it does not oppose the weekly side, or the daily side when the weekly price stands on its level |
| MacroCycle.WithinIffNearCenter | session_time/src/macro_cycle.rs:21-57 | within the window exactly when less than eleven minutes from a whole multiple of three hours |
| MacroCycle.NextMacroCycleAfter | session_time/src/macro_cycle.rs:61-96 | the nested loops find the first cycle centre at or after the instant |
| Buffers.NextResetIsFirst | strategy/src/buffers.rs:65-71 | each range resets at its first boundary strictly ahead: at most 25 hours for the daily, 7 for the session range |
| Buffers.RollingBuffer.Observe | strategy/src/buffers.rs:44-51 | the observed price widens the range and changes nothing else |
| Buffers.UpdateBuffer | strategy/src/buffers.rs:77-103 | an unexpired buffer is widened in place, an expired or missing one replaced by the price and its next boundary |
| Buffers.RangeIsSinceLastReset | strategy/src/buffers.rs:44-103 | over any time-ordered run, high and low are the maximum and minimum of exactly the prices since the last boundary |
| Buffers.SessionWithinDaily | strategy/src/buffers.rs:65-103 | fed in lockstep, the session range always lies within the daily range and resets no later |
| Buffers.SpreadHistory.Record | strategy/src/buffers.rs:124-130 | the spread window slides at 900 samples |
| Buffers.PassesIff | strategy/src/buffers.rs:132-150 | a spread passes exactly if it is no more than the multiplier times the mean of those recorded, stated without dividing; any passes an empty window |
| Buffers.TotalAppends | strategy/src/buffers.rs:132-138 | the total behind the mean adds up over any split of the window and is the sample itself for one |
| Buffers.ShortWindowNeverRejects | strategy/src/buffers.rs:132-151 | the current spread being recorded first, the filter cannot reject while the window is no longer than the multiplier |
| FillLegs.WeightedEntryPrice | domain/src/types.rs:315-338 | an error exactly for no legs or the first leg of no positive size, else total cost over total size |
| FillLegs.GrowingPosition.ApplyFillLeg | domain/src/types.rs:348-353 | the leg is kept either way; price and time move only if every leg is acceptable, and then the entry price moves towards the fill by its share of the size and never past it |
| FillLegs.EntryPriceBetweenFills | domain/src/types.rs:315-338 | the entry price lies between the cheapest and the dearest fill |
| FillLegs.FillAverages | domain/src/types.rs:315-353 | the entry price after an accepted fill is the size-weighted mean of the price before and the fill's |
| FillLegs.RefusedLegPoisons | domain/src/types.rs:348-353 | after a refused leg every later fill is refused too, and the price and time of the position never move again |
| Smt.TradedAssetHeld | strategy/src/smt.rs:54-134 | on any levels, the traded asset held the level its counterpart swept, on the timeframe of the tier |
| Smt.EvaluateSmtIff | strategy/src/smt.rs:54-134 | exactly when each asset, direction and tier is named: which asset alone swept which level on which timeframe, lows before highs, the daily reading before the session one |
| Smt.SignalIff | strategy/src/smt.rs:152-197 | a divergence becomes a signal on the asset it names exactly when no standing bias opposes it, and is rejected exactly when one does |
| Smt.AssetsAreSymmetric | strategy/src/smt.rs:54-134 | exchanging the two inputs names the same asset, direction and tier |
| Smt.LiveCycleNeverSignals | daemon/src/main.rs:386-400 | with ranges widened by the very prices tested, no divergence and no signal ever results |
| Risk.ApprovedSizing | risk/src/sizing.rs:163-280 | an approved trade had room, risks the base, or twice that on a Tuesday or a double signal, up to the cap, and loses exactly its risk over its stop distance |
| Risk.ApprovedIff | risk/src/sizing.rs:185-280 | told a book's exposure, the gates let a trade through exactly if the losses and the count leave room, the stop is not at the entry, the book with the trade in it, sized by its risk, nets neither currency beyond the cap, and the risk fits beside what is correlated |
| Risk.RejectedForFirstGround | risk/src/sizing.rs:185-280 | a rejection names the first ground there is, in the order of the gates |
| Risk.SizeReadAsRisk | risk/src/sizing.rs:224-278 | for every approved trade, the size the gate later reads equals the risk approved exactly when nothing is risked or the stop is one away; it is too small exactly when the stop is farther |
| Risk.CapHoldsIff | risk/src/sizing.rs:224-252 | two buys sharing a currency, if both let through, keep their combined risk on it within the cap exactly if two such risks fit it, or the first one's size, read as risk, keeps the second out |
| Risk.CapLetsInIff | risk/src/sizing.rs:224-252 | two buys whose combined risk fits the cap are both let through exactly if the first one's size and the second one's risk fit it too |
| Risk.CapCanBeExceeded | risk/src/sizing.rs:224-252 | an input: two approved trades of 10% each against a cap of 15% a currency, the first on a yen pair, together risk 20% on the dollar |
| Risk.CapCanShutOut | risk/src/sizing.rs:224-252 | an input: at the settings shipped, a trade of 1% closes the dollar to the next, though the two would risk 2% of a cap of 15% |
| Exposure.CurrencyExposureSnapshot | daemon/src/main.rs:672-687 | every currency's net exposure, exactly the currencies touched, and a total of zero over all of them |
| Exposure.NetOrderIndependent | daemon/src/main.rs:672-687 | the snapshot does not depend on the order of positions |
| Exposure.HedgeCancels | daemon/src/main.rs:672-687 | an opposite position of equal size on the same pair restores every currency |
| Exposure.SplitsIff | risk/src/sizing.rs:144-150 | a pair splits exactly as two plain ASCII names of three characters written one after the other |
| Exposure.SnapshotIsNet | daemon/src/main.rs:672-687 | the exposure map of any list is the net of each currency |
| Monitor.ExitsAreThoseWithReason | daemon/src/monitor.rs:97-127 | the sweep names exactly the positions something speaks for closing, each with the first thing that does: price at or past the stop, at or past the target, news, an opposite reading of its pair |
| Monitor.PriceDecides | daemon/src/monitor.rs:41-62 | with a target beyond its stop, a priced position exits for the stop exactly at or past it, for the target exactly at or past that, and for neither exactly strictly between |
| Monitor.ExitsInOrder | daemon/src/monitor.rs:107-127 | exits are named in the order of the positions, once for every time one is listed |
| Entry.ApprovedTradeIsBracketed | daemon/src/main.rs:824-849 | for every divergence on any levels, an approved decision has stop < entry < target for a buy and the mirror for a sell, the target three times as far |
| Entry.PricedAtMarket | daemon/src/main.rs:812-838 | a signal is priced at the ask for a buy, the bid for a sell, the tested price without a quote, and stopped at the level the traded asset held |
| Entry.NoExitAtEntry | daemon/src/monitor.rs:41-62 | a bracketed position is never closed at its own entry price |
| Entry.ExitAtOpeningBid | daemon/src/monitor.rs:41-62 | against the quote it was opened on, a position is closed only if it is a buy whose bid stands on its stop |
| Entry.StopLosesRiskTargetGainsThree | risk/src/sizing.rs:214-278 | closing at the stop loses exactly the sized risk, at the target gains exactly three times it |
| Entry.OneTradeBound | domain/src/newtypes.rs:163-171 | counted from its own entry price, one trade closed no worse than its stop keeps at least 1 - max risk of the equity it was sized on |
| Replay.ReplayBroker.SubmitOrder | daemon/src/replay.rs:117-211 | fills at the current bar, or refuses without a price; a save refused outright leaves the book alone, one torn half way empties it |
| Replay.ReplayBroker.ClosePosition | daemon/src/replay.rs:117-268 | realizes direction * size * price change and removes the position, or refuses an unknown one; a save refused outright leaves everything alone, one torn half way wipes it out |
| Replay.ReplayBroker.BarCount | daemon/src/replay.rs:89-95 | the length of the shortest price series, zero without any |
| Replay.ReplayBroker.Step | daemon/src/replay.rs:101-107 | the next bar becomes current and nothing else changes |
| Replay.SelfFinancing | daemon/src/replay.rs:101-283 | no submit or close, carried out or refused, changes marked equity; an advance changes it by exactly the move on what is held; a torn save takes away exactly all that was made |
| Replay.SelfFinancingIff | daemon/src/replay.rs:117-132 | so the ledger finances itself across an operation exactly if no save is torn or there was nothing to lose |
| Replay.RunIsSelfFinancing | daemon/src/replay.rs:101-283 | over any run, final marked equity is the initial one plus every market move met, less every wipe-out |
| Replay.FlatRunEarnsMoves | daemon/src/replay.rs:270-280 | a run that ends flat has earned exactly the moves it held through, less every wipe-out |
| Replay.SubmitThenClose | daemon/src/replay.rs:161-268 | opening a position and closing it some bars later leaves the book as it was and realizes exactly the price change |
| Replay.ReplayBroker.GetSnapshot | daemon/src/replay.rs:136-159 | quotes exactly the pairs asked for, half the synthetic spread either side of the close, or refuses when one has no price |
| Trade.HeldAsDecided | daemon/src/main.rs:902-914 | an order decided on the replay's quotes leaves the broker holding the pair, side and size decided, filled at the close, its stop and target bracketing the price decided on |
| Trade.LedgerBooksMove | daemon/src/main.rs:814-836 | a trade decided on the replay's quotes and filled at the close books its move from the price decided on plus half a spread on its size |
| Trade.LedgerBooksRisk | daemon/src/replay.rs:136-268 | closed at its stop it costs the sized risk less half a spread on its size; closed at its target it brings three times the risk and that half spread |
| Trade.LedgerBooksSweep | daemon/src/monitor.rs:41-62 | with the bid the sweep sees exactly on the stop, a sell loses exactly its risk and a buy a whole spread on its size less; likewise at the target |
| Trade.LedgerEquityFloor | domain/src/newtypes.rs:163-171 | after n trades through the ledger, sized on its equity, decided on its quotes, filled at its closes and closed no worse than their stops, the account holds at least E0 * (1 - max risk)^n |
| Replay.RunReplay | daemon/src/main.rs:1012-1050 | one cycle per bar with an advance between bars, every pair priced at every bar visited; refused when some series is empty |
| Recovery.ReconciledIds | daemon/src/recovery.rs:43-92 | the ids left after reconciling are exactly the broker's, whatever the local side believed |
| Recovery.ReconciledMembers | daemon/src/recovery.rs:43-92 | a confirmed position keeps the local record, an unknown one is adopted, an orphan is dropped |
| Recovery.LocalAccountedFor | daemon/src/recovery.rs:57-78 | every local record, with its multiplicity, is confirmed or orphaned, and the three lists have the expected ids |
| Recovery.CleanIffSameIds | daemon/src/recovery.rs:34-36 | a report is clean exactly when both sides know the same ids |
| Recovery.ReconcileSettles | daemon/src/recovery.rs:43-92 | reconciling again finds nothing and changes nothing |
| Recovery.ReconciledCount | daemon/src/recovery.rs:88-92 | the reconciled count never understates the broker's, and is exact unless an open position was known twice |
| Cycle.SoundRun | daemon/src/main.rs:251-946 | over any run, records stay coherent and, outside the moment between an order and its reconciliation, everything open is known or was filled late since |
| Cycle.CountBounded | daemon/src/main.rs:562-946 | with at most m orders outstanding that the broker may still fill, its open positions never exceed the limit plus m, or what it had to begin with: with lost answers, closings of its own, failed appends and a log with duplicates |
| Cycle.LateFillTakesOneMore | daemon/src/main.rs:750-940 | that bound is met, by a run from a fresh account: with one order outstanding and a limit of one, two positions are open (`Cycle.SomeProposalFits` is a proposal that does it) |
| Cycle.EntriesSpaced | daemon/src/operations.rs:43-53 | of two open positions on one pair, at least one entered during the run and neither filled after its call had ended, the entries are 170 minutes apart less the stamp skew, also when two pair-sets share the symbol |
| Cycle.GuardSeesBroker | daemon/src/operations.rs:43-53 | after a reconciliation the guard holds a pair back exactly until 170 minutes have passed since every entry on it that the broker still has open |
| Cycle.GuardMatchesRecordIff | daemon/src/operations.rs:39-53 | the guard agrees with its documentation exactly when, if anything on record is recent, something open is |
| Cycle.ClosedPositionForgotten | daemon/src/operations.rs:39-53 | a position closed within the window does not hold back another |
| Cycle.DecisionIff | daemon/src/main.rs:851-888 | a proposal is taken up exactly if there is room beside the positions known, their book with the trade in it keeps both currency caps, and its risk fits beside the total of all legs open on the counterpart |
| Daemon.Daemon.RunCycle | daemon/src/main.rs:249-946 | the imperative cycle, early returns included, is exactly the run of steps that its own exits, signals, contexts and gates spell out, and asks the broker to close exactly the exits it decided on |
| Daemon.Daemon.Sweep | daemon/src/main.rs:540-657 | the exits its prices, news and divergences call for are closed one by one; if there were any, the book is reconciled and logged; entries follow only inside a window, in good health, on a day not skipped |
| Daemon.Daemon.TryEntry | daemon/src/main.rs:750-940 | guard, then equity, then risk decision on the positions known, then order, then reconciliation; a lost answer ends the cycle |
| Daemon.Daemon.Relist | daemon/src/main.rs:1090-1116 | list, reconcile, and append to the log as far as the file takes it |
| Daemon.Broker.SubmitOrder | daemon/src/main.rs:902-921 | a fill adds one position, under an id at or past the first unused one, which moves past it; an unfilled order may be kept for later |
| Daemon.CycleClosesForReasons | daemon/src/main.rs:279-562 | a cycle whose listing and heartbeat succeed asks for exactly those known positions to be closed that its bids, its news or the last pair-set with a reading of their pair give a reason to close; any other asks for none |
| Daemon.OrdersAreBracketed | daemon/src/main.rs:824-918 | on any levels, an order the cycle sends is sized to lose exactly the risk due that day at its stop, and stop and target bracket the price it was decided on; likewise in the position it opens, whatever the fill |
| Daemon.ProposalIs | daemon/src/main.rs:793-888 | what a proposal is judged on: equity read, market price, level held, Tuesday in New York, double signal, and the pair-set's other symbol exactly if the two are correlated either way |
| Daemon.ProposesIff | daemon/src/main.rs:693-746 | a pair-set proposes a trade exactly if its spread passes, its prices diverge and no standing bias opposes |
| Daemon.CycleSubmitsIff | daemon/src/main.rs:564-657 | the steps of a cycle try an order exactly if the moment allows entries, in clock and calendar terms, and some pair-set proposes it |
| Daemon.CyclesAreSafe | daemon/src/main.rs:212-960 | any number of cycles deciding for themselves, with the broker acting in between, keep the position limit, up to late fills, and the spacing of entries |
| Daemon.LiveDaemonNeverTrades | daemon/src/main.rs:386-538 | over any number of cycles on live levels no position is ever opened |
| LiveReplay.ReplayLive | daemon/src/main.rs:1012-1050 | a replay of the live cycle, on any bars and settings, is refused for want of data or ends with exactly its starting equity |
| Deriv.DerivClient.Begin | broker/src/deriv.rs:165-167 | a call takes a fresh id and the counter moves on |
| Deriv.DerivClient.Insert | broker/src/deriv.rs:169-170 | the sender is stored under the call's id |
| Deriv.DerivClient.OnFrame | broker/src/deriv.rs:132-146 | a frame goes to the waiter of its id and to no one else; any other frame changes nothing |
| Deriv.DerivClient.Await | broker/src/deriv.rs:187-205 | the frame sent to this call, or nothing yet, or a closed channel |
| Deriv.DerivClient.Remove | broker/src/deriv.rs:182-192 | a failed or expired call takes its own entry out |
| Deriv.RepliesAreOwn | broker/src/deriv.rs:132-208 | in every interleaving a reply carries its call's own id, ids are distinct, pending holds only calls in flight, and the closed-channel error never occurs |
| Deriv.ResolvedForGood | broker/src/deriv.rs:165-208 | a resolved call keeps its outcome |
| Deriv.DeliveredOnce | broker/src/deriv.rs:132-146 | each waiter is sent at most one frame |
| Deriv.LateReplyIgnored | broker/src/deriv.rs:187-192 | a reply to a call that has timed out or resolved changes nothing, so it never satisfies a retry |
| Deriv.FirstReplyWins | broker/src/deriv.rs:132-208 | the first frame with the id of a call still sending or waiting is what the call returns, as an answer or as a rejection according to its body, whatever others do meanwhile |
| Deriv.ExpiryMeansTimeout | broker/src/deriv.rs:187-192 | once its time is up a call returns a timeout, whatever arrives before it has cleaned up |
| Deriv.FailedSendMeansNoConnection | broker/src/deriv.rs:177-185 | a call that could not be sent returns a failed connection, even if a frame with its id has come |
| Deriv.ResultsHaveCauses | broker/src/deriv.rs:165-208 | in any interleaving a call returns an answer or a rejection only if such a frame came under its id, a timeout only if its time was up, a failed connection only if sending failed, and nothing else |
| Retry.CallWithRetry | broker/src/deriv.rs:232-256 | at most four calls; the result is the first answer that is no transient failure, or the fourth; the waits are the backoffs in between |
| Retry.RetriedOnce | broker/src/deriv.rs:232-256 | the answers alone settle the result, the number of calls and the waits |
| Retry.BackoffDoubles | broker/src/deriv.rs:282-293 | the wait starts at a second and doubles up to thirty; a rate limit's own wait is honoured |
| Retry.OnlyUnansweredRetried | broker/src/deriv.rs:267-272 | exactly the unanswered calls are retried |
| Retry.WaitsAreShort | broker/src/deriv.rs:232-293 | on top of this client, the waits add up to seven seconds at most |
| EventBus.EventBus.Send | daemon/src/event_bus.rs:35-43 | an event joins the back of the channel its kind names, waits when that is full, is refused without a receiver |
| EventBus.EventBus.Receive | daemon/src/event_bus.rs:56-63 | undisturbed: the oldest priority event, else the oldest ordinary one, leaves its own channel and the other alone; else None or a wait |
| EventBus.ChannelsConserve | daemon/src/event_bus.rs:35-63 | on each channel, queued then accepted equals delivered then still queued, in order, over any interleaving |
| EventBus.DeliveredIsMerge | daemon/src/event_bus.rs:35-84 | what is delivered is a merge of the two accepted streams, each in its order, nothing lost or repeated |
| EventBus.OneOvertakes | daemon/src/event_bus.rs:56-63 | while queued priority events wait, at most one ordinary event passes them: the one whose receive had already found the priority channel empty |
| EventBus.EndsHeld | daemon/src/event_bus.rs:24-28 | over any run the handles left are those there were and their clones less those dropped, and the receiver stays until dropped |
| EventBus.WithoutReceiver | daemon/src/event_bus.rs:35-43 | once the receiver is gone every event is refused and none delivered |
| EventBus.DrainsThenEnds | daemon/src/event_bus.rs:52-63 | with every handle gone, receiving hands over all that is queued, priority events first, and then returns None |
| EventBus.EndMeansDrained | daemon/src/event_bus.rs:52-63 | None only when every handle is gone and both channels are drained; all accepted events were delivered and none follow |
| Cursor.CursorFile.Append | persistence/src/cursor.rs:54-82 | the line is added at the end and the new length reported |
| Cursor.CursorFile.ReadFrom | persistence/src/cursor.rs:93-134 | the loop reads what the bytes from the offset on mean, blank lines skipped, the first bad line an error, a missing file empty |
| Cursor.CursorFile.CurrentOffset | persistence/src/cursor.rs:139-145 | the length, zero for a missing file |
| Cursor.ReadAllRoundTrip | persistence/src/cursor.rs:54-134 | reading all returns exactly the records appended |
| Cursor.ResumeRoundTrip | persistence/src/cursor.rs:93-134 | reading from the offset of the k-th append returns exactly the records after it |
| Cursor.OffsetsAreBoundaries | persistence/src/cursor.rs:54-82 | offsets strictly increase and stand just after a newline |
| Cursor.TornAppendReads | persistence/src/cursor.rs:66-134 | cut short inside an append, the log still reads back exactly if none or all of the record's bytes arrived |
| Cursor.TornAppendFuses | persistence/src/cursor.rs:66-134 | after an append cut short and further appends, the log reads back, and then exactly, if and only if none of the record's bytes had arrived |
| Cursor.TornShowsAtTheEnd | persistence/src/cursor.rs:54-82 | whether any had shows before the next append: the file is empty or ends in a newline exactly if not |
| Cursor.TornLogStopsLaterCycles | daemon/src/main.rs:249-253 | from then on the log is read only while just the newline is missing and no later run writes anything; otherwise no later cycle gets past reading it |
| Cursor.UntornLogKeepsAll | daemon/src/main.rs:249-253 | as long as no run is cut short inside an append, every later run reads exactly what was appended since the file was last lost |
| Cursor.NothingLostIff | persistence/src/cursor.rs:54-82 | everything appended and acknowledged is still there exactly if the file, whose directory is never synced, was never lost with something in it |
| Snapshot.SnapshotFile.Write | persistence/src/snapshot.rs:62-81 | create, write, sync, rename; an error at any step leaves the store as after the steps before it |
| Snapshot.SnapshotFile.Read | persistence/src/snapshot.rs:40-54 | None for a missing or blank file, else the parsed value or an error |
| Snapshot.ReadIsNeverTorn | persistence/src/snapshot.rs:40-81 | after any writes, errors and crashes, earlier directory entries coming back included, a read gives nothing or a whole value some write was begun with |
| Snapshot.ReadIsLatest | persistence/src/snapshot.rs:40-81 | if no crash undoes a rename, that is the last acknowledged value or one interrupted since, and nothing only if no write was ever acknowledged |
| Snapshot.CrashKeepsIff | persistence/src/snapshot.rs:62-81 | a crash right after an acknowledged write keeps the value exactly if it brings no earlier directory entry back, or one that holds the same value |
| Snapshot.AcknowledgedCanBeLost | persistence/src/snapshot.rs:62-81 | an input: the first value ever written, acknowledged, is lost to such a crash |
| Snapshot.ReadAfterWrite | persistence/src/snapshot.rs:40-81 | an undisturbed write is what the next read returns, whatever a crash left behind |

## Left out

- WebSocket and HTTP transport, JSON field extraction, symbol mapping, environment variables, command line, logging, notifications, disk and memory probes: plumbing over libraries whose code is not here.
- Configuration and TOML parsing: validated values are inputs.
- `run_demo`, `run_cycle`, `MockBroker`, `BybitAdapter`, `NoNewsProvider`, `LoggingAssistant`: walkthroughs and stubs.
- Regime-shift detection and the daily and weekly loss limits as claims about runs: the baseline is never set and realized P&L is always passed as zero. The limits are modelled inside `Risk.Evaluate`.
- Float and decimal rounding and overflow, and wrap-around of the 64-bit request counter.
- Dropping the future of a call in flight, which would leave its entry in the pending map.
- The IANA zone database.
- Years before 0 of the proleptic Gregorian calendar, which no clock here produces.
- Decision-log and snapshot failures inside a cycle: the step machine covers them (it may stop anywhere), the inputs of `Daemon.Daemon.RunCycle` do not list them.
- How a cycle keeps its levels, biases and correlation up to date: `Buffers`, `TrueOpen` and `Correlation` model each over its own runs; `Daemon` is given the results, and its theorems hold for any.
- A cycle that fails inside a replay, or a crash of it: either ends the replay without a result.
- White space beyond ASCII at the end of a log line.
- Fairness and time: that a waiting call is eventually polled, and the ten-second timeout itself.
- News matching: whether a news exit is active is an input of the sweep.
