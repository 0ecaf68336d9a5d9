# Pair-trading backtester core, modelled in Dafny

This project models the core of a Java pair-trading backtester and proves properties of
the model. The core has five parts:

- **The time-series library.**
  - `TimeSeries` is an append-only list of (item, instant) entries. Its operations are map,
    reverse, lag with and without padding, the two-entry direction test with `toAscending`
    and `toDescending`, and `merge`. `merge` is a two-iterator inner join on instants.
  - `DoubleSeries` is a named numeric series. Its operations with another series are merge
    joins, its scalar operations are maps, and it also has `getLast`, `tail` and `returns`.
  - `MultipleDoubleSeries` is a table of named columns built by repeated merges.
- **The `onTick` state machine of the cointegration strategy.** It records seven diagnostic
  series per tick. After a warm-up of 30 ticks it opens both legs of the pair when the
  tracker's error leaves a band of one standard deviation of the 15 most recent errors. It
  closes both legs when the error has crossed to the other side.
- **The serialiser and parser pair of the backtest example.** The serialiser writes one
  `instant,value` line per entry; the parser reads the text back with `String.split`.

Layout, one module per file:

| file | module | what it holds |
|---|---|---|
| `failures.dfy` | `Failures` | `Fault`, `Result`, `Option`. A Java method that throws returns `Err(fault)` here. |
| `time_series.dfy` | `TimeSeries` | Functions stating what each operation computes on `seq<Entry<T>>`. The class `TimeSeries<T>` and the iterator-driven methods (`Merge`, `MoveIteratorToMatchInstant`) that do the same step by step, proved equal to those functions. |
| `double_series.dfy` | `DoubleSeries` | A datatype with a name, plus functions. The operations that build a series (`plus`, `lag`, `returns`, `tail` and the others) return a new value, as in Java. `add`, which Java applies to the series in place, is `Appended`, whose result the strategy assigns back to its field. `getLast` gives a number and `toArray` the list of items. |
| `multiple_double_series.dfy` | `MultipleDoubleSeries` | A class with `data` (the rows) and `names`, updated in place by `AddSeries` and `InitializeWithSeries`. |
| `cointegration_trading_strategy.dfy` | `CointegrationTradingStrategy` | The pure decision `Decide` and the class whose `OnTick` updates the series fields and the two order fields. |
| `backtest_example.dfy` | `BacktestExample` | `Serialized` and `Parsed`, the `String.split` semantics, the two methods, and the round trip. |

## Surprising behaviour of the code

- **The direction test is strict.** `isAscending` uses `isBefore` on the first two entries.
  Two equal first instants count as not ascending, and the rest of the series is never
  looked at. `TimeSeries.AscendingRoundTripExactly` gives the exact condition under which
  `toAscending(toDescending(s))` returns `s`. `TimeSeries.DescendingRoundTripFails` shows it
  does not for a descending two-entry series.
- **`merge` does not stop cleanly.** When both inputs still have entries after their last
  common instant, the inner loop calls `next()` on an exhausted iterator and raises
  `NoSuchElementException`. This also happens when two non-empty inputs share no instant.
  `TimeSeries.MergeIsInnerJoin` states exactly when a strictly ascending pair raises.
  For a strictly ascending series and 0 < days <= size, `returns(days)` cannot raise,
  because the series and its lag end on the same instant
  (`DoubleSeries.ReturnsOverAscending`). Outside that range the lag's check fails
  (`DoubleSeries.ReturnsOverTooFar`). A series that passes only the two-entry test can make
  the merge raise: instants 1, 5, 7, 2, 3 with days = 3 do
  (`DoubleSeries.ReturnsRaisesOffAscending`).
- **The varargs `MultipleDoubleSeries` constructor never builds a row.** Every `addSeries`
  merges against a table with no rows, so the result always has zero rows and only the
  names accumulate. `initializeWithSeries`, which would seed the rows, is never called.
  `MultipleDoubleSeries.MultipleDoubleSeries.OfSeries` states this.
- **`tail(n)` computes `size - n` in 32-bit `int`.**
  - For `n >= 0` it returns the last `min(n, size)` entries.
  - For a negative `n`, `subList` rejects the start index, unless the subtraction
    overflows. An overflow happens for example with `Integer.MIN_VALUE`; the start then
    becomes negative, `max` turns it into 0, and the whole series is returned.

## Modelling choices

- **Instants** are `int`; only their order matters. Numbers are `real`.
- **Division** is `DoubleSeries.Divide`, which gives 0 where the divisor is 0.
- **`Util.check(false)`** raises; the model returns `Err(CheckFailed)`.
- **The cointegration tracker** is any state `K` with a constructor function, a step function
  and a readout of alpha, beta, error and variance.
- **The standard deviation** (square root of the sample variance) is any function of the
  window of recent errors.
- **The trading context.** Its readings during a tick (prices, time, initial funds, net
  value, leverage) are one `Market` record. The orders `onTick` places or closes are
  returned as a list of requests.
- **The field encodings** of the text form are a `Codec` of four functions:
  `Instant.toString`, `Instant.parse`, the double's text form and `Double.parseDouble`. A
  parse function returns `None` where the Java parser throws.

## Java methods and their Dafny members

- `TimeSeries`: `add` is `TimeSeries.TimeSeries.Add`/`AddItem`; `get` is `Get`; `map` is `Map` (on values `Mapped`); `isAscending` is `IsAscending` (on values `HeadAscending`); `toAscending`/`toDescending` are `ToAscending`/`ToDescending` (on values `AsAscending`/`AsDescending`); `reverse` is `Reverse` (on values `Reversed`); `reversedStream` is `ReversedStream`; `lag` is `Lag`/`LagBy` (on values `Lagged`); `merge` is `TimeSeries.Merge`/`MergeSame` (on values `Merged`); `moveIteratorToMatchInstant` is `MoveIteratorToMatchInstant` (on values `Move`).
- `DoubleSeries`: `new DoubleSeries(name)` is `DoubleSeries.Named`; `add` is `Appended`; `merge` is `Merge`; `plus`, `mul`, `div` with a series are `Plus`, `Mul`, `Div`; `plus`, `mul` with a number are `PlusScalar`, `MulScalar`; `map` is `MapToDouble`; `lag` is `Lag`; `returns(days)` is `ReturnsOver` and `returns()` is `Returns`; `getLast` is `GetLast`; `tail` is `Tail`; `toArray` is `ToArray`; `toAscending`/`toDescending` are `ToAscending`/`ToDescending`.
- `MultipleDoubleSeries`: the constructor over names is `FromNames` and the varargs one `OfSeries`; `initializeWithSeries`, `addSeries`, `getColumn`, `indexOf`, `getNames` are `InitializeWithSeries`, `AddSeries`, `GetColumn` (on values `ColumnOf`), `IndexOf`, `GetNames`.
- `CointegrationTradingStrategy`: the constructors are `constructor` and `Unweighted`; `onStart` is `OnStart`; `initializeSeries` is `InitializeSeries`; `onTick` is `OnTick`, built from `RecordTick` and `Trade`, with the decision `Decide` taken on `SignalOf`.
- `BacktestExample`: `doubleSeriesToString` is `DoubleSeriesToString` (on values `Serialized`); `stringToDoubleSeries` is `StringToDoubleSeries` (on values `Parsed`, over `Split`).

## Model

| member | source | states |
|---|---|---|
| TimeSeries.Reversed | src/main/java/org/lst/trading/lib/series/TimeSeries.java:124-128 | the reverse has the same length and entry i is entry size-1-i |
| TimeSeries.ReversedTwice | src/main/java/org/lst/trading/lib/series/TimeSeries.java:124-128 | reversing twice gives the list back |
| TimeSeries.Mapped | src/main/java/org/lst/trading/lib/series/TimeSeries.java:98-104 | map keeps the length and every instant, and replaces each item by f(item) |
| TimeSeries.LagWithoutPadding | src/main/java/org/lst/trading/lib/series/TimeSeries.java:130-150 | for 0 < k <= size, lag(k) has size-k entries, and entry i has the item of position i with the instant of position i+k |
| TimeSeries.LagWithPadding | src/main/java/org/lst/trading/lib/series/TimeSeries.java:138-147 | the padded lag keeps length size, puts the empty value at the first k instants, is the unpadded lag after that, and keeps every instant |
| TimeSeries.LagFails | src/main/java/org/lst/trading/lib/series/TimeSeries.java:134-136 | lag fails the check exactly when k <= 0 or size < k |
| TimeSeries.AscendingRoundTrip | src/main/java/org/lst/trading/lib/series/TimeSeries.java:106-122 | for a strictly ascending series of at least two entries, toDescending reverses it and toAscending(toDescending(s)) == s |
| TimeSeries.AscendingRoundTripExactly | src/main/java/org/lst/trading/lib/series/TimeSeries.java:106-122 | the round trip gives s back exactly when s passes the direction test and its reverse does not, or s is a palindrome |
| TimeSeries.DescendingRoundTripFails | src/main/java/org/lst/trading/lib/series/TimeSeries.java:106-122 | for a descending two-entry series the round trip returns the reverse |
| TimeSeries.Move | src/main/java/org/lst/trading/lib/series/TimeSeries.java:181-187 | moveIteratorToMatchInstant raises exactly when the iterator is exhausted before its first next(), and otherwise stops on a remaining entry |
| TimeSeries.MoveStops | src/main/java/org/lst/trading/lib/series/TimeSeries.java:183-185 | every entry passed is before the target, and the stop is the last entry or the first one not before the target |
| TimeSeries.Align | src/main/java/org/lst/trading/lib/series/TimeSeries.java:165-171 | the inner loop, when it ends, stands on two entries with equal instants, at or after where it started |
| TimeSeries.AlignFindsFirstCommon | src/main/java/org/lst/trading/lib/series/TimeSeries.java:165-171 | on strictly ascending inputs the inner loop stops on the earliest shared instant, and raises only when the two suffixes share no instant |
| TimeSeries.MergeFrom | src/main/java/org/lst/trading/lib/series/TimeSeries.java:161-176 | the only exception the walk can raise is NoSuchElement |
| TimeSeries.Merged | src/main/java/org/lst/trading/lib/series/TimeSeries.java:152-154 | merge fails the check exactly when an input fails the direction test; otherwise it can only raise NoSuchElement |
| TimeSeries.MergeFromSound | src/main/java/org/lst/trading/lib/series/TimeSeries.java:161-176 | on any inputs, each output entry is f of two entries at a shared instant, and the output is no longer than either input |
| TimeSeries.MergeFromRaises | src/main/java/org/lst/trading/lib/series/TimeSeries.java:161-187 | on strictly ascending inputs the walk raises exactly when both suffixes are non-empty and each has an entry after every shared instant |
| TimeSeries.MergeFromJoins | src/main/java/org/lst/trading/lib/series/TimeSeries.java:161-176 | on strictly ascending inputs a walk that does not raise returns the inner join of the suffixes |
| TimeSeries.MergeIsInnerJoin | src/main/java/org/lst/trading/lib/series/TimeSeries.java:152-179 | on strictly ascending inputs merge raises NoSuchElement exactly in that case. Otherwise it returns the inner equi-join: strictly ascending, no longer than either input, every entry f(a, b) at a shared instant, every shared instant present |
| TimeSeries.MergeRaisesWithoutCommonInstant | src/main/java/org/lst/trading/lib/series/TimeSeries.java:161-186 | two one-entry series at different instants make merge raise |
| TimeSeries.MergeWithEmpty | src/main/java/org/lst/trading/lib/series/TimeSeries.java:152-161 | with an empty input the result is empty once both direction checks pass |
| TimeSeries.MoveToOwnInstant | src/main/java/org/lst/trading/lib/series/TimeSeries.java:181-187 | on a strictly ascending series the move stops exactly on the entry that has the target instant |
| TimeSeries.MergeFromAligned | src/main/java/org/lst/trading/lib/series/TimeSeries.java:161-176 | when b's instants are a's from position d on, the walk pairs the entries position by position |
| TimeSeries.MergeWithShifted | src/main/java/org/lst/trading/lib/series/TimeSeries.java:152-179 | merging a strictly ascending series with one carrying its own instants from position d on cannot raise, and pairs entry i of b with entry i+d of a |
| TimeSeries.Iter.Next | src/main/java/org/lst/trading/lib/series/TimeSeries.java:162-163 | next() returns the entry under the cursor and moves past it, or raises NoSuchElement when exhausted |
| TimeSeries.ReverseInPlace | src/main/java/org/lst/trading/lib/series/TimeSeries.java:126 | Collections.reverse leaves the array holding the reverse of its old contents |
| TimeSeries.TimeSeries.Add | src/main/java/org/lst/trading/lib/series/TimeSeries.java:59-61 | add appends exactly one entry at the end, leaves the others unchanged, and reports a change |
| TimeSeries.TimeSeries.AddItem | src/main/java/org/lst/trading/lib/series/TimeSeries.java:63-65 | add(item, instant) appends that entry |
| TimeSeries.TimeSeries.Get | src/main/java/org/lst/trading/lib/series/TimeSeries.java:86-88 | get returns the entry at the index, or IndexOutOfBounds outside the list |
| TimeSeries.TimeSeries.ReversedStream | src/main/java/org/lst/trading/lib/series/TimeSeries.java:71-75 | the entries come from last to first |
| TimeSeries.TimeSeries.Map | src/main/java/org/lst/trading/lib/series/TimeSeries.java:98-104 | a new series of the same length with each item mapped and each instant kept |
| TimeSeries.TimeSeries.Reverse | src/main/java/org/lst/trading/lib/series/TimeSeries.java:124-128 | a new series holding the reverse; the receiver is unchanged |
| TimeSeries.TimeSeries.ToAscending | src/main/java/org/lst/trading/lib/series/TimeSeries.java:110-115 | the series itself when it passes the direction test, else a new reversed series |
| TimeSeries.TimeSeries.ToDescending | src/main/java/org/lst/trading/lib/series/TimeSeries.java:117-122 | a new reversed series when it passes the direction test, else the series itself |
| TimeSeries.TimeSeries.Lag | src/main/java/org/lst/trading/lib/series/TimeSeries.java:134-150 | the check fails unless 0 < k <= size; otherwise a new series holding the padded or unpadded lag |
| TimeSeries.TimeSeries.LagBy | src/main/java/org/lst/trading/lib/series/TimeSeries.java:130-132 | lag(k) is the lag without padding |
| TimeSeries.MoveIteratorToMatchInstant | src/main/java/org/lst/trading/lib/series/TimeSeries.java:181-187 | the do-while returns the entry Move stops on and leaves the iterator just past it, or raises NoSuchElement |
| TimeSeries.NextCommon | src/main/java/org/lst/trading/lib/series/TimeSeries.java:162-171 | the two next() calls and the inner loop either raise exactly when Align fails, or return the two entries Align stops on with the iterators just past them |
| TimeSeries.Merge | src/main/java/org/lst/trading/lib/series/TimeSeries.java:152-179 | the iterator-driven merge raises what Merged raises, and otherwise returns a new series holding Merged's entries |
| TimeSeries.MergeSame | src/main/java/org/lst/trading/lib/series/TimeSeries.java:189-191 | the single-item-type overload is the two-type merge |
| DoubleSeries.Named | src/main/java/org/lst/trading/lib/series/DoubleSeries.java:9-12 | new DoubleSeries(name) is empty and carries the name |
| DoubleSeries.Appended | src/main/java/org/lst/trading/lib/series/TimeSeries.java:63-65 | add on a named series appends exactly one entry and keeps the rest and the name |
| DoubleSeries.Merge | src/main/java/org/lst/trading/lib/series/DoubleSeries.java:27-29 | merge fails as the time-series merge does, and otherwise holds its entries under the receiver's name |
| DoubleSeries.MapToDouble | src/main/java/org/lst/trading/lib/series/DoubleSeries.java:31-33 | mapToDouble keeps length, instants and name, and maps each item |
| DoubleSeries.PlusScalar | src/main/java/org/lst/trading/lib/series/DoubleSeries.java:39-41 | plus(c) keeps length, instants and name, and adds c to each item |
| DoubleSeries.MulScalar | src/main/java/org/lst/trading/lib/series/DoubleSeries.java:47-49 | mul(c) keeps length, instants and name, and multiplies each item by c |
| DoubleSeries.ArithmeticIsJoin | src/main/java/org/lst/trading/lib/series/DoubleSeries.java:35-53 | on strictly ascending series plus, mul and div raise exactly when merge does, and otherwise are the inner join on instants under the receiver's name, so unmatched instants are dropped |
| DoubleSeries.Lag | src/main/java/org/lst/trading/lib/series/DoubleSeries.java:85-87 | lag keeps the name, fails the check unless 0 < k <= size, and otherwise pairs item i with instant i+k |
| DoubleSeries.LagHeadAscending | src/main/java/org/lst/trading/lib/series/DoubleSeries.java:69-71 | the lag of a strictly ascending series passes merge's direction check |
| DoubleSeries.DivByLag | src/main/java/org/lst/trading/lib/series/DoubleSeries.java:69-71 | dividing a strictly ascending series by its own lag cannot raise; entry i is x[i+days]/x[i] at the instant of position i+days |
| DoubleSeries.SimpleReturns | src/main/java/org/lst/trading/lib/series/DoubleSeries.java:69-71 | the simple returns over days steps have size-days entries and keep the name |
| DoubleSeries.ReturnsOverAscending | src/main/java/org/lst/trading/lib/series/DoubleSeries.java:69-71 | for a strictly ascending series with 0 < days <= size, returns(days) succeeds: size-days entries at the instants of positions days..size-1, each x[i+days]/x[i] - 1 |
| DoubleSeries.ReturnsAscending | src/main/java/org/lst/trading/lib/series/DoubleSeries.java:55-57 | returns() on a strictly ascending non-empty series is the one-step simple returns |
| DoubleSeries.ReturnsOverTooFar | src/main/java/org/lst/trading/lib/series/DoubleSeries.java:69-71 | returns(days) with days <= 0 or days > size fails the lag check |
| DoubleSeries.ReturnsRaisesOffAscending | src/main/java/org/lst/trading/lib/series/DoubleSeries.java:69-71 | a series of instants 1, 5, 7, 2, 3 passes the direction test, yet returns(3) raises NoSuchElement in the merge |
| DoubleSeries.GetLastAfterAdd | src/main/java/org/lst/trading/lib/series/DoubleSeries.java:59-62 | getLast is 0.0 on an empty series and the last item added otherwise |
| DoubleSeries.SubInt | src/main/java/org/lst/trading/lib/series/DoubleSeries.java:66 | int subtraction is exact inside the int range and wraps by 2^32 outside it |
| DoubleSeries.TailKeepsLast | src/main/java/org/lst/trading/lib/series/DoubleSeries.java:64-67 | for n >= 0, tail(n) is the last min(n, size) entries in order, under the same name |
| DoubleSeries.TailNegative | src/main/java/org/lst/trading/lib/series/DoubleSeries.java:64-67 | for n < 0, tail(n) is rejected by subList unless size - n overflows int, in which case it is the whole series |
| DoubleSeries.TailMinInt | src/main/java/org/lst/trading/lib/series/DoubleSeries.java:64-67 | tail(Integer.MIN_VALUE) is the whole series |
| DoubleSeries.ToArray | src/main/java/org/lst/trading/lib/series/DoubleSeries.java:73-75 | toArray lists the items in entry order, one per entry |
| DoubleSeries.ToAscending | src/main/java/org/lst/trading/lib/series/DoubleSeries.java:77-79 | the override keeps the name and the base version's entries |
| DoubleSeries.ToDescending | src/main/java/org/lst/trading/lib/series/DoubleSeries.java:81-83 | the override keeps the name and the base version's entries |
| DoubleSeries.DirectionRoundTrip | src/main/java/org/lst/trading/lib/series/DoubleSeries.java:77-83 | for a strictly ascending series of at least two entries, toAscending(toDescending(s)) == s, name included |
| MultipleDoubleSeries.Extended | src/main/java/org/lst/trading/lib/series/MultipleDoubleSeries.java:37-40 | the merge function adds exactly one value at the end of the row |
| MultipleDoubleSeries.NamesOf | src/main/java/org/lst/trading/lib/series/MultipleDoubleSeries.java:19-21 | the names of the series, one per series, in order |
| MultipleDoubleSeries.FirstIndex | src/main/java/org/lst/trading/lib/series/MultipleDoubleSeries.java:55-57 | indexOf is -1 exactly when the name is absent, and otherwise the first position holding it |
| MultipleDoubleSeries.Column | src/main/java/org/lst/trading/lib/series/MultipleDoubleSeries.java:48-50 | the projection fails with IndexOutOfBounds exactly when some row has no value at the index, and otherwise has one entry per row with that value at the row's instant |
| MultipleDoubleSeries.MultipleDoubleSeries.FromNames | src/main/java/org/lst/trading/lib/series/MultipleDoubleSeries.java:11-14 | the Collection constructor has no rows and the names copied in order |
| MultipleDoubleSeries.MultipleDoubleSeries.Empty | src/main/java/org/lst/trading/lib/series/MultipleDoubleSeries.java:16-18 | the varargs constructor starts with no rows and no names |
| MultipleDoubleSeries.MultipleDoubleSeries.OfSeries | src/main/java/org/lst/trading/lib/series/MultipleDoubleSeries.java:16-22 | the varargs constructor fails exactly when some series fails the direction check; otherwise it has zero rows, the inputs' names in order, and one value per name in every row |
| MultipleDoubleSeries.MultipleDoubleSeries.InitializeWithSeries | src/main/java/org/lst/trading/lib/series/MultipleDoubleSeries.java:24-34 | one single-value row per entry, with its instant, and the name appended |
| MultipleDoubleSeries.MultipleDoubleSeries.AddSeries | src/main/java/org/lst/trading/lib/series/MultipleDoubleSeries.java:36-44 | the rows become the merge of the table with the series, and the name is appended; a table whose rows hold one value per name still does afterwards |
| MultipleDoubleSeries.MultipleDoubleSeries.GetColumn | src/main/java/org/lst/trading/lib/series/MultipleDoubleSeries.java:46-53 | on a table with one value per name in every row, a known name gives the series of the values at its first position, at the rows' instants, named after it; an unknown name raises IndexOutOfBounds when there are rows and gives an empty series when there are none |
| MultipleDoubleSeries.MultipleDoubleSeries.IndexOf | src/main/java/org/lst/trading/lib/series/MultipleDoubleSeries.java:55-57 | -1 exactly when the name is absent, else the first position holding it |
| MultipleDoubleSeries.MultipleDoubleSeries.GetNames | src/main/java/org/lst/trading/lib/series/MultipleDoubleSeries.java:59-61 | getNames equals the names |
| MultipleDoubleSeries.RowsGainOneValue | src/main/java/org/lst/trading/lib/series/MultipleDoubleSeries.java:36-44 | each surviving row is a row of the table plus one trailing value from the series at the same instant, and no more rows survive than either side had |
| MultipleDoubleSeries.AddSeriesKeepsWidth | src/main/java/org/lst/trading/lib/series/MultipleDoubleSeries.java:36-44 | rows of width w become rows of width w+1 |
| MultipleDoubleSeries.JoinAgainstNothing | src/main/java/org/lst/trading/lib/series/MultipleDoubleSeries.java:16-22 | merging a table with no rows keeps no rows, or fails the series' direction check |
| MultipleDoubleSeries.KnownColumn | src/main/java/org/lst/trading/lib/series/MultipleDoubleSeries.java:46-53 | getColumn of a held name projects its first position from every row, keeping instants and order, named after the column |
| MultipleDoubleSeries.UnknownColumn | src/main/java/org/lst/trading/lib/series/MultipleDoubleSeries.java:47-50 | getColumn of an unknown name fails when there is a row, and is an empty series named after it when there is none |
| MultipleDoubleSeries.DuplicateNameReadsFirst | src/main/java/org/lst/trading/lib/series/MultipleDoubleSeries.java:46-57 | a duplicated name resolves to its first position |
| MultipleDoubleSeries.InitializedColumnRoundTrip | src/main/java/org/lst/trading/lib/series/MultipleDoubleSeries.java:24-53 | the rows initializeWithSeries builds give the series back as its column |
| CointegrationTradingStrategy.JavaIntCast | src/main/java/org/lst/trading/strategy/kalman/CointegrationTradingStrategy.java:91-92 | the (int) cast truncates toward zero and saturates at the int range |
| CointegrationTradingStrategy.RecentWindow | src/main/java/org/lst/trading/strategy/kalman/CointegrationTradingStrategy.java:83 | the window has min(15, size) errors, newest first |
| CointegrationTradingStrategy.WindowHoldsCurrentError | src/main/java/org/lst/trading/strategy/kalman/CointegrationTradingStrategy.java:76-84 | after an error is appended, the window is non-empty and starts with it |
| CointegrationTradingStrategy.Decide | src/main/java/org/lst/trading/strategy/kalman/CointegrationTradingStrategy.java:82-102 | The decision of one tick. Before the warm-up nothing changes. A pair opens exactly when flat, abs(err) > sd, beta > 0 and baseAmount*beta >= 1. The y leg is long iff err < 0, the x leg long iff err > 0, with quantities (int) baseAmount and (int)(baseAmount*beta), y placed first. A held pair closes, both legs, exactly when the y leg is long and err > 0 or short and err < 0. No second pair opens while positioned. The state changes exactly when orders are sent |
| CointegrationTradingStrategy.RunBalanced | src/main/java/org/lst/trading/strategy/kalman/CointegrationTradingStrategy.java:86-101 | over any run of ticks orders are placed and closed in whole pairs: held before plus placed equals closed plus held after |
| CointegrationTradingStrategy.WarmUpHoldsOff | src/main/java/org/lst/trading/strategy/kalman/CointegrationTradingStrategy.java:82 | ticks before the warm-up is over send no order and keep the position |
| CointegrationTradingStrategy.CointegrationTradingStrategy.Position | src/main/java/org/lst/trading/strategy/kalman/CointegrationTradingStrategy.java:34-35 | the strategy is flat exactly when an order field is empty |
| CointegrationTradingStrategy.CointegrationTradingStrategy.constructor | src/main/java/org/lst/trading/strategy/kalman/CointegrationTradingStrategy.java:41-45 | sets the weight and the two symbols, with no tracker and no orders yet |
| CointegrationTradingStrategy.CointegrationTradingStrategy.Unweighted | src/main/java/org/lst/trading/strategy/kalman/CointegrationTradingStrategy.java:37-39 | the two-symbol constructor uses weight 1 |
| CointegrationTradingStrategy.CointegrationTradingStrategy.OnStart | src/main/java/org/lst/trading/strategy/kalman/CointegrationTradingStrategy.java:47-52 | a fresh tracker with parameters 1e-10 and 1e-7, seven empty series named alpha, beta, x, y, error, variance and model, orders untouched, the strategy's invariant kept |
| CointegrationTradingStrategy.CointegrationTradingStrategy.InitializeSeries | src/main/java/org/lst/trading/strategy/kalman/CointegrationTradingStrategy.java:54-62 | the seven series become empty with their names, the orders and the invariant kept |
| CointegrationTradingStrategy.CointegrationTradingStrategy.OnTick | src/main/java/org/lst/trading/strategy/kalman/CointegrationTradingStrategy.java:64-104 | Each series gains exactly one entry at the tick's time: alpha, beta and beta*priceX + alpha from before the step, prices, and error and variance from after it. The tracker is stepped once. The new position and the orders sent are Decide's, on the window that includes the new error. Both-legs-or-none and equal series lengths are kept |
| CointegrationTradingStrategy.CointegrationTradingStrategy.RecordTick | src/main/java/org/lst/trading/strategy/kalman/CointegrationTradingStrategy.java:66-80 | reads alpha and beta before the step and the error after it, and appends the seven entries |
| CointegrationTradingStrategy.CointegrationTradingStrategy.Trade | src/main/java/org/lst/trading/strategy/kalman/CointegrationTradingStrategy.java:82-103 | places or closes exactly as Decide says, touching only the order fields |
| BacktestExample.DoubleSeriesToString | src/main/java/org/lst/trading/main/BacktestExample.java:79-85 | the text is one line per entry in series order: instant text, ",", value text, "\n" |
| BacktestExample.Pieces | src/main/java/org/lst/trading/main/BacktestExample.java:89 | splitting yields at least one piece, and no piece contains the separator |
| BacktestExample.PiecesJoin | src/main/java/org/lst/trading/main/BacktestExample.java:89 | the pieces joined with the separator give the text back |
| BacktestExample.PiecesAfter | src/main/java/org/lst/trading/main/BacktestExample.java:89-92 | a separator-free prefix followed by the separator is exactly the first piece |
| BacktestExample.PiecesWithout | src/main/java/org/lst/trading/main/BacktestExample.java:89-92 | a text without the separator is one piece |
| BacktestExample.DropTrailingEmpty | src/main/java/org/lst/trading/main/BacktestExample.java:89 | split drops exactly the trailing empty pieces: a prefix that does not end in an empty piece, followed only by empty ones |
| BacktestExample.ParseLine | src/main/java/org/lst/trading/main/BacktestExample.java:92-95 | a parsed line has at least two fields, the instant parsed from field 0 and the value from field 1; failures are index or parse errors |
| BacktestExample.ParsedLines | src/main/java/org/lst/trading/main/BacktestExample.java:91-96 | all lines parse exactly when the result is Ok, giving one entry per line in order; otherwise the first failing line's fault is returned |
| BacktestExample.StringToDoubleSeries | src/main/java/org/lst/trading/main/BacktestExample.java:87-99 | the loop over the split lines computes Parsed, named as asked |
| BacktestExample.SerializedPieces | src/main/java/org/lst/trading/main/BacktestExample.java:79-89 | cutting a serialisation at newlines gives the line bodies and one empty last piece |
| BacktestExample.BodyParses | src/main/java/org/lst/trading/main/BacktestExample.java:92-95 | a line body reads back as its entry when the codec round-trips and its texts avoid the separators |
| BacktestExample.RoundTrip | src/main/java/org/lst/trading/main/BacktestExample.java:79-99 | parsing the serialisation of a non-empty series gives its entries back under the asked name, for a faithful codec |
| BacktestExample.EmptyDoesNotRoundTrip | src/main/java/org/lst/trading/main/BacktestExample.java:79-93 | the empty series serialises to "", and parsing "" fails on the one empty line's instant |
| BacktestExample.NewlineOnlyIsEmpty | src/main/java/org/lst/trading/main/BacktestExample.java:89-98 | the text "\n" parses to an empty series |
| BacktestExample.LineWithoutValue | src/main/java/org/lst/trading/main/BacktestExample.java:92-94 | a line without a comma fails on field 1 after its instant parses |

## Left out

- `KalmanFilter` and `Cointegration`: dense floating-point matrix arithmetic through a library that is not part of this model. The tracker is abstract with its constructor, `step` and four readouts.
- `StatUtils.variance` and `Math.sqrt`: floating point from a library. The deviation is an abstract function of the window.
- `TradingContext`, `Order`, the backtest engine, `Util.check`, `Util.writeCsv` and `onEnd`: these are not part of this model. Their readings are per-tick inputs, and their effects come back as requests.
- CointegrationTradingStrategy.CointegrationTradingStrategy.OnTick: `context.getTime()` is read seven times in the code and once here, assuming the time does not change within a tick.
- CointegrationTradingStrategy.CointegrationTradingStrategy.OnTick: assumes the order handle the context returns carries the direction and amount asked for; the close decision reads `isLong` from it. `SimpleOrder` stores only an `int` amount and no direction, and when beta > 1 and the base amount is below 1 the y quantity `(int) baseAmount` is 0 while the open guard still holds, so a handle that carried the direction in the sign of the amount could not report the `isLong` this model gives it.
- CointegrationTradingStrategy.CointegrationTradingStrategy.OnTick: requires `onStart` to have run. Before that the Java tracker field is null and `onTick` throws NullPointerException.
- CointegrationTradingStrategy.CointegrationTradingStrategy.constructor: the seven series fields hold empty unnamed series before `onStart`. In Java they are null.
- `SimpleClosedOrder`, `SimpleOrder`, `DatabaseHelper`, `Config`, `BacktestMain`: order P/L from an unseen routine, a plain record, database, file and network I/O.
- BacktestExample: `main`, `runBacktest`, `getPriceSeries`, `fetchData`, `displayResults`, `formatOrders`, `loadProperties`. These do network fetching, logging, printing and property loading.
- All `toString` methods and `DoubleSeries.setName`: formatting only, and a setter nothing in the core calls.
- `Instant.toString`/`Instant.parse` and the double text form/`Double.parseDouble`: an abstract codec. `RoundTrip` assumes it round-trips and that its texts contain neither `,` nor `\n`.
- CointegrationTradingStrategy.BaseAmount: a zero spread price gives a base amount of 0 and no trade. In Java that division gives an infinity, the `(int)` cast saturates, and the open guard `baseAmount * beta >= 1` can hold.
- DoubleSeries.Divide: doubles are reals. Rounding is not modelled, and division by zero gives 0 instead of an infinity or NaN.
- DoubleSeries.Tail: the sublist view shares storage with the source series; the model copies it. The same goes for the unmodifiable views returned by `getData`, which the protected constructor wraps without copying.
- DoubleSeries.Appended: every series that `merge`, `plus`, `mul`, `div`, `mapToDouble`, the scalar `plus` and `mul`, `tail`, `toAscending`, `toDescending`, `lag` and `returns` return wraps the unmodifiable view from `getData()` (or a sublist of it), so Java's `add` on such a series throws UnsupportedOperationException. The model appends to any series value. The series the strategy appends to are all built by `new DoubleSeries(name)` and are backed by an ArrayList, so the model of the strategy does not depend on this.
- DoubleSeries.Appended: Java's `add` changes the series object in place; the model returns the extended value and the strategy assigns it back to its field. The series loses its identity, so a reference taken through the getters before a tick would not see the new entry in this model.
- TimeSeries.Merge: the equality re-test after the inner loop is omitted, because the loop only ends on equal instants.
- TimeSeries.TimeSeries.ReversedStream: the check that the backing list is not a LinkedList is omitted. A series can be backed by an unmodifiable view, a sublist view or any list passed to the public `DoubleSeries(List, name)` constructor, and a LinkedList there would fail the check; no series the modelled code builds is backed by a LinkedList, and the strategy calls `reversedStream` only on its own error series. The stream's laziness is not modelled either; the entries are produced as a list.
- MultipleDoubleSeries.MultipleDoubleSeries.AddSeries: the Java merge function adds to each row list in place. When merge raises partway, the rows already visited keep their extra value; the model leaves the table unchanged.
- MultipleDoubleSeries.MultipleDoubleSeries.OfSeries: a Dafny constructor cannot fail, so the varargs constructor is a static method returning a `Result`.
- Iterators: `TimeSeries.Iter` stands for `List.iterator()` over the entry list. A concurrent modification cannot happen in this sequential model.
