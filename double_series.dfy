/** A named series of numbers. Every operation returns a new series built with the
    time-series operations: the elementwise operations with another series are merge
    joins on instants, the scalar ones are maps, and lag, the direction changes and
    tail keep the receiver's name.

    Numbers are modelled as reals: the model ignores rounding, and division by zero
    (which gives an infinity or NaN in floating point) is written as Divide, which
    returns 0 there. */
module DoubleSeries {
  import opened Failures
  import opened TimeSeries

  datatype DoubleSeries = DoubleSeries(data: seq<Entry<real>>, name: string)

  /** new DoubleSeries(name): no entries. */
  function Named(name: string): (r: DoubleSeries)
    ensures r.data == [] && r.name == name
  {
    DoubleSeries([], name)
  }

  function Size(s: DoubleSeries): nat
  {
    |s.data|
  }

  /** add(item, instant) on a series: one more entry at the end. */
  function Appended(s: DoubleSeries, item: real, instant: Instant): (r: DoubleSeries)
    ensures |r.data| == |s.data| + 1 && r.name == s.name
    ensures r.data[..|s.data|] == s.data && r.data[|s.data|] == Entry(item, instant)
  {
    DoubleSeries(s.data + [Entry(item, instant)], s.name)
  }

  /** x / y on doubles, with the quotient by zero (an infinity or NaN there) taken as 0. */
  function Divide(x: real, y: real): real
  {
    if y == 0.0 then 0.0 else x / y
  }

  /** merge(other, f): the time-series merge of the two, named as the receiver. */
  function Merge(s: DoubleSeries, other: DoubleSeries, f: (real, real) -> real): (r: Result<DoubleSeries>)
    ensures r.Err? <==> Merged(s.data, other.data, f).Err?
    ensures r.Err? ==> r.fault == Merged(s.data, other.data, f).fault
    ensures r.Ok? ==> r.value.name == s.name && r.value.data == Merged(s.data, other.data, f).value
  {
    match Merged(s.data, other.data, f)
    case Ok(entries) => Ok(DoubleSeries(entries, s.name))
    case Err(e) => Err(e)
  }

  /** mapToDouble(f): f applied to every item; the instants and the name stay. */
  function MapToDouble(s: DoubleSeries, f: real -> real): (r: DoubleSeries)
    ensures |r.data| == |s.data| && r.name == s.name
    ensures forall i :: 0 <= i < |s.data| ==> r.data[i] == Entry(f(s.data[i].item), s.data[i].instant)
  {
    DoubleSeries(Mapped(s.data, f), s.name)
  }

  function Sum(x: real, y: real): real
  {
    x + y
  }

  function Product(x: real, y: real): real
  {
    x * y
  }

  function Plus(s: DoubleSeries, other: DoubleSeries): Result<DoubleSeries>
  {
    Merge(s, other, Sum)
  }

  function Mul(s: DoubleSeries, other: DoubleSeries): Result<DoubleSeries>
  {
    Merge(s, other, Product)
  }

  function Div(s: DoubleSeries, other: DoubleSeries): Result<DoubleSeries>
  {
    Merge(s, other, Divide)
  }

  /** plus(c): adds c to every item, keeping every instant. */
  function PlusScalar(s: DoubleSeries, c: real): (r: DoubleSeries)
    ensures |r.data| == |s.data| && r.name == s.name
    ensures forall i :: 0 <= i < |s.data| ==>
              r.data[i].item == s.data[i].item + c && r.data[i].instant == s.data[i].instant
  {
    MapToDouble(s, x => x + c)
  }

  /** mul(factor): multiplies every item by factor, keeping every instant. */
  function MulScalar(s: DoubleSeries, factor: real): (r: DoubleSeries)
    ensures |r.data| == |s.data| && r.name == s.name
    ensures forall i :: 0 <= i < |s.data| ==>
              r.data[i].item == s.data[i].item * factor && r.data[i].instant == s.data[i].instant
  {
    MapToDouble(s, x => x * factor)
  }

  /** lag(k), keeping the name: fails the check unless 0 < k <= size. */
  function Lag(s: DoubleSeries, k: int): (r: Result<DoubleSeries>)
    ensures r.Err? <==> !(k > 0 && |s.data| >= k)
    ensures r.Err? ==> r.fault == CheckFailed
    ensures r.Ok? ==> r.value.name == s.name && |r.value.data| == |s.data| - k
    ensures r.Ok? ==> forall i {:trigger r.value.data[i]} :: 0 <= i < |s.data| - k ==>
                        r.value.data[i] == Entry(s.data[i].item, s.data[i + k].instant)
  {
    LagFails(s.data, k, None);
    match Lagged(s.data, k, None)
    case Ok(entries) =>
      LagWithoutPadding(s.data, k);
      Ok(DoubleSeries(entries, s.name))
    case Err(e) => Err(e)
  }

  /** returns(days): this.div(lag(days)).plus(-1). The lag is taken first, so its check
      fails first. */
  function ReturnsOver(s: DoubleSeries, days: int): Result<DoubleSeries>
  {
    match Lag(s, days)
    case Err(e) => Err(e)
    case Ok(lagged) =>
      match Div(s, lagged)
      case Err(e) => Err(e)
      case Ok(quotient) => Ok(PlusScalar(quotient, -1.0))
  }

  /** returns(): the one-step returns. */
  function Returns(s: DoubleSeries): Result<DoubleSeries>
  {
    ReturnsOver(s, 1)
  }

  /** getLast(): 0.0 on an empty series. */
  function GetLast(s: DoubleSeries): real
  {
    if |s.data| == 0 then 0.0 else s.data[|s.data| - 1].item
  }

  const MinInt: int := -0x8000_0000
  const MaxInt: int := 0x7fff_ffff

  predicate IsInt(x: int)
  {
    MinInt <= x <= MaxInt
  }

  /** Java int subtraction: the difference wraps around modulo 2^32. */
  function SubInt(x: int, y: int): (r: int)
    requires IsInt(x) && IsInt(y)
    ensures IsInt(r)
    ensures IsInt(x - y) ==> r == x - y
    ensures x - y > MaxInt ==> r == x - y - 0x1_0000_0000
    ensures x - y < MinInt ==> r == x - y + 0x1_0000_0000
  {
    (x - y - MinInt) % 0x1_0000_0000 + MinInt
  }

  /** tail(n): data.subList(max(0, size - n), size), with size - n computed in int.
      subList rejects a start index past the end. */
  function Tail(s: DoubleSeries, n: int): Result<DoubleSeries>
    requires IsInt(n) && IsInt(|s.data|)
  {
    var d := SubInt(|s.data|, n);
    var from := if d > 0 then d else 0;
    if from > |s.data| then Err(IllegalArgument)
    else Ok(DoubleSeries(s.data[from..], s.name))
  }

  /** toArray(): the items in entry order. */
  function ToArray(s: DoubleSeries): (r: seq<real>)
    ensures |r| == |s.data|
    ensures forall i :: 0 <= i < |s.data| ==> r[i] == s.data[i].item
  {
    Items(s.data)
  }

  /** toAscending(), keeping the name: the series itself if it passes the direction test,
      else its reverse. */
  function ToAscending(s: DoubleSeries): (r: DoubleSeries)
    ensures r.name == s.name
    ensures HeadAscending(s.data) ==> r.data == s.data
    ensures !HeadAscending(s.data) ==> r.data == Reversed(s.data)
  {
    DoubleSeries(AsAscending(s.data), s.name)
  }

  /** toDescending(), keeping the name: the reverse if the series passes the direction
      test, else the series itself. */
  function ToDescending(s: DoubleSeries): (r: DoubleSeries)
    ensures r.name == s.name
    ensures HeadAscending(s.data) ==> r.data == Reversed(s.data)
    ensures !HeadAscending(s.data) ==> r.data == s.data
  {
    DoubleSeries(AsDescending(s.data), s.name)
  }

  // ---------------------------------------------------------------------------
  // Properties
  // ---------------------------------------------------------------------------

  /** On strictly ascending series, plus, mul and div with another series raise exactly
      when merge does, and otherwise return the inner join on instants of the two, under
      the receiver's name: unmatched instants are dropped. */
  lemma ArithmeticIsJoin(s: DoubleSeries, other: DoubleSeries)
    requires StrictlyAscending(s.data) && StrictlyAscending(other.data)
    ensures Plus(s, other).Err? <==> Outruns(s.data, other.data, 0, 0)
    ensures Mul(s, other).Err? <==> Outruns(s.data, other.data, 0, 0)
    ensures Div(s, other).Err? <==> Outruns(s.data, other.data, 0, 0)
    ensures Plus(s, other).Ok? ==>
              Plus(s, other).value.name == s.name
              && JoinOf(s.data, other.data, 0, 0, Sum, Plus(s, other).value.data)
    ensures Mul(s, other).Ok? ==>
              Mul(s, other).value.name == s.name
              && JoinOf(s.data, other.data, 0, 0, Product, Mul(s, other).value.data)
    ensures Div(s, other).Ok? ==>
              Div(s, other).value.name == s.name
              && JoinOf(s.data, other.data, 0, 0, Divide, Div(s, other).value.data)
  {
    MergeIsInnerJoin(s.data, other.data, Sum);
    MergeIsInnerJoin(s.data, other.data, Product);
    MergeIsInnerJoin(s.data, other.data, Divide);
  }

  /** The lagged copy of a strictly ascending series passes the direction test. */
  lemma LagHeadAscending(s: DoubleSeries, days: int)
    requires StrictlyAscending(s.data) && 0 < days <= |s.data|
    ensures Lag(s, days).Ok? && HeadAscending(Lag(s, days).value.data)
  {
    var l := Lag(s, days).value.data;
    if |l| > 1 {
      assert l[0].instant == s.data[days].instant && l[1].instant == s.data[1 + days].instant;
    }
  }

  /** Dividing a strictly ascending series by its own lag cannot raise: entry i of the
      quotient is x[i + days] / x[i], at the instant of position i + days. */
  lemma DivByLag(s: DoubleSeries, days: int)
    requires StrictlyAscending(s.data) && 0 < days <= |s.data|
    ensures Lag(s, days).Ok? && Div(s, Lag(s, days).value).Ok?
    ensures var q := Div(s, Lag(s, days).value).value;
            q.name == s.name && |q.data| == |s.data| - days
            && forall i {:trigger q.data[i]} :: 0 <= i < |s.data| - days ==>
                 q.data[i] == Entry(Divide(s.data[i + days].item, s.data[i].item), s.data[i + days].instant)
  {
    var lagged := Lag(s, days).value;
    LagHeadAscending(s, days);
    StrictlyAscendingHead(s.data);
    MergeWithShifted(s.data, lagged.data, days, Divide);
  }

  /** The simple returns over `days` steps, written directly on positions: entry i is
      x[i + days] / x[i] - 1 at the instant of position i + days. */
  function SimpleReturns(s: DoubleSeries, days: nat): (r: DoubleSeries)
    requires days <= |s.data|
    ensures |r.data| == |s.data| - days && r.name == s.name
  {
    DoubleSeries(seq(|s.data| - days, i requires 0 <= i < |s.data| - days =>
                       Entry(Divide(s.data[i + days].item, s.data[i].item) - 1.0, s.data[i + days].instant)),
                 s.name)
  }

  /** returns(days) on a strictly ascending series of n entries with 0 < days <= n cannot
      raise (both joined series end on the same instant) and equals the simple returns:
      n - days entries, at the instants of positions days .. n - 1. */
  lemma ReturnsOverAscending(s: DoubleSeries, days: int)
    requires StrictlyAscending(s.data) && 0 < days <= |s.data|
    ensures ReturnsOver(s, days) == Ok(SimpleReturns(s, days))
  {
    DivByLag(s, days);
    var q := Div(s, Lag(s, days).value).value;
    var r := PlusScalar(q, -1.0);
    var expected := SimpleReturns(s, days);
    forall i | 0 <= i < |r.data|
      ensures r.data[i] == expected.data[i]
    {
      assert q.data[i] == Entry(Divide(s.data[i + days].item, s.data[i].item), s.data[i + days].instant);
    }
    assert r.data == expected.data;
    assert ReturnsOver(s, days) == Ok(r);
  }

  /** returns() on a strictly ascending non-empty series: the one-step simple returns. */
  lemma ReturnsAscending(s: DoubleSeries)
    requires StrictlyAscending(s.data) && |s.data| > 0
    ensures Returns(s) == Ok(SimpleReturns(s, 1))
  {
    ReturnsOverAscending(s, 1);
  }

  /** returns(days) with days <= 0 or days larger than the series fails the lag check
      before anything is divided. */
  lemma ReturnsOverTooFar(s: DoubleSeries, days: int)
    requires days <= 0 || |s.data| < days
    ensures ReturnsOver(s, days) == Err(CheckFailed)
  {
  }

  /** A series that passes the two-entry direction test without being ascending can make
      returns raise: with instants 1, 5, 7, 2, 3 and days = 3 the lag has instants 2, 3,
      both checks pass, and the merge runs off an iterator. */
  lemma ReturnsRaisesOffAscending()
    ensures var s := DoubleSeries([Entry(1.0, 1), Entry(1.0, 5), Entry(1.0, 7), Entry(1.0, 2), Entry(1.0, 3)], "s");
            HeadAscending(s.data) && ReturnsOver(s, 3) == Err(NoSuchElement)
  {
    var s := DoubleSeries([Entry(1.0, 1), Entry(1.0, 5), Entry(1.0, 7), Entry(1.0, 2), Entry(1.0, 3)], "s");
    var lagged := [Entry(1.0, 2), Entry(1.0, 3)];
    var l := Lag(s, 3).value;
    assert l.data[0] == lagged[0] && l.data[1] == lagged[1];
    assert l == DoubleSeries(lagged, "s");
    assert Merged(s.data, lagged, Divide) == Err(NoSuchElement);
  }

  /** getLast is 0.0 on an empty series and otherwise the item just added. */
  lemma GetLastAfterAdd(s: DoubleSeries, item: real, instant: Instant)
    ensures GetLast(Named(s.name)) == 0.0
    ensures GetLast(Appended(s, item, instant)) == item
  {
  }

  /** tail(n) for n >= 0 is the last min(n, size) entries in their order, under the same name. */
  lemma TailKeepsLast(s: DoubleSeries, n: int)
    requires IsInt(n) && IsInt(|s.data|) && n >= 0
    ensures var m := if n < |s.data| then n else |s.data|;
            Tail(s, n) == Ok(DoubleSeries(s.data[|s.data| - m..], s.name))
  {
  }

  /** tail(n) for n < 0: subList rejects the start index size - n past the end, unless
      size - n overflows int and wraps to a negative start, which max turns into 0. */
  lemma TailNegative(s: DoubleSeries, n: int)
    requires IsInt(n) && IsInt(|s.data|) && n < 0
    ensures |s.data| - n <= MaxInt ==> Tail(s, n) == Err(IllegalArgument)
    ensures |s.data| - n > MaxInt ==> Tail(s, n) == Ok(s)
  {
  }

  /** tail(Integer.MIN_VALUE) returns the whole series. */
  lemma TailMinInt(s: DoubleSeries)
    requires IsInt(|s.data|)
    ensures Tail(s, MinInt) == Ok(s)
  {
    TailNegative(s, MinInt);
  }

  /** For a strictly ascending series of at least two entries, toAscending after
      toDescending gives the series back, name included. */
  lemma DirectionRoundTrip(s: DoubleSeries)
    requires StrictlyAscending(s.data) && |s.data| >= 2
    ensures ToAscending(ToDescending(s)) == s
  {
    AscendingRoundTrip(s.data);
  }
}
