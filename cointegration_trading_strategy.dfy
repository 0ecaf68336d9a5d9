/** The pair-trading strategy that feeds a cointegration tracker one pair of prices per
    tick, records seven diagnostic series, and after a warm-up trades the spread: it
    opens both legs together when the tracker's error leaves a band of one standard
    deviation of the recent errors, and closes both together when the error has crossed
    to the other side.

    The tracker, the standard deviation and the trading context are not modelled: the
    tracker is any state K with a step function and a readout, the deviation any function
    of the window of recent errors, the context's readings one Market record per tick, and
    the orders the strategy places or closes are returned as requests. */
module CointegrationTradingStrategy {
  import opened Failures
  import opened TimeSeries
  import DS = DoubleSeries

  /** What the tracker reports: getAlpha, getBeta, getError, getVariance. */
  datatype Readout = Readout(alpha: real, beta: real, error: real, variance: real)

  /** What the trading context reports during one tick. */
  datatype Market = Market(priceX: real, priceY: real, time: Instant,
                           initialFunds: real, netValue: real, leverage: real)

  /** An order handle as the context returns it: the instrument, its direction and its
      quantity. */
  datatype Order = Order(symbol: string, isLong: bool, amount: int)

  /** context.order(symbol, buy, amount) and context.close(order). */
  datatype Request = Place(order: Order) | Close(order: Order)

  /** Flat (no yOrder) or holding both legs. */
  datatype Position = Flat | Positioned(y: Order, x: Order)

  /** What onTick decides on: whether the warm-up is over, the standard deviation of the
      recent errors, the current error, the pre-step beta and the y-leg quantity before
      the cast to int. */
  datatype Signal = Signal(warm: bool, sd: real, err: real, beta: real, baseAmount: real)

  const WarmUp: nat := 30
  const WindowSize: nat := 15
  const MaxLeverage: real := 4.0

  function Abs(x: real): real
  {
    if x < 0.0 then -x else x
  }

  function Min(x: real, y: real): real
  {
    if x <= y then x else y
  }

  /** The (int) cast of a double: truncation toward zero, saturating at the int range. */
  function JavaIntCast(x: real): (r: int)
    ensures DS.IsInt(r)
    ensures x >= DS.MaxInt as real ==> r == DS.MaxInt
    ensures x <= DS.MinInt as real ==> r == DS.MinInt
    ensures DS.MinInt as real < x < DS.MaxInt as real && x >= 0.0 ==> r as real <= x < r as real + 1.0
    ensures DS.MinInt as real < x < DS.MaxInt as real && x < 0.0 ==> r as real - 1.0 < x <= r as real
  {
    if x >= DS.MaxInt as real then DS.MaxInt
    else if x <= DS.MinInt as real then DS.MinInt
    else if x >= 0.0 then x.Floor
    else -((-x).Floor)
  }

  /** The amount of x that hedges baseAmount units of y. */
  function XAmount(baseAmount: real, beta: real): real
  {
    baseAmount * beta
  }

  /** The model's value for y at price x: beta * x + alpha. */
  function Fitted(alpha: real, beta: real, priceX: real): real
  {
    beta * priceX + alpha
  }

  /** The amount of y to trade: the capital given to the pair, half of the weighted
      portfolio value times the leverage capped at 4, divided by the price of one unit of
      the spread (one y and beta x). */
  function BaseAmount(portfolioValue: real, weight: real, leverage: real,
                      priceX: real, priceY: real, beta: real): real
  {
    DS.Divide(portfolioValue * weight * 0.5 * Min(MaxLeverage, leverage), priceY + beta * priceX)
  }

  /** The recent errors: the items of the series from the last backwards, at most 15. */
  function RecentWindow(errors: seq<Entry<real>>): (r: seq<real>)
    ensures |r| == if |errors| < WindowSize then |errors| else WindowSize
    ensures forall i :: 0 <= i < |r| ==> r[i] == errors[|errors| - 1 - i].item
  {
    var newestFirst := Items(Reversed(errors));
    if |newestFirst| < WindowSize then newestFirst else newestFirst[..WindowSize]
  }

  /** The entry that opens a pair: y long when the error is negative, x long when it is
      positive, the quantities the int casts of the base amount and of base amount * beta. */
  function Legs(s: Signal, xSymbol: string, ySymbol: string): Position
  {
    Positioned(Order(ySymbol, s.err < 0.0, JavaIntCast(s.baseAmount)),
               Order(xSymbol, s.err > 0.0, JavaIntCast(XAmount(s.baseAmount, s.beta))))
  }

  /** Whether the error has crossed to the side where the y leg loses its edge. */
  predicate Crossed(y: Order, err: real)
  {
    (y.isLong && err > 0.0) || (!y.isLong && err < 0.0)
  }

  /** The decision of one tick: the new position and the orders placed or closed. */
  function Decide(pos: Position, s: Signal, xSymbol: string, ySymbol: string): (d: (Position, seq<Request>))
    // Nothing is placed or closed before the warm-up is over.
    ensures !s.warm ==> d == (pos, [])
    // A pair opens exactly when flat, outside the band, with a positive beta and at least
    // one unit of x; both legs are placed, y first.
    ensures pos.Flat? ==>
              (d.0.Positioned? <==> s.warm && Abs(s.err) > s.sd && s.beta > 0.0 && XAmount(s.baseAmount, s.beta) >= 1.0)
    ensures pos.Flat? && d.0.Positioned? ==>
              d.0 == Legs(s, xSymbol, ySymbol) && d.1 == [Place(d.0.y), Place(d.0.x)]
    // A held pair closes exactly when the error has crossed; both legs are closed, y first.
    ensures pos.Positioned? ==> (d.0.Flat? <==> s.warm && Crossed(pos.y, s.err))
    ensures pos.Positioned? && d.0.Flat? ==> d.1 == [Close(pos.y), Close(pos.x)]
    // A second pair is never opened while positioned.
    ensures pos.Positioned? ==> d.0 == pos || d.0 == Flat
    // The position changes exactly when some order is placed or closed.
    ensures d.0 == pos <==> d.1 == []
  {
    if !s.warm then (pos, [])
    else if pos.Flat? && Abs(s.err) > s.sd then
      if s.beta > 0.0 && XAmount(s.baseAmount, s.beta) >= 1.0 then
        var legs := Legs(s, xSymbol, ySymbol);
        (legs, [Place(legs.y), Place(legs.x)])
      else (pos, [])
    else if pos.Positioned? then
      if Crossed(pos.y, s.err) then (Flat, [Close(pos.y), Close(pos.x)]) else (pos, [])
    else (pos, [])
  }

  /** The decisions of a run of ticks, with the requests in order. */
  function Run(pos: Position, signals: seq<Signal>, xSymbol: string, ySymbol: string): (Position, seq<Request>)
    decreases |signals|
  {
    if |signals| == 0 then (pos, [])
    else
      var d := Decide(pos, signals[0], xSymbol, ySymbol);
      var rest := Run(d.0, signals[1..], xSymbol, ySymbol);
      (rest.0, d.1 + rest.1)
  }

  function Placed(rs: seq<Request>): nat
  {
    if |rs| == 0 then 0 else (if rs[0].Place? then 1 else 0) + Placed(rs[1..])
  }

  function Closed(rs: seq<Request>): nat
  {
    if |rs| == 0 then 0 else (if rs[0].Close? then 1 else 0) + Closed(rs[1..])
  }

  function Held(pos: Position): nat
  {
    if pos.Flat? then 0 else 2
  }

  lemma {:induction false} CountsAppend(a: seq<Request>, b: seq<Request>)
    ensures Placed(a + b) == Placed(a) + Placed(b)
    ensures Closed(a + b) == Closed(a) + Closed(b)
  {
    if |a| == 0 {
      assert a + b == b;
    } else {
      assert (a + b)[0] == a[0] && (a + b)[1..] == a[1..] + b;
      CountsAppend(a[1..], b);
    }
  }

  /** Over any run of ticks, orders are placed and closed in whole pairs only: the orders
      held at the start plus those placed are those closed plus those held at the end. */
  lemma {:induction false} RunBalanced(pos: Position, signals: seq<Signal>, xSymbol: string, ySymbol: string)
    ensures var r := Run(pos, signals, xSymbol, ySymbol);
            Held(pos) + Placed(r.1) == Closed(r.1) + Held(r.0)
    decreases |signals|
  {
    if |signals| > 0 {
      var d := Decide(pos, signals[0], xSymbol, ySymbol);
      var rest := Run(d.0, signals[1..], xSymbol, ySymbol);
      RunBalanced(d.0, signals[1..], xSymbol, ySymbol);
      CountsAppend(d.1, rest.1);
      assert Held(pos) + Placed(d.1) == Closed(d.1) + Held(d.0);
    }
  }

  /** A run whose first n ticks are still warming up places and closes nothing in them. */
  lemma {:induction false} WarmUpHoldsOff(pos: Position, signals: seq<Signal>, xSymbol: string, ySymbol: string)
    requires forall i :: 0 <= i < |signals| ==> !signals[i].warm
    ensures Run(pos, signals, xSymbol, ySymbol) == (pos, [])
    decreases |signals|
  {
    if |signals| > 0 {
      assert Decide(pos, signals[0], xSymbol, ySymbol) == (pos, []);
      WarmUpHoldsOff(pos, signals[1..], xSymbol, ySymbol);
      assert Run(pos, signals, xSymbol, ySymbol).1 == [] + [];
    }
  }

  class CointegrationTradingStrategy<K> {
    const reinvest: bool := false
    const weight: real
    const xSymbol: string
    const ySymbol: string

    /** The tracker: new Cointegration(delta, r), step(x, y) and its readouts. */
    const newTracker: (real, real) -> K
    const step: (K, real, real) -> K
    const readout: K -> Readout
    /** Math.sqrt(StatUtils.variance(window)). */
    const deviation: seq<real> -> real

    var cointegration: Option<K>

    var alphaSeries: DS.DoubleSeries
    var betaSeries: DS.DoubleSeries
    var xSeries: DS.DoubleSeries
    var ySeries: DS.DoubleSeries
    var errorSeries: DS.DoubleSeries
    var varianceSeries: DS.DoubleSeries
    var modelSeries: DS.DoubleSeries

    var xOrder: Option<Order>
    var yOrder: Option<Order>

    /** Both legs are held or neither is, and the diagnostic series have one entry per tick. */
    ghost predicate Valid()
      reads this
    {
      (xOrder.None? <==> yOrder.None?)
      && |alphaSeries.data| == |errorSeries.data| && |betaSeries.data| == |errorSeries.data|
      && |xSeries.data| == |errorSeries.data| && |ySeries.data| == |errorSeries.data|
      && |varianceSeries.data| == |errorSeries.data| && |modelSeries.data| == |errorSeries.data|
    }

    function Position(): (p: Position)
      reads this
      ensures p.Flat? <==> yOrder.None? || xOrder.None?
    {
      if yOrder.Some? && xOrder.Some? then Positioned(yOrder.value, xOrder.value) else Flat
    }

    /** CointegrationTradingStrategy(weight, x, y). */
    constructor (weight: real, x: string, y: string, newTracker: (real, real) -> K,
                 step: (K, real, real) -> K, readout: K -> Readout, deviation: seq<real> -> real)
      ensures this.weight == weight && xSymbol == x && ySymbol == y
      ensures this.newTracker == newTracker && this.step == step
      ensures this.readout == readout && this.deviation == deviation
      ensures cointegration.None? && xOrder.None? && yOrder.None?
      ensures Valid()
    {
      this.weight := weight;
      xSymbol := x;
      ySymbol := y;
      this.newTracker := newTracker;
      this.step := step;
      this.readout := readout;
      this.deviation := deviation;
      cointegration := None;
      alphaSeries, betaSeries := DS.Named(""), DS.Named("");
      xSeries, ySeries := DS.Named(""), DS.Named("");
      errorSeries, varianceSeries, modelSeries := DS.Named(""), DS.Named(""), DS.Named("");
      xOrder, yOrder := None, None;
    }

    /** CointegrationTradingStrategy(x, y): weight 1. */
    constructor Unweighted(x: string, y: string, newTracker: (real, real) -> K,
                           step: (K, real, real) -> K, readout: K -> Readout, deviation: seq<real> -> real)
      ensures weight == 1.0 && xSymbol == x && ySymbol == y
      ensures this.newTracker == newTracker && this.step == step
      ensures this.readout == readout && this.deviation == deviation
      ensures cointegration.None? && xOrder.None? && yOrder.None?
      ensures Valid()
    {
      weight := 1.0;
      xSymbol := x;
      ySymbol := y;
      this.newTracker := newTracker;
      this.step := step;
      this.readout := readout;
      this.deviation := deviation;
      cointegration := None;
      alphaSeries, betaSeries := DS.Named(""), DS.Named("");
      xSeries, ySeries := DS.Named(""), DS.Named("");
      errorSeries, varianceSeries, modelSeries := DS.Named(""), DS.Named(""), DS.Named("");
      xOrder, yOrder := None, None;
    }

    /** onStart: a fresh tracker with delta 1e-10 and observation variance 1e-7, and seven
        empty named series. The order fields are left as they are. */
    method OnStart()
      modifies this
      ensures cointegration == Some(newTracker(0.0000000001, 0.0000001))
      ensures alphaSeries == DS.Named("alpha") && betaSeries == DS.Named("beta")
      ensures xSeries == DS.Named("x") && ySeries == DS.Named("y")
      ensures errorSeries == DS.Named("error") && varianceSeries == DS.Named("variance")
      ensures modelSeries == DS.Named("model")
      ensures xOrder == old(xOrder) && yOrder == old(yOrder)
      ensures old(Valid()) ==> Valid()
    {
      cointegration := Some(newTracker(0.0000000001, 0.0000001));
      InitializeSeries();
    }

    method InitializeSeries()
      modifies this
      ensures cointegration == old(cointegration)
      ensures alphaSeries == DS.Named("alpha") && betaSeries == DS.Named("beta")
      ensures xSeries == DS.Named("x") && ySeries == DS.Named("y")
      ensures errorSeries == DS.Named("error") && varianceSeries == DS.Named("variance")
      ensures modelSeries == DS.Named("model")
      ensures xOrder == old(xOrder) && yOrder == old(yOrder)
      ensures old(Valid()) ==> Valid()
    {
      alphaSeries := DS.Named("alpha");
      betaSeries := DS.Named("beta");
      xSeries := DS.Named("x");
      ySeries := DS.Named("y");
      errorSeries := DS.Named("error");
      varianceSeries := DS.Named("variance");
      modelSeries := DS.Named("model");
    }

    /** The signal onTick decides on once the tick's entries are recorded. */
    function SignalOf(m: Market, beta: real, err: real, errors: seq<Entry<real>>): Signal
      reads this
    {
      var portfolioValue := if reinvest then m.netValue else m.initialFunds;
      Signal(|errors| > WarmUp, deviation(RecentWindow(errors)), err, beta,
             BaseAmount(portfolioValue, weight, m.leverage, m.priceX, m.priceY, beta))
    }

    /** onTick: reads alpha and beta, steps the tracker on the two prices, appends one
        entry at the tick's time to each of the seven series (alpha, beta and the model
        value beta * priceX + alpha from before the step, error and variance from after),
        and then opens, keeps or closes the pair as Decide says. */
    method OnTick(m: Market) returns (requests: seq<Request>)
      requires cointegration.Some? && Valid()
      modifies this
      ensures Valid()
      ensures var pre := readout(old(cointegration).value);
              var next := step(old(cointegration).value, m.priceX, m.priceY);
              var post := readout(next);
              cointegration == Some(next)
              && alphaSeries == DS.Appended(old(alphaSeries), pre.alpha, m.time)
              && betaSeries == DS.Appended(old(betaSeries), pre.beta, m.time)
              && xSeries == DS.Appended(old(xSeries), m.priceX, m.time)
              && ySeries == DS.Appended(old(ySeries), m.priceY, m.time)
              && errorSeries == DS.Appended(old(errorSeries), post.error, m.time)
              && varianceSeries == DS.Appended(old(varianceSeries), post.variance, m.time)
              && modelSeries == DS.Appended(old(modelSeries), Fitted(pre.alpha, pre.beta, m.priceX), m.time)
              && (Position(), requests) == Decide(old(Position()), SignalOf(m, pre.beta, post.error, errorSeries.data), xSymbol, ySymbol)
    {
      var alpha, beta, currentError := RecordTick(m);
      requests := Trade(m, beta, currentError);
    }

    /** The recording half of onTick: the tracker step and the seven appends. Returns the
        pre-step alpha and beta and the post-step error. */
    method RecordTick(m: Market) returns (alpha: real, beta: real, currentError: real)
      requires cointegration.Some? && Valid()
      modifies this
      ensures Valid() && xOrder == old(xOrder) && yOrder == old(yOrder)
      ensures alpha == readout(old(cointegration).value).alpha && beta == readout(old(cointegration).value).beta
      ensures cointegration == Some(step(old(cointegration).value, m.priceX, m.priceY))
      ensures currentError == readout(cointegration.value).error
      ensures alphaSeries == DS.Appended(old(alphaSeries), alpha, m.time)
      ensures betaSeries == DS.Appended(old(betaSeries), beta, m.time)
      ensures xSeries == DS.Appended(old(xSeries), m.priceX, m.time)
      ensures ySeries == DS.Appended(old(ySeries), m.priceY, m.time)
      ensures errorSeries == DS.Appended(old(errorSeries), currentError, m.time)
      ensures varianceSeries == DS.Appended(old(varianceSeries), readout(cointegration.value).variance, m.time)
      ensures modelSeries == DS.Appended(old(modelSeries), Fitted(alpha, beta, m.priceX), m.time)
    {
      var priceX, priceY := m.priceX, m.priceY;
      var tracker := cointegration.value;
      alpha := readout(tracker).alpha;
      beta := readout(tracker).beta;

      tracker := step(tracker, priceX, priceY);
      cointegration := Some(tracker);
      alphaSeries := DS.Appended(alphaSeries, alpha, m.time);
      betaSeries := DS.Appended(betaSeries, beta, m.time);
      xSeries := DS.Appended(xSeries, priceX, m.time);
      ySeries := DS.Appended(ySeries, priceY, m.time);
      errorSeries := DS.Appended(errorSeries, readout(tracker).error, m.time);
      varianceSeries := DS.Appended(varianceSeries, readout(tracker).variance, m.time);

      currentError := readout(tracker).error;
      modelSeries := DS.Appended(modelSeries, Fitted(alpha, beta, priceX), m.time);
    }

    /** The trading half of onTick, on the error series as recorded. */
    method Trade(m: Market, beta: real, currentError: real) returns (requests: seq<Request>)
      requires Valid()
      modifies this
      ensures Valid()
      ensures cointegration == old(cointegration)
      ensures alphaSeries == old(alphaSeries) && betaSeries == old(betaSeries)
      ensures xSeries == old(xSeries) && ySeries == old(ySeries)
      ensures errorSeries == old(errorSeries) && varianceSeries == old(varianceSeries)
      ensures modelSeries == old(modelSeries)
      ensures (Position(), requests)
              == Decide(old(Position()), SignalOf(m, beta, currentError, errorSeries.data), xSymbol, ySymbol)
    {
      requests := [];
      if |errorSeries.data| > WarmUp {
        var recentErrors := RecentWindow(errorSeries.data);
        var standardDeviation := deviation(recentErrors);

        if yOrder.None? && Abs(currentError) > standardDeviation {
          var portfolioValue := if reinvest then m.netValue else m.initialFunds;
          var baseAmount := BaseAmount(portfolioValue, weight, m.leverage, m.priceX, m.priceY, beta);

          if beta > 0.0 && XAmount(baseAmount, beta) >= 1.0 {
            yOrder := Some(Order(ySymbol, currentError < 0.0, JavaIntCast(baseAmount)));
            xOrder := Some(Order(xSymbol, currentError > 0.0, JavaIntCast(XAmount(baseAmount, beta))));
            requests := [Place(yOrder.value), Place(xOrder.value)];
          }
        } else if yOrder.Some? {
          if Crossed(yOrder.value, currentError) {
            requests := [Close(yOrder.value), Close(xOrder.value)];
            yOrder := None;
            xOrder := None;
          }
        }
      }
    }
  }

  /** The deviation window is never empty once a tick is recorded, and it starts with the
      error just recorded. */
  lemma WindowHoldsCurrentError(errors: seq<Entry<real>>, err: real, time: Instant)
    ensures var w := RecentWindow(errors + [Entry(err, time)]);
            0 < |w| <= WindowSize && w[0] == err
  {
  }
}
