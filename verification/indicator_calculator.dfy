/** The fixed-formula technical indicators of backend/services/indicator_calculator.py.
    Every calculation is a function of its inputs, so identical input always
    gives identical output. Prices are exact reals; pandas' NaN is `None`. */
module IndicatorCalculator {
  import opened Wrappers
  import opened Series
  import opened DataFrame
  import PyText

  /** A parameter value as Python hands it over: an int, a float, a list, or
      anything else (a string, None, ...). */
  datatype Arg = IntArg(i: int) | FloatArg(f: real) | ListArg(items: seq<Arg>) | OtherArg

  /** The reasons an `IndicatorCalculationError` is raised. `InvalidParameter`
      stands for a negative window, a span or a smoothing factor that pandas
      itself refuses, `NonFinite` for a result the source would fill with an
      infinity. */
  datatype CalcError =
    | EmptyData
    | MissingColumns(columns: seq<string>)
    | EmptyPeriods
    | InvalidPeriod(period: Arg)
    | InsufficientData(required: int, got: nat)
    | PeriodOrder(fast: int, slow: int)
    | InvalidStdDev(stdDev: Arg)
    | InvalidParameter
    | NonFinite

  // ---------------------------------------------------------------- guards

  /** `_validate_data`: the frame must not be empty and must hold every
      required column; the error names the missing ones in order. */
  function ValidateData(data: Frame, required: seq<string>): (e: Option<CalcError>)
    ensures e == None <==> !IsEmpty(data) && forall c :: c in required ==> c in data.columns
    ensures e.Some? && !IsEmpty(data) ==>
              e.value.MissingColumns? && e.value.columns != []
              && forall c :: c in e.value.columns <==> c in required && c !in data.columns
  {
    if IsEmpty(data) then Some(EmptyData)
    else
      var missing := MissingNames(required, data.columns.Keys);
      if missing != [] then Some(MissingColumns(missing)) else None
  }

  /** `_validate_data_length`. */
  function ValidateDataLength(data: Frame, minLength: int): (e: Option<CalcError>)
    ensures e == None <==> data.length >= minLength
    ensures e.Some? ==> e.value == InsufficientData(minLength, data.length)
  {
    if data.length < minLength then Some(InsufficientData(minLength, data.length)) else None
  }

  predicate IsPositiveInt(p: Arg) {
    p.IntArg? && p.i > 0
  }

  /** `_validate_period`: an int greater than zero. */
  function ValidatePeriod(p: Arg): (e: Option<CalcError>)
    ensures e == None <==> IsPositiveInt(p)
    ensures e.Some? ==> e.value == InvalidPeriod(p)
  {
    if IsPositiveInt(p) then None else Some(InvalidPeriod(p))
  }

  function Close(data: Frame): (c: seq<real>)
    requires "close" in data.columns
    ensures |c| == data.length
  {
    data.columns["close"]
  }

  // ---------------------------------------------------------------- MA

  function MaName(p: nat): string {
    "MA" + PyText.NatToString(p)
  }

  lemma NameInjective(tag: string, m: nat, n: nat)
    requires tag + PyText.NatToString(m) == tag + PyText.NatToString(n)
    ensures m == n
  {
    assert PyText.NatToString(m) == (tag + PyText.NatToString(m))[|tag|..];
    assert PyText.NatToString(n) == (tag + PyText.NatToString(n))[|tag|..];
    PyText.NatToStringInjective(m, n);
  }

  predicate MaPeriodFits(p: Arg, length: nat) {
    IsPositiveInt(p) && p.i <= length
  }

  /** The guard loop of `calculate_ma`: each period in turn must be a positive
      int and must not exceed the number of rows; the first failure is reported. */
  function CheckMaPeriods(ps: seq<Arg>, length: nat): (e: Option<CalcError>)
    ensures e == None <==> forall i :: 0 <= i < |ps| ==> MaPeriodFits(ps[i], length)
    ensures e.Some? ==> exists k :: 0 <= k < |ps| && !MaPeriodFits(ps[k], length)
                          && (forall i :: 0 <= i < k ==> MaPeriodFits(ps[i], length))
                          && e.value == (if IsPositiveInt(ps[k]) then InsufficientData(ps[k].i, length)
                                         else InvalidPeriod(ps[k]))
  {
    if ps == [] then None
    else if !IsPositiveInt(ps[0]) then Some(InvalidPeriod(ps[0]))
    else if length < ps[0].i then Some(InsufficientData(ps[0].i, length))
    else
      var e := CheckMaPeriods(ps[1..], length);
      assert forall i :: 1 <= i < |ps| ==> ps[i] == ps[1..][i - 1];
      if e.Some? then
        var k' :| 0 <= k' < |ps| - 1 && !MaPeriodFits(ps[1..][k'], length)
                  && (forall i :: 0 <= i < k' ==> MaPeriodFits(ps[1..][i], length))
                  && e.value == (if IsPositiveInt(ps[1..][k']) then InsufficientData(ps[1..][k'].i, length)
                                 else InvalidPeriod(ps[1..][k']));
        assert ps[k' + 1] == ps[1..][k'];
        e
      else e
  }

  function PeriodInts(ps: seq<Arg>): (r: seq<nat>)
    requires forall i :: 0 <= i < |ps| ==> IsPositiveInt(ps[i])
    ensures |r| == |ps| && forall i :: 0 <= i < |ps| ==> IntArg(r[i]) == ps[i] && r[i] >= 1
  {
    if ps == [] then []
    else
      assert IsPositiveInt(ps[0]);
      [ps[0].i as nat] + PeriodInts(ps[1..])
  }

  /** The result dictionary of `calculate_ma`, filled period by period
      (a repeated period simply writes the same entry again). */
  function MaTable(close: seq<real>, ps: seq<nat>): (m: map<string, Column>)
    requires forall i :: 0 <= i < |ps| ==> ps[i] >= 1
    ensures forall k :: k in m ==> |m[k]| == |close|
    ensures forall k :: k in m ==> exists i :: 0 <= i < |ps| && k == MaName(ps[i])
  {
    if ps == [] then map[]
    else
      var last := ps[|ps| - 1];
      MaTable(close, ps[..|ps| - 1])[MaName(last) := Rolling(Lift(close), last, MeanOf)]
  }

  /** Every requested period has its entry, holding that period's rolling mean. */
  lemma {:induction false} MaTableAt(close: seq<real>, ps: seq<nat>, i: nat)
    requires forall j :: 0 <= j < |ps| ==> ps[j] >= 1
    requires i < |ps|
    ensures MaName(ps[i]) in MaTable(close, ps)
    ensures MaTable(close, ps)[MaName(ps[i])] == Rolling(Lift(close), ps[i], MeanOf)
  {
    var last := ps[|ps| - 1];
    if i < |ps| - 1 {
      MaTableAt(close, ps[..|ps| - 1], i);
      if MaName(ps[i]) == MaName(last) {
        NameInjective("MA", ps[i], last);
      }
    }
  }

  /** `calculate_ma(data, periods)`. */
  function CalculateMa(data: Frame, periods: Arg): (r: Result<map<string, Column>, CalcError>)
    ensures r.Success? <==>
              ValidateData(data, ["close"]) == None && periods.ListArg? && periods.items != []
              && forall i :: 0 <= i < |periods.items| ==> MaPeriodFits(periods.items[i], data.length)
    ensures ValidateData(data, ["close"]) == None && !(periods.ListArg? && periods.items != []) ==>
              r == Failure(EmptyPeriods)
    ensures r.Success? ==> forall k :: k in r.value ==> |r.value[k]| == data.length
  {
    var e := ValidateData(data, ["close"]);
    if e.Some? then Failure(e.value)
    else if !periods.ListArg? || periods.items == [] then Failure(EmptyPeriods)
    else
      var e' := CheckMaPeriods(periods.items, data.length);
      if e'.Some? then Failure(e'.value)
      else Success(MaTable(Close(data), PeriodInts(periods.items)))
  }

  /** MA{p} is undefined for the first p-1 rows and is the mean of the last p
      closes from then on. */
  lemma MaIsWindowMean(data: Frame, periods: Arg, p: nat, t: nat)
    requires CalculateMa(data, periods).Success?
    requires periods.ListArg? && IntArg(p) in periods.items
    requires t < data.length
    ensures MaName(p) in CalculateMa(data, periods).value
    ensures t < p - 1 ==> CalculateMa(data, periods).value[MaName(p)][t] == None
    ensures p - 1 <= t ==> CalculateMa(data, periods).value[MaName(p)][t]
                             == Some(Mean(Close(data)[t + 1 - p..t + 1]))
  {
    var ps := PeriodInts(periods.items);
    var i :| 0 <= i < |periods.items| && periods.items[i] == IntArg(p);
    MaTableAt(Close(data), ps, i);
    RollingLifted(Close(data), p, MeanOf, t);
  }

  // ---------------------------------------------------------------- EMA

  function EmaName(p: nat): string {
    "EMA" + PyText.NatToString(p)
  }

  /** `calculate_ema`: each period is checked as it is reached; an empty list
      gives an empty result (unlike `calculate_ma`). */
  function CalculateEma(data: Frame, periods: seq<Arg>): (r: Result<map<string, seq<real>>, CalcError>)
    ensures r.Success? <==>
              ValidateData(data, ["close"]) == None && forall i :: 0 <= i < |periods| ==> IsPositiveInt(periods[i])
    ensures r.Success? ==> forall i :: 0 <= i < |periods| ==>
              EmaName(periods[i].i) in r.value
              && r.value[EmaName(periods[i].i)] == Ewm(Close(data), SpanAlpha(periods[i].i))
    ensures r.Success? ==> forall k :: k in r.value ==> exists i :: 0 <= i < |periods| && k == EmaName(periods[i].i)
  {
    var e := ValidateData(data, ["close"]);
    if e.Some? then Failure(e.value)
    else EmaTable(Close(data), periods)
  }

  function EmaTable(close: seq<real>, ps: seq<Arg>): (r: Result<map<string, seq<real>>, CalcError>)
    ensures r.Success? <==> forall i :: 0 <= i < |ps| ==> IsPositiveInt(ps[i])
    ensures r.Success? ==> forall i :: 0 <= i < |ps| ==>
              EmaName(ps[i].i) in r.value && r.value[EmaName(ps[i].i)] == Ewm(close, SpanAlpha(ps[i].i))
    ensures r.Success? ==> forall k :: k in r.value ==> exists i :: 0 <= i < |ps| && k == EmaName(ps[i].i)
  {
    if ps == [] then Success(map[])
    else
      var init := EmaTable(close, ps[..|ps| - 1]);
      var last := ps[|ps| - 1];
      if init.Failure? then init
      else if !IsPositiveInt(last) then Failure(InvalidPeriod(last))
      else
        var m := init.value[EmaName(last.i) := Ewm(close, SpanAlpha(last.i))];
        assert forall i :: 0 <= i < |ps| - 1 ==> ps[i] == ps[..|ps| - 1][i];
        assert forall i :: 0 <= i < |ps| - 1 && EmaName(ps[i].i) == EmaName(last.i) ==> ps[i].i == last.i by {
          forall i | 0 <= i < |ps| - 1 && EmaName(ps[i].i) == EmaName(last.i) ensures ps[i].i == last.i {
            NameInjective("EMA", ps[i].i, last.i);
          }
        }
        Success(m)
  }

  // ---------------------------------------------------------------- MACD

  datatype Macd = Macd(dif: seq<real>, dea: seq<real>, histogram: seq<real>)

  function Minus(a: seq<real>, b: seq<real>): (r: seq<real>)
    requires |a| == |b|
    ensures |r| == |a| && forall t :: 0 <= t < |a| ==> r[t] == a[t] - b[t]
  {
    seq(|a|, t requires 0 <= t < |a| => a[t] - b[t])
  }

  /** DIF = fast EMA - slow EMA, DEA = EMA of DIF, histogram = DIF - DEA. */
  function MacdOf(close: seq<real>, fast: nat, slow: nat, signal: nat): (m: Macd)
    requires fast >= 1 && slow >= 1 && signal >= 1
    ensures |m.dif| == |m.dea| == |m.histogram| == |close|
  {
    var dif := Minus(Ewm(close, SpanAlpha(fast)), Ewm(close, SpanAlpha(slow)));
    var dea := Ewm(dif, SpanAlpha(signal));
    Macd(dif, dea, Minus(dif, dea))
  }

  /** `calculate_macd`: data, then the three periods, then fast < slow, then
      at least slow + signal rows. */
  function CalculateMacd(data: Frame, fast: Arg, slow: Arg, signal: Arg): (r: Result<Macd, CalcError>)
    ensures r.Success? <==>
              ValidateData(data, ["close"]) == None
              && IsPositiveInt(fast) && IsPositiveInt(slow) && IsPositiveInt(signal)
              && fast.i < slow.i && data.length >= slow.i + signal.i
    ensures (ValidateData(data, ["close"]) == None && IsPositiveInt(fast) && IsPositiveInt(slow)
             && IsPositiveInt(signal) && fast.i >= slow.i) ==> r == Failure(PeriodOrder(fast.i, slow.i))
    ensures r.Success? ==> r.value == MacdOf(Close(data), fast.i, slow.i, signal.i)
  {
    var e := ValidateData(data, ["close"]);
    if e.Some? then Failure(e.value)
    else if !IsPositiveInt(fast) then Failure(InvalidPeriod(fast))
    else if !IsPositiveInt(slow) then Failure(InvalidPeriod(slow))
    else if !IsPositiveInt(signal) then Failure(InvalidPeriod(signal))
    else if fast.i >= slow.i then Failure(PeriodOrder(fast.i, slow.i))
    else
      var e' := ValidateDataLength(data, slow.i + signal.i);
      if e'.Some? then Failure(e'.value)
      else Success(MacdOf(Close(data), fast.i, slow.i, signal.i))
  }

  /** The histogram is positive exactly where DIF is above DEA, so it crosses
      zero exactly where DIF crosses DEA; it starts at zero. */
  lemma MacdCrossings(close: seq<real>, fast: nat, slow: nat, signal: nat)
    requires fast >= 1 && slow >= 1 && signal >= 1
    ensures var m := MacdOf(close, fast, slow, signal);
            (forall t :: 0 <= t < |close| ==> (m.histogram[t] > 0.0 <==> m.dif[t] > m.dea[t]))
            && (forall t :: 0 < t < |close| ==>
                  ((m.histogram[t - 1] <= 0.0 && m.histogram[t] > 0.0) <==> (m.dif[t - 1] <= m.dea[t - 1] && m.dif[t] > m.dea[t]))
                  && ((m.histogram[t - 1] >= 0.0 && m.histogram[t] < 0.0) <==> (m.dif[t - 1] >= m.dea[t - 1] && m.dif[t] < m.dea[t])))
            && (|close| > 0 ==> m.histogram[0] == 0.0)
  {
  }

  /** On a flat market (every close the same) DIF, DEA and the histogram are
      zero throughout. */
  lemma MacdFlatMarket(close: seq<real>, fast: nat, slow: nat, signal: nat, c: real)
    requires fast >= 1 && slow >= 1 && signal >= 1
    requires forall t :: 0 <= t < |close| ==> close[t] == c
    ensures var m := MacdOf(close, fast, slow, signal);
            forall t :: 0 <= t < |close| ==> m.dif[t] == 0.0 && m.dea[t] == 0.0 && m.histogram[t] == 0.0
  {
    EwmBounded(close, SpanAlpha(fast), c, c);
    EwmBounded(close, SpanAlpha(slow), c, c);
    var dif := Minus(Ewm(close, SpanAlpha(fast)), Ewm(close, SpanAlpha(slow)));
    EwmBounded(dif, SpanAlpha(signal), 0.0, 0.0);
  }

  // ---------------------------------------------------------------- RSI

  /** `delta.where(delta > 0, 0.0)`: the first period has no change (NaN, which
      the `where` turns into 0). */
  function Gains(x: seq<real>): (g: seq<real>)
    ensures |g| == |x| && forall t :: 0 <= t < |x| ==> g[t] >= 0.0
  {
    seq(|x|, t requires 0 <= t < |x| => if t > 0 && x[t] - x[t - 1] > 0.0 then x[t] - x[t - 1] else 0.0)
  }

  /** `-delta.where(delta < 0, 0.0)`. */
  function Losses(x: seq<real>): (l: seq<real>)
    ensures |l| == |x| && forall t :: 0 <= t < |x| ==> l[t] >= 0.0
  {
    seq(|x|, t requires 0 <= t < |x| => if t > 0 && x[t] - x[t - 1] < 0.0 then x[t - 1] - x[t] else 0.0)
  }

  /** Each price change is split into a gain and a loss, one of them zero. */
  lemma GainsLossesSplit(x: seq<real>, t: nat)
    requires 0 < t < |x|
    ensures Gains(x)[t] - Losses(x)[t] == x[t] - x[t - 1]
    ensures Gains(x)[t] == 0.0 || Losses(x)[t] == 0.0
  {
  }

  /** `100 - 100 / (1 + RS)` with RS = gain / loss; a zero average loss gives
      an infinite RS (or NaN for 0/0), both of which end at 100. */
  function RsiValue(gain: real, loss: real): (r: real)
    requires gain >= 0.0 && loss >= 0.0
    ensures 0.0 <= r <= 100.0
    ensures loss == 0.0 ==> r == 100.0
    ensures loss > 0.0 ==> r == 100.0 * gain / (gain + loss)
  {
    if loss == 0.0 then 100.0
    else
      var rs := gain / loss;
      var d := gain + loss;
      assert (1.0 + rs) * loss == d by { assert rs * loss == gain; }
      DivUnique(d, loss, 1.0 + rs);
      assert 100.0 / (1.0 + rs) == 100.0 * loss / d;
      DivUnique(100.0 * (d - loss), d, 100.0 - 100.0 * loss / d);
      assert 100.0 * gain / d <= 100.0 by { assert gain <= d; }
      100.0 - 100.0 / (1.0 + rs)
  }

  /** The RSI series: smoothed gains over smoothed losses. It stays within
      [0, 100] and starts at 100 (the first period has neither gain nor loss). */
  function RsiOf(close: seq<real>, period: nat): (r: seq<real>)
    requires period >= 1
    ensures |r| == |close|
    ensures forall t :: 0 <= t < |r| ==> 0.0 <= r[t] <= 100.0
    ensures |close| > 0 ==> r[0] == 100.0
    ensures forall t :: 0 <= t < |r| && Ewm(Losses(close), SpanAlpha(period))[t] == 0.0 ==> r[t] == 100.0
  {
    var a := SpanAlpha(period);
    var g := Gains(close);
    var l := Losses(close);
    if close == [] then []
    else
      EwmBounded(g, a, 0.0, Max(g));
      EwmBounded(l, a, 0.0, Max(l));
      var ag := Ewm(g, a);
      var al := Ewm(l, a);
      seq(|close|, t requires 0 <= t < |close| => RsiValue(ag[t], al[t]))
  }

  /** `calculate_rsi`: at least period + 1 rows. */
  function CalculateRsi(data: Frame, period: Arg): (r: Result<seq<real>, CalcError>)
    ensures r.Success? <==>
              ValidateData(data, ["close"]) == None && IsPositiveInt(period) && data.length >= period.i + 1
    ensures r.Success? ==> r.value == RsiOf(Close(data), period.i)
  {
    var e := ValidateData(data, ["close"]);
    if e.Some? then Failure(e.value)
    else if !IsPositiveInt(period) then Failure(InvalidPeriod(period))
    else
      var e' := ValidateDataLength(data, period.i + 1);
      if e'.Some? then Failure(e'.value)
      else Success(RsiOf(Close(data), period.i))
  }

  // ---------------------------------------------------------------- BOLL

  type NonNegReal = r: real | r >= 0.0

  function SquaredDeviations(w: seq<real>, m: real): (d: seq<real>)
    ensures |d| == |w| && forall i :: 0 <= i < |w| ==> d[i] >= 0.0
  {
    seq(|w|, i requires 0 <= i < |w| => Square(w[i] - m))
  }

  /** The sample variance (ddof = 1) pandas' rolling `std` squares. */
  function SampleVariance(w: seq<real>): (v: real)
    requires |w| >= 2
    ensures v >= 0.0
  {
    var d := SquaredDeviations(w, Mean(w));
    SumNonneg(d);
    Sum(d) / (|w| - 1) as real
  }

  datatype Bands = Bands(upper: Column, middle: Column, lower: Column)

  /** The bands for a window of `period` rows and a width of `width` standard
      deviations; `root` is the square root. With a one-row window the sample
      deviation is NaN, so the outer bands stay undefined. */
  function BollOf(close: seq<real>, period: nat, width: real, root: real -> NonNegReal): (b: Bands)
    requires period >= 1 && width > 0.0
    ensures |b.upper| == |b.middle| == |b.lower| == |close|
  {
    var middle := Rolling(Lift(close), period, MeanOf);
    var std := seq(|close|, t requires 0 <= t < |close| =>
                 if period >= 2 && t + 1 >= period then Some(root(SampleVariance(Window(close, t, period)))) else None);
    Bands(
      seq(|close|, t requires 0 <= t < |close| =>
        if middle[t].Some? && std[t].Some? then Some(middle[t].value + width * std[t].value) else None),
      middle,
      seq(|close|, t requires 0 <= t < |close| =>
        if middle[t].Some? && std[t].Some? then Some(middle[t].value - width * std[t].value) else None))
  }

  /** The middle band is the window mean; the outer bands exist from the
      first full window on (for windows of two or more rows), lie on either
      side of it at the same distance. */
  lemma BollBandsOrdered(close: seq<real>, period: nat, width: real, root: real -> NonNegReal, t: nat)
    requires period >= 1 && width > 0.0 && t < |close|
    ensures var b := BollOf(close, period, width, root);
            (b.middle[t].Some? <==> t + 1 >= period)
            && (b.middle[t].Some? ==> b.middle[t].value == Mean(Window(close, t, period)))
            && (b.upper[t].Some? <==> period >= 2 && t + 1 >= period)
            && (b.lower[t].Some? <==> b.upper[t].Some?)
            && (b.upper[t].Some? ==>
                  b.lower[t].value <= b.middle[t].value <= b.upper[t].value
                  && b.upper[t].value - b.middle[t].value == b.middle[t].value - b.lower[t].value)
  {
    RollingLifted(close, period, MeanOf, t);
    var b := BollOf(close, period, width, root);
    if b.upper[t].Some? {
      var sd: real := root(SampleVariance(Window(close, t, period)));
      MulNonneg(width, sd);
    }
  }

  function WidthOf(a: Arg): real
    requires a.IntArg? || a.FloatArg?
  {
    if a.IntArg? then a.i as real else a.f
  }

  predicate ValidWidth(a: Arg) {
    (a.IntArg? || a.FloatArg?) && WidthOf(a) > 0.0
  }

  /** `calculate_boll`: data, period, a positive int or float width, then at
      least `period` rows. */
  function CalculateBoll(data: Frame, period: Arg, stdDev: Arg, root: real -> NonNegReal): (r: Result<Bands, CalcError>)
    ensures r.Success? <==>
              ValidateData(data, ["close"]) == None && IsPositiveInt(period) && ValidWidth(stdDev)
              && data.length >= period.i
    ensures ValidateData(data, ["close"]) == None && IsPositiveInt(period) && !ValidWidth(stdDev) ==>
              r == Failure(InvalidStdDev(stdDev))
    ensures r.Success? ==> r.value == BollOf(Close(data), period.i, WidthOf(stdDev), root)
  {
    var e := ValidateData(data, ["close"]);
    if e.Some? then Failure(e.value)
    else if !IsPositiveInt(period) then Failure(InvalidPeriod(period))
    else if !ValidWidth(stdDev) then Failure(InvalidStdDev(stdDev))
    else
      var e' := ValidateDataLength(data, period.i);
      if e'.Some? then Failure(e'.value)
      else Success(BollOf(Close(data), period.i, WidthOf(stdDev), root))
  }

  // ---------------------------------------------------------------- bars

  /** The high, low and close columns of a frame that holds all three. */
  predicate HasBars(data: Frame) {
    "high" in data.columns && "low" in data.columns && "close" in data.columns
  }

  /** Every close lies between its bar's low and high. */
  predicate ConsistentBars(high: seq<real>, low: seq<real>, close: seq<real>)
    requires |high| == |low| == |close|
  {
    forall t :: 0 <= t < |close| ==> low[t] <= close[t] <= high[t]
  }

  /** The n-period lowest low and highest high both bracket the bar at t. */
  lemma WindowRange(high: seq<real>, low: seq<real>, n: nat, t: nat)
    requires |high| == |low| && 1 <= n <= t + 1 <= |low|
    ensures Min(Window(low, t, n)) <= low[t] && high[t] <= Max(Window(high, t, n))
    ensures forall i :: t + 1 - n <= i <= t ==> Min(Window(low, t, n)) <= low[i] && high[i] <= Max(Window(high, t, n))
  {
    assert forall i :: t + 1 - n <= i <= t ==> Window(low, t, n)[i - (t + 1 - n)] == low[i];
    assert forall i :: t + 1 - n <= i <= t ==> Window(high, t, n)[i - (t + 1 - n)] == high[i];
  }

  // ---------------------------------------------------------------- KDJ

  /** RSV at period t: the close's place in the n-period range, in percent.
      The warm-up and the 0/0 of a flat range are filled with 50. `None` marks the infinite value a flat
      range with a close off that single price would give. */
  function RsvAt(high: seq<real>, low: seq<real>, close: seq<real>, n: nat, t: nat): Option<real>
    requires |high| == |low| == |close| && t < |close|
  {
    if n == 0 || t + 1 < n then Some(50.0)
    else
      var ll := Min(Window(low, t, n));
      var hh := Max(Window(high, t, n));
      if hh - ll != 0.0 then Some((close[t] - ll) / (hh - ll) * 100.0)
      else if close[t] - ll == 0.0 then Some(50.0)
      else None
  }

  function Rsv(high: seq<real>, low: seq<real>, close: seq<real>, n: nat): (r: Column)
    requires |high| == |low| == |close|
    ensures |r| == |close| && forall t :: 0 <= t < |close| ==> r[t] == RsvAt(high, low, close, n, t)
  {
    seq(|close|, t requires 0 <= t < |close| => RsvAt(high, low, close, n, t))
  }

  datatype Kdj = Kdj(k: seq<real>, d: seq<real>, j: seq<real>)

  /** K smooths RSV with alpha 1/m1, D smooths K with alpha 1/m2, J = 3K - 2D. */
  function KdjOf(rsv: seq<real>, m1: nat, m2: nat): (r: Kdj)
    requires m1 >= 1 && m2 >= 1
    ensures |r.k| == |r.d| == |r.j| == |rsv|
  {
    var k := Ewm(rsv, 1.0 / m1 as real);
    var d := Ewm(k, 1.0 / m2 as real);
    Kdj(k, d, seq(|rsv|, t requires 0 <= t < |rsv| => 3.0 * k[t] - 2.0 * d[t]))
  }

  /** `calculate_kdj`: data with close, high and low, then at least n rows.
      The periods themselves are not checked here; pandas refuses a negative
      window and a smoothing factor 1/m outside (0, 1]. A window of 0 is
      accepted: its extremes are NaN, so every RSV is filled with 50. */
  function CalculateKdj(data: Frame, n: int, m1: int, m2: int): (r: Result<Kdj, CalcError>)
    ensures r.Success? <==>
              ValidateData(data, ["close", "high", "low"]) == None && data.length >= n
              && n >= 0 && m1 >= 1 && m2 >= 1
              && AllDefined(Rsv(data.columns["high"], data.columns["low"], data.columns["close"], n))
    ensures r.Success? ==>
              r.value == KdjOf(Values(Rsv(data.columns["high"], data.columns["low"], data.columns["close"], n)), m1, m2)
  {
    var e := ValidateData(data, ["close", "high", "low"]);
    if e.Some? then Failure(e.value)
    else
      var e' := ValidateDataLength(data, n);
      if e'.Some? then Failure(e'.value)
      else if n < 0 || m1 < 1 || m2 < 1 then Failure(InvalidParameter)
      else
        var rsv := Rsv(data.columns["high"], data.columns["low"], data.columns["close"], n);
        if !AllDefined(rsv) then Failure(NonFinite)
        else Success(KdjOf(Values(rsv), m1, m2))
  }

  lemma InverseInUnit(m: nat)
    requires m >= 1
    ensures 0.0 < 1.0 / m as real <= 1.0
  {
    QuotientBounds(1.0, m as real, 0.0, 1.0);
  }

  /** On consistent bars RSV is always finite and within [0, 100]. */
  lemma RsvBounded(high: seq<real>, low: seq<real>, close: seq<real>, n: nat, t: nat)
    requires |high| == |low| == |close| && t < |close|
    requires ConsistentBars(high, low, close)
    ensures RsvAt(high, low, close, n, t).Some?
    ensures 0.0 <= RsvAt(high, low, close, n, t).value <= 100.0
  {
    if n >= 1 && t + 1 >= n {
      WindowRange(high, low, n, t);
      var ll := Min(Window(low, t, n));
      var hh := Max(Window(high, t, n));
      if hh - ll != 0.0 {
        QuotientBounds(close[t] - ll, hh - ll, 0.0, 1.0);
      }
    }
  }

  /** On consistent bars KDJ is computed, K and D stay within [0, 100] and J
      within [-200, 300]. */
  lemma KdjBounded(data: Frame, n: int, m1: int, m2: int)
    requires ValidateData(data, ["close", "high", "low"]) == None
    requires 0 <= n <= data.length && m1 >= 1 && m2 >= 1
    requires ConsistentBars(data.columns["high"], data.columns["low"], data.columns["close"])
    ensures CalculateKdj(data, n, m1, m2).Success?
    ensures var r := CalculateKdj(data, n, m1, m2).value;
            forall t :: 0 <= t < data.length ==>
              0.0 <= r.k[t] <= 100.0 && 0.0 <= r.d[t] <= 100.0 && -200.0 <= r.j[t] <= 300.0
  {
    var high, low, close := data.columns["high"], data.columns["low"], data.columns["close"];
    var rsv := Rsv(high, low, close, n);
    forall t | 0 <= t < data.length ensures rsv[t].Some? && 0.0 <= rsv[t].value <= 100.0 {
      RsvBounded(high, low, close, n, t);
    }
    var v := Values(rsv);
    InverseInUnit(m1);
    InverseInUnit(m2);
    EwmBounded(v, 1.0 / m1 as real, 0.0, 100.0);
    var k := Ewm(v, 1.0 / m1 as real);
    EwmBounded(k, 1.0 / m2 as real, 0.0, 100.0);
  }

  /** With a window of 0 every RSV is the filler 50, so K, D and J are 50
      throughout, whatever the bars. */
  lemma KdjEmptyWindow(data: Frame, m1: int, m2: int)
    requires ValidateData(data, ["close", "high", "low"]) == None && m1 >= 1 && m2 >= 1
    ensures CalculateKdj(data, 0, m1, m2).Success?
    ensures var r := CalculateKdj(data, 0, m1, m2).value;
            forall t :: 0 <= t < data.length ==> r.k[t] == r.d[t] == r.j[t] == 50.0
  {
    var high, low, close := data.columns["high"], data.columns["low"], data.columns["close"];
    var v := Values(Rsv(high, low, close, 0));
    InverseInUnit(m1);
    InverseInUnit(m2);
    EwmBounded(v, 1.0 / m1 as real, 50.0, 50.0);
    var k := Ewm(v, 1.0 / m1 as real);
    EwmBounded(k, 1.0 / m2 as real, 50.0, 50.0);
  }

  // ---------------------------------------------------------------- ATR

  function Abs(x: real): (r: real)
    ensures r >= 0.0 && (r == x || r == -x)
  {
    if x >= 0.0 then x else -x
  }

  /** The largest of high - low and the distances of high and low from the
      previous close; the first bar has no previous close. */
  function TrueRange(high: seq<real>, low: seq<real>, close: seq<real>, t: nat): (r: real)
    requires |high| == |low| == |close| && t < |close|
    ensures r >= high[t] - low[t]
    ensures t == 0 ==> r == high[0] - low[0]
    ensures t > 0 ==> r >= Abs(high[t] - close[t - 1]) && r >= Abs(low[t] - close[t - 1]) && r >= 0.0
    ensures t > 0 ==> r == high[t] - low[t] || r == Abs(high[t] - close[t - 1]) || r == Abs(low[t] - close[t - 1])
  {
    var hl := high[t] - low[t];
    if t == 0 then hl
    else
      var hc := Abs(high[t] - close[t - 1]);
      var lc := Abs(low[t] - close[t - 1]);
      if hl >= hc && hl >= lc then hl else if hc >= lc then hc else lc
  }

  function TrueRanges(high: seq<real>, low: seq<real>, close: seq<real>): (r: seq<real>)
    requires |high| == |low| == |close|
    ensures |r| == |close| && forall t :: 0 <= t < |close| ==> r[t] == TrueRange(high, low, close, t)
  {
    seq(|close|, t requires 0 <= t < |close| => TrueRange(high, low, close, t))
  }

  /** `calculate_atr`: at least period + 1 rows; pandas refuses a span below 1. */
  function CalculateAtr(data: Frame, period: int): (r: Result<seq<real>, CalcError>)
    ensures r.Success? <==>
              ValidateData(data, ["close", "high", "low"]) == None && data.length >= period + 1 && period >= 1
    ensures r.Success? ==>
              r.value == Ewm(TrueRanges(data.columns["high"], data.columns["low"], data.columns["close"]), SpanAlpha(period))
  {
    var e := ValidateData(data, ["close", "high", "low"]);
    if e.Some? then Failure(e.value)
    else
      var e' := ValidateDataLength(data, period + 1);
      if e'.Some? then Failure(e'.value)
      else if period < 1 then Failure(InvalidParameter)
      else Success(Ewm(TrueRanges(data.columns["high"], data.columns["low"], data.columns["close"]), SpanAlpha(period)))
  }

  /** ATR is never negative as long as the first bar's high is not below its low. */
  lemma AtrNonnegative(data: Frame, period: int)
    requires CalculateAtr(data, period).Success?
    requires data.columns["high"][0] >= data.columns["low"][0]
    ensures forall t :: 0 <= t < data.length ==> CalculateAtr(data, period).value[t] >= 0.0
  {
    var tr := TrueRanges(data.columns["high"], data.columns["low"], data.columns["close"]);
    EwmBounded(tr, SpanAlpha(period), 0.0, Max(tr));
  }

  // ---------------------------------------------------------------- OBV

  /** `np.sign`. */
  function Sign(x: real): (r: real)
    ensures r == 1.0 || r == 0.0 || r == -1.0
    ensures (r > 0.0 <==> x > 0.0) && (r < 0.0 <==> x < 0.0)
  {
    if x > 0.0 then 1.0 else if x < 0.0 then -1.0 else 0.0
  }

  /** The signed volume of each period: + on an up close, - on a down close,
      nothing on an unchanged close and on the first period. */
  function SignedVolumes(close: seq<real>, volume: seq<real>): (f: seq<real>)
    requires |close| == |volume|
    ensures |f| == |close|
  {
    seq(|close|, t requires 0 <= t < |close| => (if t == 0 then 0.0 else Sign(close[t] - close[t - 1])) * volume[t])
  }

  /** OBV as the source computes it: the running total (`cumsum`) of the
      signed volumes. */
  function ObvOf(close: seq<real>, volume: seq<real>): (r: seq<real>)
    requires |close| == |volume|
    ensures |r| == |close|
  {
    var f := SignedVolumes(close, volume);
    seq(|close|, t requires 0 <= t < |close| => Sum(f[..t + 1]))
  }

  /** The textbook OBV recurrence: OBV starts at 0 and each period adds the
      volume on an up close, subtracts it on a down close. */
  lemma ObvRecurrence(close: seq<real>, volume: seq<real>, t: nat)
    requires |close| == |volume| && t < |close|
    ensures t == 0 ==> ObvOf(close, volume)[0] == 0.0
    ensures t > 0 ==>
              ObvOf(close, volume)[t] == ObvOf(close, volume)[t - 1]
                + (if close[t] > close[t - 1] then volume[t] else if close[t] < close[t - 1] then -volume[t] else 0.0)
  {
    var f := SignedVolumes(close, volume);
    var obv := ObvOf(close, volume);
    assert f[..t + 1][..t] == f[..t];
    assert obv[t] == Sum(f[..t + 1]) == Sum(f[..t]) + f[t];
    if t == 0 {
      assert f[..0] == [];
    } else {
      assert obv[t - 1] == Sum(f[..t]);
    }
  }

  function CalculateObv(data: Frame): (r: Result<seq<real>, CalcError>)
    ensures r.Success? <==> ValidateData(data, ["close", "volume"]) == None
    ensures r.Success? ==> r.value == ObvOf(data.columns["close"], data.columns["volume"])
  {
    var e := ValidateData(data, ["close", "volume"]);
    if e.Some? then Failure(e.value) else Success(ObvOf(data.columns["close"], data.columns["volume"]))
  }

  // ---------------------------------------------------------------- VWAP

  /** (high + low + close) / 3. */
  function TypicalPrices(high: seq<real>, low: seq<real>, close: seq<real>): (tp: seq<real>)
    requires |high| == |low| == |close|
    ensures |tp| == |close|
  {
    seq(|close|, t requires 0 <= t < |close| => (high[t] + low[t] + close[t]) / 3.0)
  }

  /** Cumulative price·volume over cumulative volume; undefined while the
      cumulative volume is zero. */
  function VwapOf(tp: seq<real>, volume: seq<real>): (r: Column)
    requires |tp| == |volume|
    ensures |r| == |tp|
    ensures forall t :: 0 <= t < |tp| ==> (r[t].Some? <==> Sum(volume[..t + 1]) != 0.0)
  {
    var pv := Products(tp, volume);
    seq(|tp|, t requires 0 <= t < |tp| =>
      var v := Sum(volume[..t + 1]);
      if v == 0.0 then None else Some(Sum(pv[..t + 1]) / v))
  }

  function CalculateVwap(data: Frame): (r: Result<Column, CalcError>)
    ensures r.Success? <==> ValidateData(data, ["close", "high", "low", "volume"]) == None
    ensures r.Success? ==>
              r.value == VwapOf(TypicalPrices(data.columns["high"], data.columns["low"], data.columns["close"]),
                                data.columns["volume"])
  {
    var e := ValidateData(data, ["close", "high", "low", "volume"]);
    if e.Some? then Failure(e.value)
    else Success(VwapOf(TypicalPrices(data.columns["high"], data.columns["low"], data.columns["close"]),
                        data.columns["volume"]))
  }

  /** With non-negative volumes, VWAP at t is an average of the typical prices
      seen so far: it lies between their minimum and maximum. */
  lemma {:induction false} VwapWithinPriceRange(tp: seq<real>, volume: seq<real>, t: nat)
    requires |tp| == |volume| && t < |tp|
    requires forall i :: 0 <= i < |volume| ==> volume[i] >= 0.0
    requires VwapOf(tp, volume)[t].Some?
    ensures Min(tp[..t + 1]) <= VwapOf(tp, volume)[t].value <= Max(tp[..t + 1])
  {
    var p, w := tp[..t + 1], volume[..t + 1];
    ProductsPrefix(tp, volume, t + 1);
    WeightedMeanBounds(p, w, Min(p), Max(p));
  }

  lemma ProductsPrefix(a: seq<real>, b: seq<real>, n: nat)
    requires |a| == |b| && n <= |a|
    ensures Products(a, b)[..n] == Products(a[..n], b[..n])
  {
    assert forall i :: 0 <= i < n ==> Products(a, b)[..n][i] == Products(a[..n], b[..n])[i];
  }

  // ---------------------------------------------------------------- WR

  /** Williams %R: -100·(highest high - close)/(highest high - lowest low).
      Undefined in the warm-up and on a flat range (where the source has NaN
      or an infinity). */
  function WrAt(high: seq<real>, low: seq<real>, close: seq<real>, period: nat, t: nat): Option<real>
    requires |high| == |low| == |close| && t < |close|
  {
    if period == 0 || t + 1 < period then None
    else
      var hh := Max(Window(high, t, period));
      var ll := Min(Window(low, t, period));
      if hh - ll == 0.0 then None else Some(-100.0 * ((hh - close[t]) / (hh - ll)))
  }

  function Wr(high: seq<real>, low: seq<real>, close: seq<real>, period: nat): (r: Column)
    requires |high| == |low| == |close|
    ensures |r| == |close| && forall t :: 0 <= t < |close| ==> r[t] == WrAt(high, low, close, period, t)
  {
    seq(|close|, t requires 0 <= t < |close| => WrAt(high, low, close, period, t))
  }

  /** `calculate_wr`: at least `period` rows and a window pandas accepts; a
      window of 0 leaves every value undefined. */
  function CalculateWr(data: Frame, period: int): (r: Result<Column, CalcError>)
    ensures r.Success? <==>
              ValidateData(data, ["close", "high", "low"]) == None && data.length >= period && period >= 0
    ensures r.Success? && period == 0 ==> forall t :: 0 <= t < |r.value| ==> r.value[t].None?
    ensures r.Success? ==> r.value == Wr(data.columns["high"], data.columns["low"], data.columns["close"], period)
  {
    var e := ValidateData(data, ["close", "high", "low"]);
    if e.Some? then Failure(e.value)
    else
      var e' := ValidateDataLength(data, period);
      if e'.Some? then Failure(e'.value)
      else if period < 0 then Failure(InvalidParameter)
      else Success(Wr(data.columns["high"], data.columns["low"], data.columns["close"], period))
  }

  /** On consistent bars WR lies in [-100, 0], and it is undefined after the
      warm-up only on a flat range, where the close equals that one price
      (so the source's value there is NaN, not an infinity). */
  lemma WrRange(high: seq<real>, low: seq<real>, close: seq<real>, period: nat, t: nat)
    requires |high| == |low| == |close| && t < |close|
    requires ConsistentBars(high, low, close)
    ensures WrAt(high, low, close, period, t).Some? ==> -100.0 <= WrAt(high, low, close, period, t).value <= 0.0
    ensures 1 <= period <= t + 1 && WrAt(high, low, close, period, t).None? ==>
              close[t] == Max(Window(high, t, period)) == Min(Window(low, t, period))
  {
    if 1 <= period <= t + 1 {
      WindowRange(high, low, period, t);
      var hh := Max(Window(high, t, period));
      var ll := Min(Window(low, t, period));
      if hh - ll != 0.0 {
        QuotientBounds(hh - close[t], hh - ll, 0.0, 1.0);
      }
    }
  }

  // ---------------------------------------------------------------- CCI

  function AbsDeviations(w: seq<real>, m: real): (d: seq<real>)
    ensures |d| == |w| && forall i :: 0 <= i < |w| ==> d[i] == Abs(w[i] - m)
  {
    seq(|w|, i requires 0 <= i < |w| => Abs(w[i] - m))
  }

  /** CCI at t: (tp - mean) / (0.015 · mean absolute deviation) over the
      window of typical prices; undefined in the warm-up and where the mean
      deviation is zero. */
  function CciAt(tp: seq<real>, period: nat, t: nat): Option<real>
    requires t < |tp|
  {
    if period == 0 || t + 1 < period then None
    else
      var w := Window(tp, t, period);
      var m := Mean(w);
      var mad := Mean(AbsDeviations(w, m));
      if mad == 0.0 then None else Some((tp[t] - m) / (0.015 * mad))
  }

  function Cci(tp: seq<real>, period: nat): (r: Column)
    ensures |r| == |tp| && forall t :: 0 <= t < |tp| ==> r[t] == CciAt(tp, period, t)
  {
    seq(|tp|, t requires 0 <= t < |tp| => CciAt(tp, period, t))
  }

  /** `calculate_cci`: at least `period` rows and a window pandas accepts; a
      window of 0 leaves every value undefined. */
  function CalculateCci(data: Frame, period: int): (r: Result<Column, CalcError>)
    ensures r.Success? <==>
              ValidateData(data, ["close", "high", "low"]) == None && data.length >= period && period >= 0
    ensures r.Success? && period == 0 ==> forall t :: 0 <= t < |r.value| ==> r.value[t].None?
    ensures r.Success? ==>
              r.value == Cci(TypicalPrices(data.columns["high"], data.columns["low"], data.columns["close"]), period)
  {
    var e := ValidateData(data, ["close", "high", "low"]);
    if e.Some? then Failure(e.value)
    else
      var e' := ValidateDataLength(data, period);
      if e'.Some? then Failure(e'.value)
      else if period < 0 then Failure(InvalidParameter)
      else Success(Cci(TypicalPrices(data.columns["high"], data.columns["low"], data.columns["close"]), period))
  }

  /** A zero mean deviation means every typical price in the window equals the
      mean, so the source divides 0 by 0 there (NaN), never a non-zero value
      by 0. */
  lemma CciFlatWindow(tp: seq<real>, period: nat, t: nat)
    requires 1 <= period <= t + 1 <= |tp|
    requires Mean(AbsDeviations(Window(tp, t, period), Mean(Window(tp, t, period)))) == 0.0
    ensures tp[t] == Mean(Window(tp, t, period))
  {
    var w := Window(tp, t, period);
    var d := AbsDeviations(w, Mean(w));
    assert Sum(d) / (period as real) == 0.0;
    assert (Sum(d) / (period as real)) * (period as real) == Sum(d);
    SumZeroAllZero(d);
    assert d[period - 1] == 0.0;
  }
}
