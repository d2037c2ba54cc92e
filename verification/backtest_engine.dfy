/** The backtest simulator: a long-only, single-position account run over a
    price series. Each period records the equity before trading, evaluates
    the strategy's conditions on that period's row, buys whole 100-share lots
    when flat and sells everything when holding; at the end it derives the
    return, the drawdown and the win rate of the buy/sell pairs. */
module BacktestEngine {
  import opened Wrappers
  import opened Series
  import opened DataFrame
  import opened PyText
  import IC = IndicatorCalculator

  /** What aborts a run: a condition value that `float()` refuses, a buy
      at a zero price (the share count divides by it), or an indicator the
      calculator refuses. */
  datatype EngineError = BadNumber(text: string) | ZeroPrice | Indicator(error: IC.CalcError)

  // ---------------------------------------------------------- indicators

  /** One entry of the strategy's `indicators` list. */
  datatype IndicatorConfig = IndicatorConfig(kind: string, params: map<string, IC.Arg>)

  /** `params.get(name, default)`. */
  function Param(params: map<string, IC.Arg>, name: string, default: IC.Arg): IC.Arg {
    if name in params then params[name] else default
  }

  /** MA: one column per period, periods [5, 10, 20] by default. */
  function MaColumns(data: Frame, p: map<string, IC.Arg>): (r: Result<map<string, Column>, IC.CalcError>)
    ensures r.Success? ==> forall k :: k in r.value ==> |r.value[k]| == data.length
  {
    IC.CalculateMa(data, Param(p, "periods", IC.ListArg([IC.IntArg(5), IC.IntArg(10), IC.IntArg(20)])))
  }

  /** MACD: the DIF, DEA and MACD (histogram) columns, periods 12/26/9 by default. */
  function MacdColumns(data: Frame, p: map<string, IC.Arg>): (r: Result<map<string, Column>, IC.CalcError>)
    ensures r.Success? ==> r.value.Keys == {"DIF", "DEA", "MACD"}
    ensures r.Success? ==> forall k :: k in r.value ==> |r.value[k]| == data.length
  {
    var m :- IC.CalculateMacd(data, Param(p, "fast_period", IC.IntArg(12)),
                              Param(p, "slow_period", IC.IntArg(26)), Param(p, "signal_period", IC.IntArg(9)));
    Success(map["DIF" := Lift(m.dif), "DEA" := Lift(m.dea), "MACD" := Lift(m.histogram)])
  }

  /** RSI: one column under the key "RSI", period 14 by default. */
  function RsiColumns(data: Frame, p: map<string, IC.Arg>): (r: Result<map<string, Column>, IC.CalcError>)
    ensures r.Success? ==> r.value.Keys == {"RSI"} && |r.value["RSI"]| == data.length
  {
    var rsi :- IC.CalculateRsi(data, Param(p, "period", IC.IntArg(14)));
    Success(map["RSI" := Lift(rsi)])
  }

  /** BOLL: the upper, middle and lower bands, period 20 and width 2 by default. */
  function BollColumns(data: Frame, p: map<string, IC.Arg>, root: real -> IC.NonNegReal)
    : (r: Result<map<string, Column>, IC.CalcError>)
    ensures r.Success? ==> r.value.Keys == {"upper", "middle", "lower"}
    ensures r.Success? ==> forall k :: k in r.value ==> |r.value[k]| == data.length
  {
    var b :- IC.CalculateBoll(data, Param(p, "period", IC.IntArg(20)), Param(p, "std_dev", IC.FloatArg(2.0)), root);
    Success(map["upper" := b.upper, "middle" := b.middle, "lower" := b.lower])
  }

  /** The columns one configuration adds: MA, MACD, RSI and BOLL are
      computed; any other kind adds nothing. */
  function IndicatorColumns(data: Frame, config: IndicatorConfig, root: real -> IC.NonNegReal)
    : (r: Result<map<string, Column>, IC.CalcError>)
    ensures r.Success? ==> forall k :: k in r.value ==> |r.value[k]| == data.length
    ensures config.kind !in {"MA", "MACD", "RSI", "BOLL"} ==> r == Success(map[])
  {
    if config.kind == "MA" then MaColumns(data, config.params)
    else if config.kind == "MACD" then MacdColumns(data, config.params)
    else if config.kind == "RSI" then RsiColumns(data, config.params)
    else if config.kind == "BOLL" then BollColumns(data, config.params, root)
    else Success(map[])
  }

  /** `_calculate_indicators`: the configurations in order, a later column
      overwriting an earlier one of the same name; the first failure aborts. */
  function CalculateIndicators(data: Frame, configs: seq<IndicatorConfig>, root: real -> IC.NonNegReal)
    : (r: Result<map<string, Column>, IC.CalcError>)
    ensures r.Success? ==> forall k :: k in r.value ==> |r.value[k]| == data.length
  {
    if configs == [] then Success(map[])
    else
      var earlier :- CalculateIndicators(data, configs[..|configs| - 1], root);
      var cols :- IndicatorColumns(data, configs[|configs| - 1], root);
      Success(earlier + cols)
  }

  /** A strategy with only an RSI indicator yields exactly the calculator's
      RSI series, under the key "RSI". */
  lemma RsiStoredUnderRsi(data: Frame, params: map<string, IC.Arg>, root: real -> IC.NonNegReal)
    requires IC.CalculateRsi(data, Param(params, "period", IC.IntArg(14))).Success?
    ensures CalculateIndicators(data, [IndicatorConfig("RSI", params)], root)
              == Success(map["RSI" := Lift(IC.CalculateRsi(data, Param(params, "period", IC.IntArg(14))).value)])
  {
    var configs := [IndicatorConfig("RSI", params)];
    assert configs[..0] == [];
    var cols := RsiColumns(data, params);
    assert IndicatorColumns(data, configs[0], root) == cols;
    assert map[] + cols.value == cols.value;
  }

  /** A configuration of any other kind changes nothing. */
  lemma UnknownIndicatorIgnored(data: Frame, configs: seq<IndicatorConfig>, extra: IndicatorConfig,
                                root: real -> IC.NonNegReal)
    requires extra.kind !in {"MA", "MACD", "RSI", "BOLL"}
    ensures CalculateIndicators(data, configs + [extra], root) == CalculateIndicators(data, configs, root)
  {
    assert (configs + [extra])[..|configs|] == configs;
    var r := CalculateIndicators(data, configs, root);
    if r.Success? {
      assert r.value + map[] == r.value;
    }
  }

  // ---------------------------------------------------------- rows

  /** One period of the merged frame: its date label, its close, and every
      column (prices and indicators) by name, `None` where pandas has NaN. */
  datatype Row = Row(date: string, close: real, columns: map<string, Option<real>>)

  /** Row `i` of `data.copy()` with every indicator column assigned in. */
  function RowAt(data: Frame, dates: seq<string>, ind: map<string, Column>, i: nat): (row: Row)
    requires "close" in data.columns && |dates| == data.length && i < data.length
    requires forall k :: k in ind ==> |ind[k]| == data.length
    ensures row.columns.Keys == data.columns.Keys + ind.Keys
  {
    Row(dates[i], data.columns["close"][i],
        map c | c in data.columns.Keys + ind.Keys ::
          if c in ind then ind[c][i] else Some(data.columns[c][i]))
  }

  function Rows(data: Frame, dates: seq<string>, ind: map<string, Column>): (rows: seq<Row>)
    requires "close" in data.columns && |dates| == data.length
    requires forall k :: k in ind ==> |ind[k]| == data.length
    ensures |rows| == data.length
    ensures forall i :: 0 <= i < |rows| ==> rows[i] == RowAt(data, dates, ind, i)
  {
    seq(data.length, i requires 0 <= i < data.length => RowAt(data, dates, ind, i))
  }

  // ---------------------------------------------------------- conditions

  /** A condition's `value`: a number, or a string naming a column (or to be
      read with `float()`). */
  datatype CondValue = Number(x: real) | Text(s: string)

  /** One entry of the strategy's `conditions`; `action` is optional. */
  datatype Condition = Condition(indicator: string, operator: string, value: CondValue, action: Option<string>)

  datatype Signals = Signals(buy: bool, sell: bool)

  const Operators: set<string> := {">", "<", ">=", "<=", "=="}

  /** `condition.get('action', 'buy')`: anything but "buy" is a sell. */
  predicate IsBuyAction(c: Condition) {
    c.action.None? || c.action.value == "buy"
  }

  /** A comparison with NaN is false whatever the operator. */
  function Compare(op: string, x: real, y: Option<real>): (b: bool)
    ensures y.None? ==> !b
    ensures op !in Operators ==> !b
  {
    if y.None? then false
    else if op == ">" then x > y.value
    else if op == "<" then x < y.value
    else if op == ">=" then x >= y.value
    else if op == "<=" then x <= y.value
    else if op == "==" then x == y.value
    else false
  }

  /** The right-hand side: a column when the value is a string naming one,
      otherwise `float(value)`; `parse` is `float()` on a string (None where
      it raises). */
  function Operand(row: Row, v: CondValue, parse: string -> Option<real>): Result<Option<real>, EngineError> {
    match v
    case Number(x) => Success(Some(x))
    case Text(s) =>
      if s in row.columns then Success(row.columns[s])
      else if parse(s).Some? then Success(Some(parse(s).value))
      else Failure(BadNumber(s))
  }

  /** One condition on one row: skipped (`None`) when its indicator is not a
      column or is NaN there; false for an unknown operator; otherwise the
      comparison. */
  function ConditionSignal(row: Row, c: Condition, parse: string -> Option<real>): (r: Result<Option<bool>, EngineError>)
    ensures c.indicator !in row.columns || row.columns[c.indicator].None? ==> r == Success(None)
    ensures c.indicator in row.columns && row.columns[c.indicator].Some? && c.operator !in Operators ==>
              r == Success(Some(false))
  {
    if c.indicator !in row.columns || row.columns[c.indicator].None? then Success(None)
    else if c.operator !in Operators then Success(Some(false))
    else
      var y :- Operand(row, c.value, parse);
      Success(Some(Compare(c.operator, row.columns[c.indicator].value, y)))
  }

  /** The `buy_signals` and `sell_signals` lists after the given conditions. */
  function SignalLists(row: Row, conds: seq<Condition>, parse: string -> Option<real>)
    : Result<(seq<bool>, seq<bool>), EngineError>
  {
    if conds == [] then Success(([], []))
    else
      var lists :- SignalLists(row, conds[..|conds| - 1], parse);
      var c := conds[|conds| - 1];
      var s :- ConditionSignal(row, c, parse);
      if s.None? then Success(lists)
      else if IsBuyAction(c) then Success((lists.0 + [s.value], lists.1))
      else Success((lists.0, lists.1 + [s.value]))
  }

  /** `all(signals) if signals else False`. */
  predicate AllOf(signals: seq<bool>) {
    signals != [] && false !in signals
  }

  function SignalsOf(row: Row, conds: seq<Condition>, parse: string -> Option<real>): Result<Signals, EngineError> {
    var lists :- SignalLists(row, conds, parse);
    Success(Signals(AllOf(lists.0), AllOf(lists.1)))
  }

  predicate Evaluated(row: Row, c: Condition, parse: string -> Option<real>) {
    ConditionSignal(row, c, parse).Success? && ConditionSignal(row, c, parse).value.Some?
  }

  predicate Fired(row: Row, c: Condition, parse: string -> Option<real>) {
    ConditionSignal(row, c, parse) == Success(Some(true))
  }

  /** The lists hold one signal per evaluated condition, buys and sells
      apart: a list is empty exactly when no condition of its kind was
      evaluated, and holds a `false` exactly when one of them did not fire. */
  lemma {:induction false} SignalListsMeaning(row: Row, conds: seq<Condition>, parse: string -> Option<real>)
    requires SignalLists(row, conds, parse).Success?
    ensures var (buys, sells) := SignalLists(row, conds, parse).value;
            && (buys != [] <==> exists i :: 0 <= i < |conds| && Evaluated(row, conds[i], parse) && IsBuyAction(conds[i]))
            && (false in buys <==> exists i :: 0 <= i < |conds| && Evaluated(row, conds[i], parse)
                                               && IsBuyAction(conds[i]) && !Fired(row, conds[i], parse))
            && (sells != [] <==> exists i :: 0 <= i < |conds| && Evaluated(row, conds[i], parse) && !IsBuyAction(conds[i]))
            && (false in sells <==> exists i :: 0 <= i < |conds| && Evaluated(row, conds[i], parse)
                                                && !IsBuyAction(conds[i]) && !Fired(row, conds[i], parse))
    decreases |conds|
  {
    if conds != [] {
      var init := conds[..|conds| - 1];
      var c := conds[|conds| - 1];
      SignalListsMeaning(row, init, parse);
      assert forall i :: 0 <= i < |init| ==> init[i] == conds[i];
      assert forall i :: 0 <= i < |conds| ==> i < |init| || conds[i] == c;
    }
  }

  /** The buy signal fires exactly when some buy condition was evaluated and
      every evaluated buy condition fired (likewise for sell). */
  lemma SignalsMeaning(row: Row, conds: seq<Condition>, parse: string -> Option<real>)
    requires SignalsOf(row, conds, parse).Success?
    ensures SignalsOf(row, conds, parse).value.buy <==>
              && (exists i :: 0 <= i < |conds| && Evaluated(row, conds[i], parse) && IsBuyAction(conds[i]))
              && (forall i :: (0 <= i < |conds| && Evaluated(row, conds[i], parse) && IsBuyAction(conds[i]))
                                 ==> Fired(row, conds[i], parse))
    ensures SignalsOf(row, conds, parse).value.sell <==>
              && (exists i :: 0 <= i < |conds| && Evaluated(row, conds[i], parse) && !IsBuyAction(conds[i]))
              && (forall i :: (0 <= i < |conds| && Evaluated(row, conds[i], parse) && !IsBuyAction(conds[i]))
                                 ==> Fired(row, conds[i], parse))
  {
    SignalListsMeaning(row, conds, parse);
    forall i | 0 <= i < |conds| && Evaluated(row, conds[i], parse)
      ensures Fired(row, conds[i], parse) || ConditionSignal(row, conds[i], parse) == Success(Some(false))
    {
    }
  }

  /** A buy condition with an operator the engine does not know (such as
      "cross_up") never fires, so on a row where its indicator is defined
      the strategy never buys. */
  lemma UnknownOperatorBlocksBuy(row: Row, conds: seq<Condition>, parse: string -> Option<real>, i: nat)
    requires i < |conds| && IsBuyAction(conds[i]) && conds[i].operator !in Operators
    requires conds[i].indicator in row.columns && row.columns[conds[i].indicator].Some?
    requires SignalsOf(row, conds, parse).Success?
    ensures !SignalsOf(row, conds, parse).value.buy
  {
    SignalsMeaning(row, conds, parse);
    assert Evaluated(row, conds[i], parse) && !Fired(row, conds[i], parse);
  }

  /** A condition whose right-hand side cannot be read aborts the whole
      evaluation, whatever follows it. */
  lemma {:induction false} SignalListsFailurePersists(row: Row, conds: seq<Condition>, k: nat,
                                                      parse: string -> Option<real>)
    requires k <= |conds| && SignalLists(row, conds[..k], parse).Failure?
    ensures SignalLists(row, conds, parse) == SignalLists(row, conds[..k], parse)
    decreases |conds|
  {
    if k < |conds| {
      var init := conds[..|conds| - 1];
      assert init[..k] == conds[..k];
      SignalListsFailurePersists(row, init, k, parse);
    } else {
      assert conds[..k] == conds;
    }
  }

  /** `_evaluate_conditions`: one pass over the conditions collecting the
      buy and sell signals. */
  method EvaluateConditions(row: Row, conds: seq<Condition>, parse: string -> Option<real>)
    returns (r: Result<Signals, EngineError>)
    ensures r == SignalsOf(row, conds, parse)
  {
    var buys: seq<bool> := [];
    var sells: seq<bool> := [];
    var i := 0;
    while i < |conds|
      invariant 0 <= i <= |conds|
      invariant SignalLists(row, conds[..i], parse) == Success((buys, sells))
    {
      var c := conds[i];
      assert conds[..i + 1][..i] == conds[..i];
      if c.indicator !in row.columns || row.columns[c.indicator].None? {
        i := i + 1;
        continue;
      }
      var signal := false;
      if c.operator in Operators {
        var y := Operand(row, c.value, parse);
        if y.Failure? {
          assert SignalLists(row, conds[..i + 1], parse) == Failure(y.error);
          SignalListsFailurePersists(row, conds, i + 1, parse);
          return Failure(y.error);
        }
        signal := Compare(c.operator, row.columns[c.indicator].value, y.value);
      }
      if IsBuyAction(c) {
        buys := buys + [signal];
      } else {
        sells := sells + [signal];
      }
      i := i + 1;
    }
    assert conds[..|conds|] == conds;
    r := Success(Signals(AllOf(buys), AllOf(sells)));
  }

  // ---------------------------------------------------------- the account

  datatype Action = Buy | Sell

  /** A ledger entry (the source's `reason` is always "Strategy signal"). */
  datatype Trade = Trade(date: string, action: Action, price: real, shares: int, amount: real, commission: real)

  /** One point of the equity curve. */
  datatype EquityPoint = EquityPoint(date: string, equity: real, cash: real, positionValue: real)

  /** The engine's state: cash, the position (shares and cost basis), the
      ledger and the equity curve. */
  datatype Account = Account(cash: real, shares: int, costBasis: real, trades: seq<Trade>, curve: seq<EquityPoint>)

  datatype Costs = Costs(initialCapital: real, commissionRate: real, slippageRate: real)

  /** The state `run_backtest` resets to. */
  function Start(c: Costs): Account {
    Account(c.initialCapital, 0, 0.0, [], [])
  }

  /** The price actually paid: the close moved up by the slippage rate. */
  function BuyPrice(close: real, slippageRate: real): (p: real)
    ensures close >= 0.0 && slippageRate >= 0.0 ==> p >= close
  {
    if close >= 0.0 && slippageRate >= 0.0 then
      MulNonneg(close, slippageRate);
      close * (1.0 + slippageRate)
    else close * (1.0 + slippageRate)
  }

  /** The price actually received: the close moved down by the slippage rate. */
  function SellPrice(close: real, slippageRate: real): (p: real)
    ensures close >= 0.0 && 0.0 <= slippageRate <= 1.0 ==> 0.0 <= p <= close
  {
    if close >= 0.0 && 0.0 <= slippageRate <= 1.0 then
      MulNonneg(close, slippageRate);
      MulNonneg(close, 1.0 - slippageRate);
      close * (1.0 - slippageRate)
    else close * (1.0 - slippageRate)
  }

  /** The value of a number of shares at a price. */
  function TradeValue(shares: int, price: real): (v: real)
    ensures shares >= 0 && price >= 0.0 ==> v >= 0.0
  {
    if shares >= 0 && price >= 0.0 then
      MulNonneg(shares as real, price);
      shares as real * price
    else shares as real * price
  }

  /** The commission on a traded amount: never negative and never more than
      the amount when the rate is a fraction. */
  function Commission(amount: real, rate: real): (f: real)
    ensures amount >= 0.0 && 0.0 <= rate <= 1.0 ==> 0.0 <= f <= amount
  {
    if amount >= 0.0 && 0.0 <= rate <= 1.0 then
      MulNonneg(amount, rate);
      MulNonneg(amount, 1.0 - rate);
      amount * rate
    else amount * rate
  }

  /** `int(cash / price / 100) * 100`: the shares of whole 100-share lots
      the cash pays for, commission aside. */
  function Lots(cash: real, price: real): (n: int)
    requires price != 0.0
    ensures n % 100 == 0
    ensures cash >= 0.0 && price > 0.0 ==> n >= 0
  {
    if cash >= 0.0 && price > 0.0 then
      DivNonneg(cash, price);
      DivNonneg(cash / price, 100.0);
      Truncate(cash / price / 100.0) * 100
    else Truncate(cash / price / 100.0) * 100
  }

  /** The lots never cost more than the cash, commission aside. */
  lemma LotsAffordable(cash: real, price: real)
    requires cash >= 0.0 && price > 0.0
    ensures TradeValue(Lots(cash, price), price) <= cash
  {
    DivNonneg(cash, price);
    DivNonneg(cash / price, 100.0);
    var n := Lots(cash, price);
    assert n as real <= cash / price by {
      var t := Truncate(cash / price / 100.0);
      assert n == t * 100;
      assert t as real <= cash / price / 100.0;
      assert cash / price / 100.0 * 100.0 == cash / price;
    }
    BelowQuotient(n as real, cash, price);
  }

  lemma BelowQuotient(x: real, y: real, z: real)
    requires z > 0.0 && x <= y / z
    ensures x * z <= y
  {
    MulNonneg(y / z - x, z);
    assert y / z * z == y;
  }

  /** `_execute_buy`: as many whole lots of 100 as the cash buys at the
      slipped price; nothing when that is none or when the commission makes
      it unaffordable; a zero price is an error (the division raises). */
  function BuyStep(a: Account, c: Costs, row: Row): (r: Result<Account, EngineError>)
    ensures r.Failure? <==> BuyPrice(row.close, c.slippageRate) == 0.0
    ensures r.Failure? ==> r.error == ZeroPrice
    ensures BuyPrice(row.close, c.slippageRate) != 0.0 ==>
              var price := BuyPrice(row.close, c.slippageRate);
              var shares := Lots(a.cash, price);
              (r.value == a <==>
                 shares == 0 || TradeValue(shares, price) + Commission(TradeValue(shares, price), c.commissionRate) > a.cash)
    ensures r.Success? && r.value != a ==>
              && |r.value.trades| == |a.trades| + 1 && r.value.trades[..|a.trades|] == a.trades
              && var t := r.value.trades[|a.trades|];
              && t.date == row.date && t.action == Buy
              && t.price == BuyPrice(row.close, c.slippageRate) && t.price != 0.0
              && t.shares == Lots(a.cash, t.price) && t.shares != 0 && t.shares % 100 == 0
              && t.amount == TradeValue(t.shares, t.price)
              && t.commission == Commission(t.amount, c.commissionRate)
              && r.value.cash == a.cash - (t.amount + t.commission) && r.value.cash >= 0.0
              && r.value.shares == t.shares && r.value.costBasis == t.price && r.value.curve == a.curve
  {
    var price := BuyPrice(row.close, c.slippageRate);
    if price == 0.0 then Failure(ZeroPrice)
    else
      var shares := Lots(a.cash, price);
      if shares == 0 then Success(a)
      else
        var amount := TradeValue(shares, price);
        var commission := Commission(amount, c.commissionRate);
        if amount + commission > a.cash then Success(a)
        else
          Success(a.(cash := a.cash - (amount + commission), shares := shares, costBasis := price,
                     trades := a.trades + [Trade(row.date, Buy, price, shares, amount, commission)]))
  }

  /** `_execute_sell`: the whole position at the slipped price, less the
      commission. */
  function SellStep(a: Account, c: Costs, row: Row): (r: Account)
    ensures r.shares == 0 && r.costBasis == 0.0 && r.curve == a.curve
    ensures |r.trades| == |a.trades| + 1 && r.trades[..|a.trades|] == a.trades
    ensures var t := r.trades[|a.trades|];
            && t.date == row.date && t.action == Sell && t.shares == a.shares
            && t.price == SellPrice(row.close, c.slippageRate)
            && t.amount == TradeValue(a.shares, t.price)
            && t.commission == Commission(t.amount, c.commissionRate)
            && r.cash == a.cash + (t.amount - t.commission)
  {
    var price := SellPrice(row.close, c.slippageRate);
    var amount := TradeValue(a.shares, price);
    var commission := Commission(amount, c.commissionRate);
    a.(cash := a.cash + (amount - commission), shares := 0, costBasis := 0.0,
       trades := a.trades + [Trade(row.date, Sell, price, a.shares, amount, commission)])
  }

  /** The equity point of a period, from the state before its trade. */
  function PointOf(a: Account, row: Row): EquityPoint {
    EquityPoint(row.date, a.cash + TradeValue(a.shares, row.close), a.cash, TradeValue(a.shares, row.close))
  }

  /** One period: record the equity, then buy if flat and the buy signal
      fires, or sell if holding and the sell signal fires. */
  function Step(a: Account, c: Costs, row: Row, conds: seq<Condition>, parse: string -> Option<real>)
    : (r: Result<Account, EngineError>)
    ensures r.Success? ==> r.value.curve == a.curve + [PointOf(a, row)]
  {
    var recorded := a.(curve := a.curve + [PointOf(a, row)]);
    var signals :- SignalsOf(row, conds, parse);
    if signals.buy && recorded.shares == 0 then BuyStep(recorded, c, row)
    else if signals.sell && recorded.shares != 0 then Success(SellStep(recorded, c, row))
    else Success(recorded)
  }

  /** The simulation loop over the rows. */
  function Simulate(c: Costs, rows: seq<Row>, conds: seq<Condition>, parse: string -> Option<real>)
    : (r: Result<Account, EngineError>)
    ensures r.Success? ==> |r.value.curve| == |rows|
    decreases |rows|
  {
    if rows == [] then Success(Start(c))
    else
      var a :- Simulate(c, rows[..|rows| - 1], conds, parse);
      Step(a, c, rows[|rows| - 1], conds, parse)
  }

  /** A failing period aborts the whole run. */
  lemma {:induction false} SimulateFailurePersists(c: Costs, rows: seq<Row>, k: nat, conds: seq<Condition>,
                                                   parse: string -> Option<real>)
    requires k <= |rows| && Simulate(c, rows[..k], conds, parse).Failure?
    ensures Simulate(c, rows, conds, parse) == Simulate(c, rows[..k], conds, parse)
    decreases |rows|
  {
    if k < |rows| {
      var init := rows[..|rows| - 1];
      assert init[..k] == rows[..k];
      SimulateFailurePersists(c, init, k, conds, parse);
    } else {
      assert rows[..k] == rows;
    }
  }

  /** Commission and slippage are fractions of the traded amount. */
  predicate SaneRates(c: Costs) {
    0.0 <= c.commissionRate <= 1.0 && 0.0 <= c.slippageRate <= 1.0
  }

  /** What holds of the account throughout a run: no debt and no short
      position; the ledger alternates buy, sell, buy, ... with each sell
      disposing of exactly the shares bought before it; the account is flat
      exactly after a sell; and every equity point is its cash plus its
      position value, neither negative. */
  ghost predicate Ledger(a: Account) {
    && a.cash >= 0.0 && a.shares >= 0
    && (forall i :: 0 <= i < |a.trades| ==> a.trades[i].action == (if i % 2 == 0 then Buy else Sell))
    && (forall i :: 0 < i < |a.trades| && i % 2 == 1 ==> a.trades[i].shares == a.trades[i - 1].shares)
    && (a.shares == 0 <==> |a.trades| % 2 == 0)
    && (|a.trades| % 2 == 1 ==> a.shares == a.trades[|a.trades| - 1].shares)
    && (forall i :: 0 <= i < |a.curve| ==>
          a.curve[i].equity == a.curve[i].cash + a.curve[i].positionValue
          && a.curve[i].cash >= 0.0 && a.curve[i].positionValue >= 0.0)
  }

  lemma DivNonneg(x: real, y: real)
    requires x >= 0.0 && y > 0.0
    ensures x / y >= 0.0
  {
    QuotientBounds(x, y, 0.0, x / y + 1.0);
  }

  /** Appending a buy to a flat account keeps the ledger invariant, given
      that the cash stays non-negative and the position is the bought shares. */
  lemma LedgerAppendBuy(a: Account, r: Account, t: Trade)
    requires Ledger(a) && a.shares == 0
    requires r.trades == a.trades + [t] && t.action == Buy && r.curve == a.curve
    requires r.shares == t.shares && t.shares > 0 && r.cash >= 0.0
    ensures Ledger(r)
  {
    assert forall i :: 0 <= i < |a.trades| ==> r.trades[i] == a.trades[i];
  }

  lemma {:induction false} BuyKeepsLedger(a: Account, c: Costs, row: Row)
    requires Ledger(a) && a.shares == 0 && SaneRates(c) && row.close >= 0.0
    ensures BuyStep(a, c, row).Success? ==> Ledger(BuyStep(a, c, row).value)
  {
    var price := BuyPrice(row.close, c.slippageRate);
    if price != 0.0 {
      var r := BuyStep(a, c, row).value;
      if r != a {
        var t := r.trades[|a.trades|];
        assert r.trades == a.trades + [t];
        assert Lots(a.cash, price) >= 0;
        LedgerAppendBuy(a, r, t);
      }
    }
  }

  lemma {:induction false} SellKeepsLedger(a: Account, c: Costs, row: Row)
    requires Ledger(a) && a.shares != 0 && SaneRates(c) && row.close >= 0.0
    ensures Ledger(SellStep(a, c, row))
  {
    var r := SellStep(a, c, row);
    assert forall i :: 0 <= i < |a.trades| ==> r.trades[i] == a.trades[i];
  }

  /** One period keeps the ledger invariant. */
  lemma {:induction false} StepKeepsLedger(a: Account, c: Costs, row: Row, conds: seq<Condition>,
                                           parse: string -> Option<real>)
    requires Ledger(a) && SaneRates(c) && row.close >= 0.0
    ensures Step(a, c, row, conds, parse).Success? ==> Ledger(Step(a, c, row, conds, parse).value)
  {
    var point := PointOf(a, row);
    var recorded := a.(curve := a.curve + [point]);
    assert Ledger(recorded);
    if SignalsOf(row, conds, parse).Success? {
      var signals := SignalsOf(row, conds, parse).value;
      if signals.buy && recorded.shares == 0 {
        BuyKeepsLedger(recorded, c, row);
      } else if signals.sell && recorded.shares != 0 {
        SellKeepsLedger(recorded, c, row);
      }
    }
  }

  predicate NonNegativeCloses(rows: seq<Row>) {
    forall i :: 0 <= i < |rows| ==> rows[i].close >= 0.0
  }

  /** With non-negative starting capital, sane rates and non-negative closes,
      every run keeps the ledger invariant, and its first equity point is the
      starting capital. */
  lemma {:induction false} SimulateKeepsLedger(c: Costs, rows: seq<Row>, conds: seq<Condition>,
                                               parse: string -> Option<real>)
    requires c.initialCapital >= 0.0 && SaneRates(c) && NonNegativeCloses(rows)
    requires Simulate(c, rows, conds, parse).Success?
    ensures Ledger(Simulate(c, rows, conds, parse).value)
    ensures rows != [] ==> Simulate(c, rows, conds, parse).value.curve[0].equity == c.initialCapital
    decreases |rows|
  {
    if rows != [] {
      var init := rows[..|rows| - 1];
      assert NonNegativeCloses(init);
      SimulateKeepsLedger(c, init, conds, parse);
      var a := Simulate(c, init, conds, parse).value;
      StepKeepsLedger(a, c, rows[|rows| - 1], conds, parse);
      if init == [] {
        assert a == Start(c);
      }
    }
  }

  /** The cash a trade moves: a buy pays its amount and commission, a sell
      receives its amount less commission. */
  function Flow(t: Trade): real {
    if t.action == Buy then -(t.amount + t.commission) else t.amount - t.commission
  }

  /** The net cash the ledger has moved. */
  function CashFlow(trades: seq<Trade>): real
    decreases |trades|
  {
    if trades == [] then 0.0 else CashFlow(trades[..|trades| - 1]) + Flow(trades[|trades| - 1])
  }

  /** Appending a trade adds its flow. */
  lemma CashFlowAppend(trades: seq<Trade>, t: Trade)
    ensures CashFlow(trades + [t]) == CashFlow(trades) + Flow(t)
  {
    assert (trades + [t])[..|trades|] == trades;
  }

  /** A period changes the cash exactly by the flow of the trade it records. */
  lemma StepCashBalance(a: Account, c: Costs, row: Row, conds: seq<Condition>, parse: string -> Option<real>)
    requires Step(a, c, row, conds, parse).Success?
    ensures var r := Step(a, c, row, conds, parse).value;
            r.cash - CashFlow(r.trades) == a.cash - CashFlow(a.trades)
  {
    var r := Step(a, c, row, conds, parse).value;
    if |r.trades| != |a.trades| {
      assert r.trades == a.trades + [r.trades[|a.trades|]];
      CashFlowAppend(a.trades, r.trades[|a.trades|]);
    }
  }

  /** Cash is conserved: at every point of a run the cash is the starting
      capital plus the net flow of the recorded trades, so no money enters
      or leaves except through a trade. */
  lemma {:induction false} SimulateCashBalance(c: Costs, rows: seq<Row>, conds: seq<Condition>,
                                               parse: string -> Option<real>)
    requires Simulate(c, rows, conds, parse).Success?
    ensures Simulate(c, rows, conds, parse).value.cash
              == c.initialCapital + CashFlow(Simulate(c, rows, conds, parse).value.trades)
    decreases |rows|
  {
    if rows != [] {
      var init := rows[..|rows| - 1];
      SimulateCashBalance(c, init, conds, parse);
      StepCashBalance(Simulate(c, init, conds, parse).value, c, rows[|rows| - 1], conds, parse);
    }
  }

  /** The last equity point is taken before the last period's trade, so a
      trade on the final bar is not reflected in it. */
  lemma LastPointPrecedesLastTrade(c: Costs, rows: seq<Row>, conds: seq<Condition>, parse: string -> Option<real>)
    requires rows != [] && Simulate(c, rows, conds, parse).Success?
    ensures Simulate(c, rows[..|rows| - 1], conds, parse).Success?
    ensures var before := Simulate(c, rows[..|rows| - 1], conds, parse).value;
            var last := rows[|rows| - 1];
            var point := Simulate(c, rows, conds, parse).value.curve[|rows| - 1];
            && point.cash == before.cash
            && point.positionValue == TradeValue(before.shares, last.close)
            && point.equity == before.cash + TradeValue(before.shares, last.close)
  {
    var init := Simulate(c, rows[..|rows| - 1], conds, parse);
    assert init.Success?;
    assert |init.value.curve| == |rows| - 1;
  }

  // ---------------------------------------------------------- metrics

  /** Wins and losses over the pairs (0,1), (2,3), ...: a pair wins when the
      sell price is above the buy price (raw prices, before commission). */
  function WinsLosses(trades: seq<Trade>): (r: (nat, nat))
    decreases |trades|
  {
    if |trades| < 2 then (0, 0)
    else
      var rest := WinsLosses(trades[2..]);
      if trades[1].price > trades[0].price then (rest.0 + 1, rest.1) else (rest.0, rest.1 + 1)
  }

  /** There is one verdict per complete pair. */
  lemma {:induction false} WinsLossesCount(trades: seq<Trade>)
    ensures WinsLosses(trades).0 + WinsLosses(trades).1 == |trades| / 2
    decreases |trades|
  {
    if |trades| >= 2 {
      WinsLossesCount(trades[2..]);
    }
  }

  /** Running maximum of the equity up to period `t`. */
  function CumMax(equity: seq<real>, t: nat): real
    requires t < |equity|
  {
    Max(equity[..t + 1])
  }

  /** The drawdown `(equity - cummax) / cummax` of each period, or None
      when some running maximum is 0 (pandas would produce NaN or an
      infinity there). */
  function MaxDrawdown(equity: seq<real>): Option<real>
    requires |equity| > 0
  {
    if exists t :: 0 <= t < |equity| && CumMax(equity, t) == 0.0 then None
    else
      Some(Min(seq(|equity|, t requires 0 <= t < |equity| => (equity[t] - CumMax(equity, t)) / CumMax(equity, t))))
  }

  /** A drawdown is never positive and, when the curve starts positive and
      never goes negative, never below -1 (a total loss). */
  lemma DrawdownWithinUnit(equity: seq<real>)
    requires |equity| > 0 && equity[0] > 0.0
    requires forall t :: 0 <= t < |equity| ==> equity[t] >= 0.0
    ensures MaxDrawdown(equity).Some?
    ensures -1.0 <= MaxDrawdown(equity).value <= 0.0
  {
    var dd := seq(|equity|, t requires 0 <= t < |equity| => (equity[t] - CumMax(equity, t)) / CumMax(equity, t));
    forall t | 0 <= t < |equity|
      ensures CumMax(equity, t) > 0.0 && -1.0 <= dd[t] <= 0.0
    {
      var m := CumMax(equity, t);
      assert equity[..t + 1][0] == equity[0];
      assert equity[..t + 1][t] == equity[t];
      QuotientBounds(equity[t] - m, m, -1.0, 0.0);
    }
  }

  function Equities(curve: seq<EquityPoint>): (e: seq<real>)
    ensures |e| == |curve| && forall i :: 0 <= i < |curve| ==> e[i] == curve[i].equity
  {
    seq(|curve|, i requires 0 <= i < |curve| => curve[i].equity)
  }

  /** The metrics the engine reports. Annual return and the Sharpe ratio are
      not modelled. */
  datatype Metrics =
    | NoMetrics
    | Metrics(initialCapital: real, finalCapital: real, totalReturn: Option<real>,
              maxDrawdown: Option<real>, winRate: real, totalTrades: nat,
              winningTrades: nat, losingTrades: nat)

  /** The share of winning pairs, 0 when there is no complete pair. */
  function WinRate(wins: nat, losses: nat): (r: real)
    ensures 0.0 <= r <= 1.0
    ensures r == 1.0 <==> wins > 0 && losses == 0
  {
    if wins + losses > 0 then
      QuotientBounds(wins as real, (wins + losses) as real, 0.0, 1.0);
      wins as real / (wins + losses) as real
    else 0.0
  }

  /** `_calculate_metrics`: nothing for an empty run; otherwise the final
      capital is the last equity point, the total return is relative to the
      initial capital (None when that is 0), and the win rate is over the
      complete pairs. */
  function MetricsOf(a: Account, initialCapital: real): Metrics {
    if a.curve == [] then NoMetrics
    else
      var final := a.curve[|a.curve| - 1].equity;
      var (wins, losses) := WinsLosses(a.trades);
      Metrics(initialCapital, final,
              if initialCapital == 0.0 then None else Some((final - initialCapital) / initialCapital),
              MaxDrawdown(Equities(a.curve)),
              WinRate(wins, losses),
              |a.trades|, wins, losses)
  }

  /** The reported counts: every trade counts towards the total, every
      complete pair is a win or a loss, and the win rate is a fraction. */
  lemma MetricsCounts(a: Account, initialCapital: real)
    requires a.curve != []
    ensures var m := MetricsOf(a, initialCapital);
            && m.Metrics? && m.totalTrades == |a.trades|
            && m.winningTrades + m.losingTrades == |a.trades| / 2
            && 0.0 <= m.winRate <= 1.0
  {
    WinsLossesCount(a.trades);
  }

  /** Over any run from positive capital with sane rates and non-negative
      closes, the maximum drawdown lies in [-1, 0]. */
  lemma RunDrawdownWithinUnit(c: Costs, rows: seq<Row>, conds: seq<Condition>, parse: string -> Option<real>)
    requires c.initialCapital > 0.0 && SaneRates(c) && NonNegativeCloses(rows) && rows != []
    requires Simulate(c, rows, conds, parse).Success?
    ensures var m := MetricsOf(Simulate(c, rows, conds, parse).value, c.initialCapital);
            m.Metrics? && m.maxDrawdown.Some? && -1.0 <= m.maxDrawdown.value <= 0.0
  {
    SimulateKeepsLedger(c, rows, conds, parse);
    var a := Simulate(c, rows, conds, parse).value;
    var e := Equities(a.curve);
    assert forall t :: 0 <= t < |e| ==> e[t] >= 0.0;
    DrawdownWithinUnit(e);
  }

  // ---------------------------------------------------------- the engine

  /** A strategy: indicators to compute and conditions to evaluate. */
  datatype StrategyConfig = StrategyConfig(indicators: seq<IndicatorConfig>, conditions: seq<Condition>)

  /** What `run_backtest` returns. */
  datatype Report = Report(metrics: Metrics, trades: seq<Trade>, equityCurve: seq<EquityPoint>)

  /** The whole run: indicators, merged rows, simulation. */
  function Backtest(c: Costs, data: Frame, dates: seq<string>, config: StrategyConfig,
                    root: real -> IC.NonNegReal, parse: string -> Option<real>)
    : Result<Account, EngineError>
    requires "close" in data.columns && |dates| == data.length
  {
    var ind := CalculateIndicators(data, config.indicators, root);
    if ind.Failure? then Failure(Indicator(ind.error))
    else Simulate(c, Rows(data, dates, ind.value), config.conditions, parse)
  }

  /** `BacktestEngine`. */
  class Engine {
    const initialCapital: real
    const commissionRate: real
    const slippageRate: real
    const riskFreeRate: real
    var cash: real
    var shares: int
    var costBasis: real
    var trades: seq<Trade>
    var equityCurve: seq<EquityPoint>

    function State(): Account
      reads this
    {
      Account(cash, shares, costBasis, trades, equityCurve)
    }

    function CostsOf(): Costs {
      Costs(initialCapital, commissionRate, slippageRate)
    }

    constructor(initialCapital: real, commissionRate: real, slippageRate: real, riskFreeRate: real)
      ensures this.initialCapital == initialCapital && this.commissionRate == commissionRate
      ensures this.slippageRate == slippageRate && this.riskFreeRate == riskFreeRate
      ensures State() == Start(CostsOf())
    {
      this.initialCapital := initialCapital;
      this.commissionRate := commissionRate;
      this.slippageRate := slippageRate;
      this.riskFreeRate := riskFreeRate;
      cash := initialCapital;
      shares := 0;
      costBasis := 0.0;
      trades := [];
      equityCurve := [];
    }

    /** `_execute_buy`. */
    method ExecuteBuy(row: Row) returns (error: Option<EngineError>)
      modifies this
      ensures error.None? ==> BuyStep(old(State()), CostsOf(), row) == Success(State())
      ensures error.Some? ==> BuyStep(old(State()), CostsOf(), row) == Failure(error.value)
    {
      var price := BuyPrice(row.close, slippageRate);
      if price == 0.0 {
        return Some(ZeroPrice);
      }
      var lots := Lots(cash, price);
      if lots == 0 {
        return None;
      }
      var amount := TradeValue(lots, price);
      var commission := Commission(amount, commissionRate);
      var totalCost := amount + commission;
      if totalCost > cash {
        return None;
      }
      cash := cash - totalCost;
      shares := lots;
      costBasis := price;
      trades := trades + [Trade(row.date, Buy, price, lots, amount, commission)];
      error := None;
    }

    /** `_execute_sell`. */
    method ExecuteSell(row: Row)
      modifies this
      ensures State() == SellStep(old(State()), CostsOf(), row)
    {
      var price := SellPrice(row.close, slippageRate);
      var sold := shares;
      var amount := TradeValue(sold, price);
      var commission := Commission(amount, commissionRate);
      cash := cash + (amount - commission);
      shares := 0;
      costBasis := 0.0;
      trades := trades + [Trade(row.date, Sell, price, sold, amount, commission)];
    }

    /** One iteration of the main loop: record the equity point, evaluate
        the conditions, trade. */
    method ProcessRow(row: Row, conds: seq<Condition>, parse: string -> Option<real>)
      returns (error: Option<EngineError>)
      modifies this
      ensures error.None? ==> Step(old(State()), CostsOf(), row, conds, parse) == Success(State())
      ensures error.Some? ==> Step(old(State()), CostsOf(), row, conds, parse) == Failure(error.value)
    {
      var positionValue := TradeValue(shares, row.close);
      equityCurve := equityCurve + [EquityPoint(row.date, cash + positionValue, cash, positionValue)];
      var signals := EvaluateConditions(row, conds, parse);
      if signals.Failure? {
        return Some(signals.error);
      }
      error := None;
      if signals.value.buy && shares == 0 {
        error := ExecuteBuy(row);
      } else if signals.value.sell && shares != 0 {
        ExecuteSell(row);
      }
    }

    /** `_calculate_metrics`. */
    method CalculateMetrics() returns (m: Metrics)
      ensures m == MetricsOf(State(), initialCapital)
    {
      if equityCurve == [] {
        return NoMetrics;
      }
      var final := equityCurve[|equityCurve| - 1].equity;
      var totalReturn := if initialCapital == 0.0 then None else Some((final - initialCapital) / initialCapital);
      var maxDrawdown := MaxDrawdown(Equities(equityCurve));
      var wins, losses := CountWins(trades);
      var total := wins + losses;
      var winRate := if total > 0 then wins as real / total as real else 0.0;
      m := Metrics(initialCapital, final, totalReturn, maxDrawdown, winRate, |trades|, wins, losses);
    }

    /** The main loop of `run_backtest`, from the reset state. */
    method RunRows(rows: seq<Row>, conds: seq<Condition>, parse: string -> Option<real>)
      returns (error: Option<EngineError>)
      requires State() == Start(CostsOf())
      modifies this
      ensures error.None? ==> Simulate(CostsOf(), rows, conds, parse) == Success(State())
      ensures error.Some? ==> Simulate(CostsOf(), rows, conds, parse) == Failure(error.value)
    {
      var i := 0;
      while i < |rows|
        invariant 0 <= i <= |rows|
        invariant Simulate(CostsOf(), rows[..i], conds, parse) == Success(State())
      {
        assert rows[..i + 1][..i] == rows[..i];
        error := ProcessRow(rows[i], conds, parse);
        if error.Some? {
          SimulateFailurePersists(CostsOf(), rows, i + 1, conds, parse);
          return;
        }
        i := i + 1;
      }
      assert rows[..|rows|] == rows;
      error := None;
    }

    /** `run_backtest`: reset, compute the indicators, then run every row;
        finally the metrics. */
    method RunBacktest(data: Frame, dates: seq<string>, config: StrategyConfig,
                       root: real -> IC.NonNegReal, parse: string -> Option<real>)
      returns (r: Result<Report, EngineError>)
      requires "close" in data.columns && |dates| == data.length
      modifies this
      ensures var spec := Backtest(CostsOf(), data, dates, config, root, parse);
              && (spec.Success? ==>
                    State() == spec.value
                    && r == Success(Report(MetricsOf(spec.value, initialCapital), trades, equityCurve)))
              && (spec.Failure? ==> r == Failure(spec.error))
    {
      cash := initialCapital;
      shares := 0;
      costBasis := 0.0;
      trades := [];
      equityCurve := [];

      var ind := CalculateIndicators(data, config.indicators, root);
      if ind.Failure? {
        return Failure(Indicator(ind.error));
      }
      var error := RunRows(Rows(data, dates, ind.value), config.conditions, parse);
      if error.Some? {
        return Failure(error.value);
      }
      var metrics := CalculateMetrics();
      r := Success(Report(metrics, trades, equityCurve));
    }
  }

  /** The win and loss counts of `_calculate_metrics`, pair by pair. */
  method CountWins(trades: seq<Trade>) returns (wins: nat, losses: nat)
    ensures (wins, losses) == WinsLosses(trades)
  {
    wins, losses := 0, 0;
    var i := 0;
    while i + 1 < |trades|
      invariant 0 <= i <= |trades|
      invariant (wins + WinsLosses(trades[i..]).0, losses + WinsLosses(trades[i..]).1) == WinsLosses(trades)
    {
      assert trades[i..][2..] == trades[i + 2..];
      if trades[i + 1].price > trades[i].price {
        wins := wins + 1;
      } else {
        losses := losses + 1;
      }
      i := i + 2;
    }
  }
}
