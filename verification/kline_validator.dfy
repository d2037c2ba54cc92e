/** The K-line guards of backend/validators/kline_validator.py: one record,
    a whole frame, the stock-code format and a date range. Each is an ordered
    list of checks whose first failure is reported. */
module KLineValidator {
  import opened Wrappers
  import opened PyText
  import opened DataFrame

  // ------------------------------------------------------------ the checks

  /** One bar's numbers: prices and volume. */
  datatype Bar = Bar(open: real, close: real, high: real, low: real, volume: real)

  datatype Check =
    | NonNegative(field: string)
    | HighAtLeastLow
    | HighAtLeastOpen
    | HighAtLeastClose
    | LowAtMostOpen
    | LowAtMostClose

  /** The price and volume checks, in the order both validators run them. */
  const BarChecks: seq<Check> := [
    NonNegative("open"), NonNegative("close"), NonNegative("high"), NonNegative("low"),
    NonNegative("volume"), HighAtLeastLow, HighAtLeastOpen, HighAtLeastClose,
    LowAtMostOpen, LowAtMostClose]

  predicate Holds(c: Check, b: Bar) {
    match c
    case NonNegative(f) =>
      (f == "open" ==> b.open >= 0.0) && (f == "close" ==> b.close >= 0.0)
      && (f == "high" ==> b.high >= 0.0) && (f == "low" ==> b.low >= 0.0)
      && (f == "volume" ==> b.volume >= 0.0)
    case HighAtLeastLow => b.high >= b.low
    case HighAtLeastOpen => b.high >= b.open
    case HighAtLeastClose => b.high >= b.close
    case LowAtMostOpen => b.low <= b.open
    case LowAtMostClose => b.low <= b.close
  }

  /** A well-formed bar: nothing negative, high on top and low at the bottom. */
  predicate WellFormed(b: Bar) {
    b.open >= 0.0 && b.close >= 0.0 && b.high >= 0.0 && b.low >= 0.0 && b.volume >= 0.0
    && b.low <= b.open <= b.high && b.low <= b.close <= b.high
  }

  /** The first check of `cs` that the bar fails. */
  function FirstFailure(cs: seq<Check>, b: Bar): (r: Option<Check>)
    ensures r.None? <==> forall k :: 0 <= k < |cs| ==> Holds(cs[k], b)
    ensures r.Some? ==> exists k :: 0 <= k < |cs| && cs[k] == r.value && !Holds(cs[k], b)
                          && forall j :: 0 <= j < k ==> Holds(cs[j], b)
  {
    if cs == [] then None
    else if !Holds(cs[0], b) then Some(cs[0])
    else
      var rest := FirstFailure(cs[1..], b);
      assert forall k :: 1 <= k < |cs| ==> cs[k] == cs[1..][k - 1];
      if rest.Some? then
        var k :| 0 <= k < |cs| - 1 && cs[1..][k] == rest.value && !Holds(cs[1..][k], b)
                 && forall j :: 0 <= j < k ==> Holds(cs[1..][j], b);
        assert cs[k + 1] == cs[1..][k];
        rest
      else rest
  }

  lemma FirstFailureFacts(b: Bar)
    ensures Holds(BarChecks[0], b) <==> b.open >= 0.0
    ensures Holds(BarChecks[1], b) <==> b.close >= 0.0
    ensures Holds(BarChecks[2], b) <==> b.high >= 0.0
    ensures Holds(BarChecks[3], b) <==> b.low >= 0.0
    ensures Holds(BarChecks[4], b) <==> b.volume >= 0.0
    ensures Holds(BarChecks[5], b) <==> b.high >= b.low
    ensures Holds(BarChecks[6], b) <==> b.high >= b.open
    ensures Holds(BarChecks[7], b) <==> b.high >= b.close
    ensures Holds(BarChecks[8], b) <==> b.low <= b.open
    ensures Holds(BarChecks[9], b) <==> b.low <= b.close
  {
  }

  /** Passing every check is being well formed. */
  lemma AllChecksMeanWellFormed(b: Bar)
    ensures FirstFailure(BarChecks, b).None? <==> WellFormed(b)
  {
    if WellFormed(b) {
      assert forall k :: 0 <= k < |BarChecks| ==> Holds(BarChecks[k], b);
    } else {
      var k: nat :| k < |BarChecks| && !Holds(BarChecks[k], b) by {
        if b.open < 0.0 { assert !Holds(BarChecks[0], b); }
        else if b.close < 0.0 { assert !Holds(BarChecks[1], b); }
        else if b.high < 0.0 { assert !Holds(BarChecks[2], b); }
        else if b.low < 0.0 { assert !Holds(BarChecks[3], b); }
        else if b.volume < 0.0 { assert !Holds(BarChecks[4], b); }
        else if b.high < b.low { assert !Holds(BarChecks[5], b); }
        else if b.high < b.open { assert !Holds(BarChecks[6], b); }
        else if b.high < b.close { assert !Holds(BarChecks[7], b); }
        else if b.low > b.open { assert !Holds(BarChecks[8], b); }
        else { assert !Holds(BarChecks[9], b); }
      }
    }
  }

  datatype KLineError =
    | MissingFields(fields: seq<string>)
    | NotANumber(field: string)
    | Failed(check: Check)
    | EmptyFrame
    | MissingColumns(columns: seq<string>)
    | FailedRows(check: Check, rows: seq<nat>)
    | InvalidStockCode
    | BadDateFormat
    | StartAfterEnd
    | StartInFuture
    | EndInFuture

  datatype Verdict = Accepted | Rejected(error: KLineError)

  // ---------------------------------------------------------- one record

  /** A record value: a number, or Python's None. */
  datatype Field = Number(x: real) | Null

  type Record = map<string, Field>

  const RequiredFields: seq<string> := ["open", "close", "high", "low", "volume"]

  predicate HasNumbers(data: Record) {
    forall f :: f in RequiredFields ==> f in data && data[f].Number?
  }

  /** The bar `validate_single_record` checks: the four prices as floats and
      the volume through `int()`. */
  function RecordBar(data: Record): Bar
    requires HasNumbers(data)
  {
    Bar(data["open"].x, data["close"].x, data["high"].x, data["low"].x, Truncate(data["volume"].x) as real)
  }

  predicate AmountOk(data: Record) {
    "amount" in data && data["amount"].Number? ==> data["amount"].x >= 0.0
  }

  /** The ten comparisons of `validate_single_record`, in the source's order;
      the first one that fails is the one reported. */
  function CheckBar(b: Bar): (r: Option<Check>)
    ensures r == FirstFailure(BarChecks, b)
  {
    FirstFailureFacts(b);
    if b.open < 0.0 then Some(NonNegative("open"))
    else if b.close < 0.0 then Some(NonNegative("close"))
    else if b.high < 0.0 then Some(NonNegative("high"))
    else if b.low < 0.0 then Some(NonNegative("low"))
    else if b.volume < 0.0 then Some(NonNegative("volume"))
    else if b.high < b.low then Some(HighAtLeastLow)
    else if b.high < b.open then Some(HighAtLeastOpen)
    else if b.high < b.close then Some(HighAtLeastClose)
    else if b.low > b.open then Some(LowAtMostOpen)
    else if b.low > b.close then Some(LowAtMostClose)
    else None
  }

  /** `validate_single_record`: missing fields, then the conversions in field
      order, then the ten checks, then the amount when present and not None. */
  function ValidateSingleRecord(data: Record): (r: Verdict)
    ensures r.Accepted? <==> HasNumbers(data) && WellFormed(RecordBar(data)) && AmountOk(data)
    ensures MissingNames(RequiredFields, data.Keys) != [] ==>
              r == Rejected(MissingFields(MissingNames(RequiredFields, data.Keys)))
    ensures HasNumbers(data) && FirstFailure(BarChecks, RecordBar(data)).Some? ==>
              r == Rejected(Failed(FirstFailure(BarChecks, RecordBar(data)).value))
  {
    var missing := MissingNames(RequiredFields, data.Keys);
    if missing != [] then Rejected(MissingFields(missing))
    else if data["open"].Null? then Rejected(NotANumber("open"))
    else if data["close"].Null? then Rejected(NotANumber("close"))
    else if data["high"].Null? then Rejected(NotANumber("high"))
    else if data["low"].Null? then Rejected(NotANumber("low"))
    else if data["volume"].Null? then Rejected(NotANumber("volume"))
    else
      var b := RecordBar(data);
      AllChecksMeanWellFormed(b);
      var failure := CheckBar(b);
      if failure.Some? then Rejected(Failed(failure.value))
      else if "amount" in data && data["amount"].Number? && data["amount"].x < 0.0 then
        Rejected(Failed(NonNegative("amount")))
      else Accepted
  }

  /** A bar with high below both low and open is reported for high < low,
      the earlier check. */
  lemma HighBelowLowReportedFirst(data: Record)
    requires HasNumbers(data)
    requires data["open"].x >= 0.0 && data["close"].x >= 0.0 && data["high"].x >= 0.0
             && data["low"].x >= 0.0 && data["volume"].x >= 0.0
    requires data["high"].x < data["low"].x && data["high"].x < data["open"].x
    ensures ValidateSingleRecord(data) == Rejected(Failed(HighAtLeastLow))
  {
  }

  // ------------------------------------------------------------- a frame

  /** Row i of a frame that holds the five required columns. */
  function FrameBar(df: Frame, i: nat): Bar
    requires i < df.length && forall f :: f in RequiredFields ==> f in df.columns
  {
    Bar(df.columns["open"][i], df.columns["close"][i], df.columns["high"][i], df.columns["low"][i],
        df.columns["volume"][i])
  }

  /** The first `limit` positions from i on whose flag is set, in order: the
      `invalid_rows[:5]` of the source's row scans. */
  function FirstIndices(flags: seq<bool>, i: nat, limit: nat): (rows: seq<nat>)
    requires i <= |flags|
    ensures |rows| <= limit
    ensures forall k :: 0 <= k < |rows| ==> i <= rows[k] < |flags| && flags[rows[k]]
    ensures limit > 0 ==> (rows == [] <==> forall j :: i <= j < |flags| ==> !flags[j])
    decreases |flags| - i
  {
    if i == |flags| || limit == 0 then []
    else if flags[i] then [i] + FirstIndices(flags, i + 1, limit - 1)
    else FirstIndices(flags, i + 1, limit)
  }

  predicate Increasing(rows: seq<nat>) {
    forall k, l :: 0 <= k < l < |rows| ==> rows[k] < rows[l]
  }

  /** The positions come in increasing order. */
  lemma {:induction false} FirstIndicesIncreasing(flags: seq<bool>, i: nat, limit: nat)
    requires i <= |flags|
    ensures Increasing(FirstIndices(flags, i, limit))
    decreases |flags| - i
  {
    if i < |flags| && limit > 0 {
      var rows := FirstIndices(flags, i, limit);
      if flags[i] {
        var rest := FirstIndices(flags, i + 1, limit - 1);
        FirstIndicesIncreasing(flags, i + 1, limit - 1);
        assert rows == [i] + rest;
        forall k, l | 0 <= k < l < |rows|
          ensures rows[k] < rows[l]
        {
          assert rows[l] == rest[l - 1];
          if k > 0 {
            assert rows[k] == rest[k - 1];
          }
        }
      } else {
        FirstIndicesIncreasing(flags, i + 1, limit);
      }
    }
  }

  /** The positions are the first flagged ones: every flagged position up to
      the last one reported is reported, and all of them are when fewer than
      `limit` are. */
  lemma {:induction false} FirstIndicesFirst(flags: seq<bool>, i: nat, limit: nat, j: nat)
    requires i <= j < |flags| && flags[j]
    ensures var rows := FirstIndices(flags, i, limit);
            |rows| < limit || (rows != [] && j <= rows[|rows| - 1]) ==> j in rows
    decreases |flags| - i
  {
    if limit > 0 && i < j {
      var rows := FirstIndices(flags, i, limit);
      if flags[i] {
        FirstIndicesFirst(flags, i + 1, limit - 1, j);
        var rest := FirstIndices(flags, i + 1, limit - 1);
        assert rows == [i] + rest;
        if rest != [] {
          assert rows[|rows| - 1] == rest[|rest| - 1];
        }
      } else {
        FirstIndicesFirst(flags, i + 1, limit, j);
      }
    }
  }

  /** Increasing order and the first flagged positions, for every position. */
  lemma FirstIndicesOrdered(flags: seq<bool>, i: nat, limit: nat)
    requires i <= |flags|
    ensures var rows := FirstIndices(flags, i, limit);
            && Increasing(rows)
            && (forall j :: i <= j < |flags| && flags[j] && (|rows| < limit || (rows != [] && j <= rows[|rows| - 1]))
                  ==> j in rows)
  {
    FirstIndicesIncreasing(flags, i, limit);
    forall j | i <= j < |flags| && flags[j] {
      FirstIndicesFirst(flags, i, limit, j);
    }
  }

  /** Which rows of the frame fail `c`. */
  function FailFlags(df: Frame, c: Check): (flags: seq<bool>)
    requires forall f :: f in RequiredFields ==> f in df.columns
    ensures |flags| == df.length && forall j :: 0 <= j < df.length ==> (flags[j] <==> !Holds(c, FrameBar(df, j)))
  {
    seq(df.length, j requires 0 <= j < df.length => !Holds(c, FrameBar(df, j)))
  }

  /** The first `limit` rows, from row i on, where `c` fails, in increasing
      order: every failing row up to the last one reported is reported, and
      all of them are when fewer than `limit` are. */
  function FailingRows(df: Frame, c: Check, i: nat, limit: nat): (rows: seq<nat>)
    requires forall f :: f in RequiredFields ==> f in df.columns
    requires i <= df.length
    ensures |rows| <= limit
    ensures forall k :: 0 <= k < |rows| ==> i <= rows[k] < df.length && !Holds(c, FrameBar(df, rows[k]))
    ensures Increasing(rows)
    ensures forall j :: (i <= j < df.length && !Holds(c, FrameBar(df, j))
                         && (|rows| < limit || (rows != [] && j <= rows[|rows| - 1]))) ==> j in rows
    ensures limit > 0 ==> (rows == [] <==> forall j :: i <= j < df.length ==> Holds(c, FrameBar(df, j)))
  {
    var flags := FailFlags(df, c);
    FirstIndicesOrdered(flags, i, limit);
    FirstIndices(flags, i, limit)
  }

  /** The column checks, one whole column at a time, in the order of the list. */
  function CheckColumns(df: Frame, cs: seq<Check>): (r: Option<KLineError>)
    requires forall f :: f in RequiredFields ==> f in df.columns
    ensures r.None? <==> forall k, i :: 0 <= k < |cs| && 0 <= i < df.length ==> Holds(cs[k], FrameBar(df, i))
    ensures r.Some? ==> exists k: nat :: ReportedAt(df, cs, k, r.value)
  {
    if cs == [] then None
    else
      var rows := FailingRows(df, cs[0], 0, 5);
      if rows != [] then
        assert ReportedAt(df, cs, 0, FailedRows(cs[0], rows));
        Some(FailedRows(cs[0], rows))
      else
        assert forall k :: 1 <= k < |cs| ==> cs[k] == cs[1..][k - 1];
        var r := CheckColumns(df, cs[1..]);
        if r.Some? then
          var k: nat :| ReportedAt(df, cs[1..], k, r.value);
          ReportedAtShift(df, cs, k, r.value);
          r
        else r
  }

  /** Check `c` holds on every row of the frame. */
  predicate ColumnHolds(df: Frame, c: Check)
    requires forall f :: f in RequiredFields ==> f in df.columns
  {
    forall i :: 0 <= i < df.length ==> Holds(c, FrameBar(df, i))
  }

  /** `e` is the error for check k of the list: every earlier check holds on
      every row, check k fails on some row, and `e` lists its first five
      failing rows. */
  predicate ReportedAt(df: Frame, cs: seq<Check>, k: nat, e: KLineError)
    requires forall f :: f in RequiredFields ==> f in df.columns
  {
    && k < |cs| && !ColumnHolds(df, cs[k])
    && e == FailedRows(cs[k], FailingRows(df, cs[k], 0, 5))
    && forall j :: 0 <= j < k ==> ColumnHolds(df, cs[j])
  }

  /** A report for the tail of the list, whose head holds, is the report at
      the next position of the whole list. */
  lemma ReportedAtShift(df: Frame, cs: seq<Check>, k: nat, e: KLineError)
    requires forall f :: f in RequiredFields ==> f in df.columns
    requires cs != [] && ColumnHolds(df, cs[0]) && ReportedAt(df, cs[1..], k, e)
    ensures ReportedAt(df, cs, k + 1, e)
  {
    assert cs[k + 1] == cs[1..][k];
    forall j | 0 <= j < k + 1
      ensures ColumnHolds(df, cs[j])
    {
      if j > 0 {
        assert cs[j] == cs[1..][j - 1];
      }
    }
  }

  /** Only the first failing check can be reported. */
  lemma ReportedAtUnique(df: Frame, cs: seq<Check>, k: nat, k': nat, e: KLineError, e': KLineError)
    requires forall f :: f in RequiredFields ==> f in df.columns
    requires ReportedAt(df, cs, k, e) && ReportedAt(df, cs, k', e')
    ensures k == k' && e == e'
  {
  }

  /** Which amounts are negative. */
  function NegativeFlags(amount: seq<real>): (flags: seq<bool>)
    ensures |flags| == |amount| && forall j :: 0 <= j < |amount| ==> (flags[j] <==> amount[j] < 0.0)
  {
    seq(|amount|, j requires 0 <= j < |amount| => amount[j] < 0.0)
  }

  /** The first `limit` rows, from row i on, with a negative amount, in
      increasing order and complete as for `FailingRows`. */
  function NegativeAmountRows(amount: seq<real>, i: nat, limit: nat): (rows: seq<nat>)
    requires i <= |amount|
    ensures |rows| <= limit
    ensures forall k :: 0 <= k < |rows| ==> i <= rows[k] < |amount| && amount[rows[k]] < 0.0
    ensures Increasing(rows)
    ensures forall j :: (i <= j < |amount| && amount[j] < 0.0
                         && (|rows| < limit || (rows != [] && j <= rows[|rows| - 1]))) ==> j in rows
    ensures limit > 0 ==> (rows == [] <==> forall j :: i <= j < |amount| ==> amount[j] >= 0.0)
  {
    var flags := NegativeFlags(amount);
    FirstIndicesOrdered(flags, i, limit);
    FirstIndices(flags, i, limit)
  }

  /** `validate_dataframe`: empty frame, missing columns, the column checks,
      then the amount column when there is one. */
  function ValidateDataframe(df: Frame): (r: Verdict)
    ensures IsEmpty(df) ==> r == Rejected(EmptyFrame)
    ensures !IsEmpty(df) && MissingNames(RequiredFields, df.columns.Keys) != [] ==>
              r == Rejected(MissingColumns(MissingNames(RequiredFields, df.columns.Keys)))
  {
    if IsEmpty(df) then Rejected(EmptyFrame)
    else
      var missing := MissingNames(RequiredFields, df.columns.Keys);
      if missing != [] then Rejected(MissingColumns(missing))
      else
        var e := CheckColumns(df, BarChecks);
        if e.Some? then Rejected(e.value)
        else if "amount" in df.columns && NegativeAmountRows(df.columns["amount"], 0, 5) != [] then
          Rejected(FailedRows(NonNegative("amount"), NegativeAmountRows(df.columns["amount"], 0, 5)))
        else Accepted
  }

  /** The error a frame with all its columns gets: that of its first failing
      bar check; and only when every bar check passes, the negative-amount
      error (with the first five such rows) or acceptance. */
  lemma ValidateDataframeReports(df: Frame)
    requires !IsEmpty(df) && forall f :: f in RequiredFields ==> f in df.columns
    ensures forall k: nat, e :: ReportedAt(df, BarChecks, k, e) ==> ValidateDataframe(df) == Rejected(e)
    ensures (forall k :: 0 <= k < |BarChecks| ==> ColumnHolds(df, BarChecks[k])) ==>
              ValidateDataframe(df)
                == if "amount" in df.columns && exists j :: 0 <= j < df.length && df.columns["amount"][j] < 0.0
                   then Rejected(FailedRows(NonNegative("amount"), NegativeAmountRows(df.columns["amount"], 0, 5)))
                   else Accepted
  {
    var e := CheckColumns(df, BarChecks);
    if e.Some? {
      var k0: nat :| ReportedAt(df, BarChecks, k0, e.value);
      forall k: nat, e' | ReportedAt(df, BarChecks, k, e')
        ensures ValidateDataframe(df) == Rejected(e')
      {
        ReportedAtUnique(df, BarChecks, k0, k, e.value, e');
      }
    }
  }

  /** Row `i` is a well-formed bar with a non-negative amount (where the
      frame has an amount column). */
  predicate RowPasses(df: Frame, i: nat)
    requires i < df.length && forall f :: f in RequiredFields ==> f in df.columns
  {
    WellFormed(FrameBar(df, i)) && ("amount" in df.columns ==> df.columns["amount"][i] >= 0.0)
  }

  /** A non-empty frame with the required columns is accepted exactly when
      every row is a well-formed bar with a non-negative amount. */
  lemma FrameAcceptedIffEveryRowPasses(df: Frame)
    requires !IsEmpty(df) && forall f :: f in RequiredFields ==> f in df.columns
    ensures ValidateDataframe(df).Accepted? <==> forall i :: 0 <= i < df.length ==> RowPasses(df, i)
  {
    var checks := CheckColumns(df, BarChecks);
    var amountOk := "amount" in df.columns ==> NegativeAmountRows(df.columns["amount"], 0, 5) == [];
    assert ValidateDataframe(df).Accepted? <==> checks.None? && amountOk;
    forall i | 0 <= i < df.length
      ensures RowPasses(df, i) <==> (forall k :: 0 <= k < |BarChecks| ==> Holds(BarChecks[k], FrameBar(df, i)))
                                    && ("amount" in df.columns ==> df.columns["amount"][i] >= 0.0)
    {
      AllChecksMeanWellFormed(FrameBar(df, i));
    }
  }

  /** The one-row frame holding a record's numbers. */
  function RecordFrame(data: Record): Frame
    requires HasNumbers(data)
  {
    var base := map["open" := [data["open"].x], "close" := [data["close"].x], "high" := [data["high"].x],
                    "low" := [data["low"].x], "volume" := [data["volume"].x]];
    if "amount" in data && data["amount"].Number? then Frame(1, base["amount" := [data["amount"].x]])
    else Frame(1, base)
  }

  /** The record check as evidently intended: the volume's sign is tested on
      the number itself, not after `int()` has truncated it toward zero. */
  function ValidateSingleRecordIntended(data: Record): (r: Verdict)
    ensures r.Accepted? <==>
              HasNumbers(data) && WellFormed(RecordBar(data)) && data["volume"].x >= 0.0 && AmountOk(data)
  {
    var v := ValidateSingleRecord(data);
    if v.Accepted? && data["volume"].x < 0.0 then Rejected(Failed(NonNegative("volume"))) else v
  }

  /** The one-row frame has the required columns, the record's numbers as
      its only row, and an amount column exactly when the record has one. */
  lemma RecordFrameFacts(data: Record)
    requires HasNumbers(data)
    ensures var df := RecordFrame(data);
            && df.length == 1 && !IsEmpty(df)
            && (forall f :: f in RequiredFields ==> f in df.columns)
            && FrameBar(df, 0) == Bar(data["open"].x, data["close"].x, data["high"].x, data["low"].x, data["volume"].x)
            && (("amount" in df.columns ==> df.columns["amount"][0] >= 0.0) <==> AmountOk(data))
  {
    var df := RecordFrame(data);
    assert "open" in df.columns;
  }

  /** With the intended record check, a record is accepted exactly when the
      one-row frame of its numbers is. */
  lemma IntendedRecordAgreesWithFrame(data: Record)
    requires HasNumbers(data)
    ensures ValidateSingleRecordIntended(data).Accepted? <==> ValidateDataframe(RecordFrame(data)).Accepted?
  {
    var df := RecordFrame(data);
    RecordFrameFacts(data);
    var b := FrameBar(df, 0);
    var rb := RecordBar(data);
    var v := data["volume"].x;
    assert rb == b.(volume := Truncate(v) as real);
    assert WellFormed(rb) && v >= 0.0 <==> WellFormed(b) by {
      if v >= 0.0 {
        assert Truncate(v) as real >= 0.0;
      }
    }
    assert ValidateSingleRecordIntended(data).Accepted? <==> WellFormed(b) && AmountOk(data);
    OneRowFrameAccepted(df);
  }

  /** A one-row frame with the required columns is accepted exactly when its
      row is a well-formed bar with a non-negative amount. */
  lemma OneRowFrameAccepted(df: Frame)
    requires df.length == 1 && forall f :: f in RequiredFields ==> f in df.columns
    ensures ValidateDataframe(df).Accepted? <==>
              WellFormed(FrameBar(df, 0)) && ("amount" in df.columns ==> df.columns["amount"][0] >= 0.0)
  {
    FrameAcceptedIffEveryRowPasses(df);
    assert (forall i :: 0 <= i < df.length ==> RowPasses(df, i)) <==> RowPasses(df, 0);
  }

  /** The record of the counterexample: a flat bar with volume -0.5. */
  function NegativeHalfVolume(): Record {
    map["open" := Number(1.0), "close" := Number(1.0), "high" := Number(1.0),
        "low" := Number(1.0), "volume" := Number(-0.5)]
  }

  lemma NegativeHalfVolumeHasNumbers()
    ensures HasNumbers(NegativeHalfVolume())
  {
    var data := NegativeHalfVolume();
    assert "open" in data && "close" in data && "high" in data && "low" in data && "volume" in data;
  }

  lemma NegativeHalfVolumeRecordAccepted()
    ensures ValidateSingleRecord(NegativeHalfVolume()) == Accepted
  {
    var data := NegativeHalfVolume();
    NegativeHalfVolumeHasNumbers();
    assert Truncate(-0.5) == 0;
    assert RecordBar(data) == Bar(1.0, 1.0, 1.0, 1.0, 0.0);
    assert WellFormed(RecordBar(data));
    assert "amount" !in data;
  }

  lemma NegativeHalfVolumeFrameRejected()
    ensures HasNumbers(NegativeHalfVolume())
    ensures ValidateDataframe(RecordFrame(NegativeHalfVolume())).Rejected?
  {
    NegativeHalfVolumeHasNumbers();
    var df := RecordFrame(NegativeHalfVolume());
    assert df.columns["volume"] == [-0.5];
    assert "open" in df.columns && "close" in df.columns && "high" in df.columns
           && "low" in df.columns && "volume" in df.columns;
    FrameAcceptedIffEveryRowPasses(df);
    assert !RowPasses(df, 0);
  }

  /** As written, a record with volume -0.5 is accepted (`int(-0.5)` is 0),
      while the one-row frame with the same numbers is rejected. */
  lemma TruncatedVolumeSlipsThrough()
    ensures HasNumbers(NegativeHalfVolume())
    ensures ValidateSingleRecord(NegativeHalfVolume()) == Accepted
    ensures ValidateDataframe(RecordFrame(NegativeHalfVolume())).Rejected?
    ensures ValidateSingleRecordIntended(NegativeHalfVolume()).Rejected?
  {
    NegativeHalfVolumeRecordAccepted();
    NegativeHalfVolumeFrameRejected();
  }

  // ---------------------------------------------------------- stock code

  const Markets: set<string> := {"SH", "SZ"}

  /** What `re.match(r'^\d{6}\.(SH|SZ)$', code)` accepts. Python's `$` also
      matches just before a final newline, so one trailing "\n" gets through. */
  predicate StockCodeMatches(code: string) {
    && (|code| == 9 || (|code| == 10 && code[9] == '\n'))
    && AllDigits(code[..6]) && code[6] == '.' && code[7] == 'S'
    && (code[8] == 'H' || code[8] == 'Z')
  }

  function ValidateStockCode(code: string): (r: Verdict)
    ensures r == Accepted || r == Rejected(InvalidStockCode)
    ensures r == Accepted ==> |code| >= 9 && code[..9] == code[..6] + "." + code[7..9]
  {
    if StockCodeMatches(code) then Accepted else Rejected(InvalidStockCode)
  }

  /** Every accepted code is six digits, a dot, a market and at most a newline. */
  lemma AcceptedStockCodeShape(code: string)
    requires ValidateStockCode(code) == Accepted
    ensures |code[..6]| == 6 && AllDigits(code[..6])
    ensures code[7..9] in Markets
    ensures code[9..] == "" || code[9..] == "\n"
    ensures code == code[..6] + "." + code[7..9] + code[9..]
  {
    assert code[7..9] == [code[7], code[8]];
  }

  /** Conversely, every such string is accepted. */
  lemma StockCodeOfShapeAccepted(digits: string, market: string, tail: string)
    requires |digits| == 6 && AllDigits(digits)
    requires market in Markets
    requires tail == "" || tail == "\n"
    ensures ValidateStockCode(digits + "." + market + tail) == Accepted
  {
    var code := digits + "." + market + tail;
    assert code[..6] == digits;
  }

  /** The check as evidently intended: nothing after the market suffix. */
  function ValidateStockCodeExact(code: string): (r: Verdict)
    ensures r == Accepted <==>
              |code| == 9 && StockCodeMatches(code)
    ensures r != Accepted ==> r == Rejected(InvalidStockCode)
  {
    if |code| == 9 && StockCodeMatches(code) then Accepted else Rejected(InvalidStockCode)
  }

  /** The exact check accepts precisely six digits, a dot and a market. */
  lemma ExactStockCodeShape(code: string)
    ensures ValidateStockCodeExact(code) == Accepted <==>
              |code| == 9 && AllDigits(code[..6]) && code[6] == '.' && code[7..] in Markets
  {
    if |code| == 9 {
      assert code[7..] == [code[7], code[8]];
    }
  }

  /** "600000.SH\n" gets through the check as written but not the exact one. */
  lemma TrailingNewlineAccepted()
    ensures ValidateStockCode("600000.SH\n") == Accepted
    ensures ValidateStockCodeExact("600000.SH\n") == Rejected(InvalidStockCode)
  {
    var code := "600000.SH\n";
    assert code[..6] == "600000";
  }

  // ---------------------------------------------------------- date range

  /** A calendar date as `datetime.date` holds it. */
  datatype Date = Date(year: int, month: int, day: int)

  predicate IsLeapYear(y: int) {
    y % 4 == 0 && (y % 100 != 0 || y % 400 == 0)
  }

  function DaysInMonth(y: int, m: int): (n: int)
    requires 1 <= m <= 12
    ensures 28 <= n <= 31
    ensures m == 2 ==> (n == 29 <==> IsLeapYear(y))
  {
    if m == 2 then (if IsLeapYear(y) then 29 else 28)
    else if m == 4 || m == 6 || m == 9 || m == 11 then 30
    else 31
  }

  /** `datetime.date` accepts years 1..9999 and the days of the proleptic
      Gregorian calendar. */
  predicate ValidDate(d: Date) {
    1 <= d.year <= 9999 && 1 <= d.month <= 12 && 1 <= d.day <= DaysInMonth(d.year, d.month)
  }

  function DigitValue(c: char): (v: nat)
    requires IsDigit(c)
    ensures v < 10 && DigitChar(v) == c
  {
    c as int - '0' as int
  }

  /** The `%m` directive: one of `1[0-2]`, `0[1-9]` or `[1-9]`. */
  function MonthToken(t: string): (r: Option<int>)
    ensures r.Some? ==> 1 <= r.value <= 12
    ensures r.Some? ==> |t| == 1 || |t| == 2
  {
    if |t| == 1 && '1' <= t[0] <= '9' then Some(DigitValue(t[0]))
    else if |t| == 2 && t[0] == '0' && '1' <= t[1] <= '9' then Some(DigitValue(t[1]))
    else if |t| == 2 && t[0] == '1' && '0' <= t[1] <= '2' then Some(10 + DigitValue(t[1]))
    else None
  }

  /** The `%d` directive: one of `3[01]`, `[12]\d`, `0[1-9]`, `[1-9]` or
      ` [1-9]` (a space-padded day). */
  function DayToken(t: string): (r: Option<int>)
    ensures r.Some? ==> 1 <= r.value <= 31
    ensures r.Some? ==> |t| == 1 || |t| == 2
  {
    if |t| == 1 && '1' <= t[0] <= '9' then Some(DigitValue(t[0]))
    else if |t| == 2 && (t[0] == '0' || t[0] == ' ') && '1' <= t[1] <= '9' then Some(DigitValue(t[1]))
    else if |t| == 2 && (t[0] == '1' || t[0] == '2') && IsDigit(t[1])
    then Some(10 * DigitValue(t[0]) + DigitValue(t[1]))
    else if |t| == 2 && t[0] == '3' && (t[1] == '0' || t[1] == '1') then Some(30 + DigitValue(t[1]))
    else None
  }

  /** `datetime.strptime(s, '%Y-%m-%d').date()`, or None where it raises
      `ValueError`: four year digits, a dash, the month up to the next dash,
      and the day as the whole remainder ("unconverted data remains"
      otherwise); the date must exist. */
  function ParseDate(s: string): (r: Option<Date>)
    ensures r.Some? ==> ValidDate(r.value)
    ensures r.Some? ==> |s| >= 8 && s[4] == '-' && AllDigits(s[..4])
    ensures r.Some? ==> r.value.year == DigitsValue(s[..4])
  {
    if |s| < 5 || !AllDigits(s[..4]) || s[4] != '-' then None
    else
      var rest := s[5..];
      var m := BeforeFirst(rest, '-');
      if |m| == |rest| then None
      else
        match (MonthToken(m), DayToken(rest[|m| + 1..]))
        case (Some(month), Some(day)) =>
          var d := Date(DigitsValue(s[..4]), month, day);
          if ValidDate(d) then Some(d) else None
        case _ => None
  }

  /** Zero-padded decimal digits of `n`, `width` of them. */
  function PaddedDigits(n: nat, width: nat): (r: string)
    ensures |r| == width && AllDigits(r)
  {
    if width == 0 then [] else PaddedDigits(n / 10, width - 1) + [DigitChar(n % 10)]
  }

  lemma {:induction false} PaddedDigitsValue(n: nat, width: nat)
    requires n < Pow10(width)
    ensures DigitsValue(PaddedDigits(n, width)) == n
  {
    if width > 0 {
      var r := PaddedDigits(n, width);
      assert r[..|r| - 1] == PaddedDigits(n / 10, width - 1);
      PaddedDigitsValue(n / 10, width - 1);
    }
  }

  function Pow10(k: nat): (p: nat)
    ensures p >= 1
  {
    if k == 0 then 1 else 10 * Pow10(k - 1)
  }

  /** `date.isoformat()`: `YYYY-MM-DD`, each part zero-padded. */
  function FormatDate(d: Date): (s: string)
    requires ValidDate(d)
    ensures |s| == 10 && s[4] == '-' && s[7] == '-'
  {
    PaddedDigits(d.year, 4) + "-" + PaddedDigits(d.month, 2) + "-" + PaddedDigits(d.day, 2)
  }

  /** Parsing the canonical spelling of a valid date gives the date back. */
  lemma ParseFormatRoundTrip(d: Date)
    requires ValidDate(d)
    ensures ParseDate(FormatDate(d)) == Some(d)
  {
    var s := FormatDate(d);
    var y, mm, dd := PaddedDigits(d.year, 4), PaddedDigits(d.month, 2), PaddedDigits(d.day, 2);
    assert s[..4] == y;
    PaddedDigitsValue(d.year, 4);
    PaddedDigitsValue(d.month, 2);
    PaddedDigitsValue(d.day, 2);
    var rest := s[5..];
    assert rest == mm + "-" + dd;
    assert '-' !in mm by { assert !IsDigit('-'); }
    BeforeFirstConcat(mm, '-', dd);
    assert rest[3..] == dd;
    TwoDigitToken(d.month);
    TwoDigitToken(d.day);
  }

  /** Two zero-padded digits of a month or day are read back by the tokens. */
  lemma TwoDigitToken(n: nat)
    requires 1 <= n <= 31
    ensures n <= 12 ==> MonthToken(PaddedDigits(n, 2)) == Some(n)
    ensures DayToken(PaddedDigits(n, 2)) == Some(n)
  {
    var t := PaddedDigits(n, 2);
    PaddedDigitsValue(n, 2);
    assert t == [DigitChar(n / 10 % 10), DigitChar(n % 10)];
    assert n / 10 % 10 == n / 10;
    assert Pow10(2) == 100;
  }

  /** Unpadded months and days are accepted too. */
  lemma UnpaddedDateAccepted()
    ensures ParseDate("2024-1-5") == Some(Date(2024, 1, 5))
  {
    var s := "2024-1-5";
    assert s[..4] == "2024";
    assert DigitsValue("2024") == 2024 by {
      assert "2024"[..3] == "202";
      assert "202"[..2] == "20";
      assert "20"[..1] == "2";
      assert "2"[..0] == "";
    }
    var rest := s[5..];
    assert rest == "1" + "-" + "5";
    BeforeFirstConcat("1", '-', "5");
  }

  /** The 29th of February exists in leap years only. */
  lemma LeapDay(y: int)
    requires 1 <= y <= 9999
    ensures ValidDate(Date(y, 2, 29)) <==> IsLeapYear(y)
  {
  }

  /** `start > end` on `datetime.date`: later year, month, then day. */
  predicate After(a: Date, b: Date) {
    || a.year > b.year
    || (a.year == b.year && a.month > b.month)
    || (a.year == b.year && a.month == b.month && a.day > b.day)
  }

  /** `After` is a strict total order on dates. */
  lemma AfterIsStrictTotalOrder(a: Date, b: Date, c: Date)
    ensures !After(a, a)
    ensures After(a, b) ==> !After(b, a)
    ensures After(a, b) && After(b, c) ==> After(a, c)
    ensures a != b ==> After(a, b) || After(b, a)
  {
  }

  /** Both dates must parse; then the start may not follow the end, and
      neither may follow `today` (the clock's date, passed in). */
  function ValidateDateRange(start: string, end: string, today: Date): (r: Verdict)
    ensures r.Rejected? ==> r.error in {BadDateFormat, StartAfterEnd, StartInFuture, EndInFuture}
    ensures r.Rejected? && r.error == BadDateFormat <==>
              ParseDate(start).None? || ParseDate(end).None?
  {
    match (ParseDate(start), ParseDate(end))
    case (Some(s), Some(e)) =>
      if After(s, e) then Rejected(StartAfterEnd)
      else if After(s, today) then Rejected(StartInFuture)
      else if After(e, today) then Rejected(EndInFuture)
      else Accepted
    case _ => Rejected(BadDateFormat)
  }

  /** A range is accepted exactly when both dates parse and
      start <= end <= today. */
  lemma DateRangeAcceptedIff(start: string, end: string, today: Date)
    ensures ValidateDateRange(start, end, today) == Accepted <==>
              && ParseDate(start).Some? && ParseDate(end).Some?
              && !After(ParseDate(start).value, ParseDate(end).value)
              && !After(ParseDate(end).value, today)
  {
    if ParseDate(start).Some? && ParseDate(end).Some? {
      AfterIsStrictTotalOrder(ParseDate(start).value, ParseDate(end).value, today);
    }
  }

  /** "EndInFuture" is only reported for a start that lies on or before today. */
  lemma EndInFutureMeansStartNotInFuture(start: string, end: string, today: Date)
    requires ValidateDateRange(start, end, today) == Rejected(EndInFuture)
    ensures ParseDate(start).Some? && !After(ParseDate(start).value, today)
    ensures ParseDate(end).Some? && After(ParseDate(end).value, today)
  {
  }
}
