/** The safety screen of backend/services/custom_indicator_engine.py and the
    windowed series helpers it offers to formulas. Evaluating and compiling a
    formula is Python's business; both enter the model as parameters. */
module CustomIndicatorEngine {
  import opened Wrappers
  import opened Series
  import opened PyText

  // ------------------------------------------------------------ the screen

  /** The six dangerous patterns: `__\w+__`, `import\s`, and a call
      `name\s*\(` of exec, eval, open or compile. */
  datatype Pattern = Dunder | ImportKeyword | CallOf(name: string)

  /** The shared list, in the order both callers try it. */
  const DangerousPatterns: seq<Pattern> :=
    [Dunder, ImportKeyword, CallOf("exec"), CallOf("eval"), CallOf("open"), CallOf("compile")]

  predicate AllWordChars(s: string) {
    forall k :: 0 <= k < |s| ==> IsWordChar(s[k])
  }

  /** `__\w+__` matches s[i..j]. */
  predicate DunderSpan(s: string, i: nat, j: nat) {
    i + 5 <= j <= |s| && s[i..i + 2] == "__" && s[j - 2..j] == "__" && AllWordChars(s[i + 2..j - 2])
  }

  /** `import\s` matches at i. */
  predicate ImportAt(s: string, i: nat) {
    i + 7 <= |s| && s[i..i + 6] == "import" && IsSpace(s[i + 6])
  }

  /** `name\s*\(` matches s[i..j+1]: the name, blanks, then the parenthesis at j. */
  predicate CallSpan(s: string, name: string, i: nat, j: nat) {
    i + |name| <= j < |s| && s[i..i + |name|] == name
    && (forall k :: i + |name| <= k < j ==> IsSpace(s[k])) && s[j] == '('
  }

  /** `re.search(pattern, s)`: the pattern matches somewhere in s. */
  predicate Search(p: Pattern, s: string) {
    match p
    case Dunder => exists i, j :: 0 <= i < j <= |s| && DunderSpan(s, i, j)
    case ImportKeyword => exists i :: 0 <= i < |s| && ImportAt(s, i)
    case CallOf(name) => exists i, j :: 0 <= i <= j < |s| && CallSpan(s, name, i, j)
  }

  /** `re.search(pattern, formula, re.IGNORECASE)`. The patterns are written in
      lower case, so ignoring case is searching the lower-cased formula. */
  predicate Matches(p: Pattern, formula: string) {
    Search(p, Lower(formula))
  }

  /** The index of the first pattern of `ps` that matches, if any. */
  function FirstMatch(formula: string, ps: seq<Pattern>): (r: Option<nat>)
    ensures r.None? <==> forall k :: 0 <= k < |ps| ==> !Matches(ps[k], formula)
    ensures r.Some? ==> r.value < |ps| && Matches(ps[r.value], formula)
                        && forall k :: 0 <= k < r.value ==> !Matches(ps[k], formula)
  {
    if ps == [] then None
    else if Matches(ps[0], formula) then Some(0)
    else
      var rest := FirstMatch(formula, ps[1..]);
      assert forall k :: 1 <= k < |ps| ==> ps[k] == ps[1..][k - 1];
      if rest.None? then None else Some(rest.value + 1)
  }

  /** The screen shared by `validate_formula` and `_safe_eval`. */
  function Screen(formula: string): (r: Option<nat>)
    ensures r.None? <==> forall p :: p in DangerousPatterns ==> !Matches(p, formula)
    ensures r.Some? ==> r.value < |DangerousPatterns| && Matches(DangerousPatterns[r.value], formula)
  {
    FirstMatch(formula, DangerousPatterns)
  }

  /** What Python's `compile(formula, '<string>', 'eval')` does. */
  datatype CompileOutcome = Compiles | RaisesSyntaxError | RaisesOther

  datatype Reason = Accepted | Dangerous(pattern: Pattern) | SyntaxError | OtherError

  datatype Validation = Validation(valid: bool, reason: Reason)

  /** `validate_formula`: the screen first, then the compiler. */
  function ValidateFormula(formula: string, compile: string -> CompileOutcome): (v: Validation)
    ensures v.valid <==> Screen(formula).None? && compile(formula) == Compiles
    ensures Screen(formula).Some? ==> v == Validation(false, Dangerous(DangerousPatterns[Screen(formula).value]))
    ensures Screen(formula).None? && compile(formula) == RaisesSyntaxError ==> v == Validation(false, SyntaxError)
  {
    var hit := Screen(formula);
    if hit.Some? then Validation(false, Dangerous(DangerousPatterns[hit.value]))
    else
      match compile(formula)
      case Compiles => Validation(true, Accepted)
      case RaisesSyntaxError => Validation(false, SyntaxError)
      case RaisesOther => Validation(false, OtherError)
  }

  datatype EvalError = Forbidden(pattern: Pattern) | EvaluationFailed(message: string)

  /** `_safe_eval`: the screen, then the interpreter `evaluate`. */
  function SafeEval<V>(formula: string, evaluate: string -> Result<V, string>): (r: Result<V, EvalError>)
    ensures Screen(formula).Some? ==> r == Failure(Forbidden(DangerousPatterns[Screen(formula).value]))
    ensures Screen(formula).None? && evaluate(formula).Success? ==> r == Success(evaluate(formula).value)
    ensures Screen(formula).None? && evaluate(formula).Failure? ==> r == Failure(EvaluationFailed(evaluate(formula).error))
  {
    var hit := Screen(formula);
    if hit.Some? then Failure(Forbidden(DangerousPatterns[hit.value]))
    else
      match evaluate(formula)
      case Success(v) => Success(v)
      case Failure(m) => Failure(EvaluationFailed(m))
  }

  /** A formula the screen rejects is never handed to the interpreter: the
      outcome is the same whatever the interpreter would do. */
  lemma RejectedNeverEvaluated<V>(formula: string, e1: string -> Result<V, string>, e2: string -> Result<V, string>)
    requires exists p :: p in DangerousPatterns && Matches(p, formula)
    ensures SafeEval(formula, e1) == SafeEval(formula, e2)
    ensures SafeEval(formula, e1).Failure? && SafeEval(formula, e1).error.Forbidden?
  {
  }

  /** Both callers screen with the same list: a formula `validate_formula`
      calls valid is evaluated by `_safe_eval`, and one `_safe_eval` refuses
      is reported invalid for the same pattern. */
  lemma ScreensAgree<V>(formula: string, compile: string -> CompileOutcome, evaluate: string -> Result<V, string>)
    ensures ValidateFormula(formula, compile).valid ==> !(SafeEval(formula, evaluate).Failure? && SafeEval(formula, evaluate).error.Forbidden?)
    ensures SafeEval(formula, evaluate).Failure? && SafeEval(formula, evaluate).error.Forbidden? ==>
              ValidateFormula(formula, compile).reason == Dangerous(SafeEval(formula, evaluate).error.pattern)
  {
  }

  lemma {:induction false} LowerIdempotent(s: string)
    ensures Lower(Lower(s)) == Lower(s)
  {
    assert forall i :: 0 <= i < |s| ==> Lower(Lower(s))[i] == LowerChar(LowerChar(s[i]));
  }

  /** The screen ignores case: a formula and its lower-cased form get the
      same verdict. */
  lemma ScreenIgnoresCase(formula: string)
    ensures Screen(Lower(formula)) == Screen(formula)
  {
    LowerIdempotent(formula);
  }

  /** A pattern none of whose text occurs in the formula cannot match. */
  lemma {:induction false} AbsentCharNoMatch(p: Pattern, formula: string, c: char)
    requires forall i :: 0 <= i < |formula| ==> LowerChar(formula[i]) != c
    requires (p.Dunder? && c == '_') || (p.ImportKeyword? && c == 'i') || (p.CallOf? && c in p.name)
    ensures !Matches(p, formula)
  {
    var s := Lower(formula);
    assert forall i :: 0 <= i < |s| ==> s[i] != c;
    match p
    case Dunder =>
      forall i, j | 0 <= i < j <= |s| ensures !DunderSpan(s, i, j) {
        if i + 2 <= |s| { assert s[i..i + 2][0] == s[i]; }
      }
    case ImportKeyword =>
      forall i | 0 <= i < |s| ensures !ImportAt(s, i) {
        if i + 6 <= |s| { assert s[i..i + 6][0] == s[i]; }
      }
    case CallOf(name) =>
      var m :| 0 <= m < |name| && name[m] == c;
      forall i, j | 0 <= i <= j < |s| ensures !CallSpan(s, name, i, j) {
        if i + |name| <= |s| { assert s[i..i + |name|][m] == s[i + m]; }
      }
  }

  /** The shell-escape formula is refused by the `import\s` pattern. */
  lemma ImportFormulaRejected()
    ensures Screen("import os; os.system('ls')") == Some(1)
  {
    var f := "import os; os.system('ls')";
    AbsentCharNoMatch(Dunder, f, '_');
    var s := Lower(f);
    assert s[0..6] == "import" && IsSpace(s[6]);
    assert ImportAt(s, 0);
  }

  /** A plain indicator formula passes the screen. */
  lemma MovingAverageFormulaPasses()
    ensures Screen("SMA(CLOSE, 20)").None?
  {
    var f := "SMA(CLOSE, 20)";
    AbsentCharNoMatch(Dunder, f, '_');
    AbsentCharNoMatch(ImportKeyword, f, 'i');
    AbsentCharNoMatch(CallOf("exec"), f, 'x');
    AbsentCharNoMatch(CallOf("eval"), f, 'v');
    AbsentCharNoMatch(CallOf("open"), f, 'p');
    AbsentCharNoMatch(CallOf("compile"), f, 'p');
  }

  // ------------------------------------------------------- series helpers

  datatype HelperError = MisalignedSeries | InvalidWindow(window: int)

  /** Comparisons in which NaN takes part are false. */
  predicate Gt(x: Option<real>, y: Option<real>) { x.Some? && y.Some? && x.value > y.value }
  predicate Lt(x: Option<real>, y: Option<real>) { x.Some? && y.Some? && x.value < y.value }
  predicate Ge(x: Option<real>, y: Option<real>) { x.Some? && y.Some? && x.value >= y.value }
  predicate Le(x: Option<real>, y: Option<real>) { x.Some? && y.Some? && x.value <= y.value }

  /** `cross_up(a, b)` (and `cross`, whose lambda is identical):
      `(a > b) & (a.shift(1) <= b.shift(1))`. Series of different lengths
      cannot be compared. */
  function CrossUp(a: Column, b: Column): (r: Result<seq<bool>, HelperError>)
    ensures r.Failure? <==> |a| != |b|
    ensures r.Success? ==> |r.value| == |a|
  {
    if |a| != |b| then Failure(MisalignedSeries)
    else
      var pa, pb := Shift(a, 1), Shift(b, 1);
      Success(seq(|a|, t requires 0 <= t < |a| => Gt(a[t], b[t]) && Le(pa[t], pb[t])))
  }

  /** `cross_down(a, b)`: `(a < b) & (a.shift(1) >= b.shift(1))`. */
  function CrossDown(a: Column, b: Column): (r: Result<seq<bool>, HelperError>)
    ensures r.Failure? <==> |a| != |b|
    ensures r.Success? ==> |r.value| == |a|
  {
    if |a| != |b| then Failure(MisalignedSeries)
    else
      var pa, pb := Shift(a, 1), Shift(b, 1);
      Success(seq(|a|, t requires 0 <= t < |a| => Lt(a[t], b[t]) && Ge(pa[t], pb[t])))
  }

  /** a crosses above b at t exactly when it is above now and was not above
      one period earlier; never at the first period. */
  lemma CrossUpAt(a: Column, b: Column, t: nat)
    requires |a| == |b| && t < |a|
    ensures CrossUp(a, b).value[t] <==> t > 0 && Gt(a[t], b[t]) && Le(a[t - 1], b[t - 1])
  {
  }

  /** a crosses below b at t exactly when it is below now and was not below
      one period earlier; never at the first period. */
  lemma CrossDownAt(a: Column, b: Column, t: nat)
    requires |a| == |b| && t < |a|
    ensures CrossDown(a, b).value[t] <==> t > 0 && Lt(a[t], b[t]) && Ge(a[t - 1], b[t - 1])
  {
  }

  /** `ref(x, n)`: `x.shift(n)`. */
  function Ref(x: Column, n: int): (r: Column)
    ensures |r| == |x|
    ensures forall t :: 0 <= t < |x| ==> r[t] == (if 0 <= t - n < |x| then x[t - n] else None)
  {
    Shift(x, n)
  }

  /** The value n periods back, undefined before that. */
  lemma RefLooksBack(x: Column, n: nat, t: nat)
    requires t < |x|
    ensures n <= t ==> Ref(x, n)[t] == x[t - n]
    ensures t < n ==> Ref(x, n)[t] == None
  {
  }

  /** The rolling helpers of the formula language. */
  datatype WindowHelper = SumHelper | AvgHelper | MeanHelper | MaxHelper | MinHelper | SmaHelper

  function AggregateOf(h: WindowHelper): Aggregate {
    match h
    case SumHelper => SumOf
    case AvgHelper => MeanOf
    case MeanHelper => MeanOf
    case MaxHelper => MaxOf
    case MinHelper => MinOf
    case SmaHelper => MeanOf
  }

  /** `pd.Series(x).rolling(window=n).agg()`; a negative window is an error.
      pandas accepts a window of 0: every window is then empty, which sums
      to 0 and has no mean, maximum or minimum. */
  function RollingHelper(h: WindowHelper, x: Column, n: int): (r: Result<Column, HelperError>)
    ensures r.Failure? <==> n < 0
    ensures r.Success? ==> |r.value| == |x|
    ensures n == 0 ==> forall t :: 0 <= t < |x| ==> r.value[t] == (if h == SumHelper then Some(0.0) else None)
  {
    if n < 0 then Failure(InvalidWindow(n))
    else if n == 0 then Success(seq(|x|, t => if h == SumHelper then Some(0.0) else None))
    else Success(Rolling(x, n, AggregateOf(h)))
  }

  /** A rolling helper is undefined before n periods of history and wherever
      its window holds a NaN, and is otherwise the window's aggregate. */
  lemma RollingHelperAt(h: WindowHelper, x: Column, n: int, t: nat)
    requires n >= 1 && t < |x|
    ensures RollingHelper(h, x, n).value[t].Some? <==> n - 1 <= t && AllDefined(Window(x, t, n))
    ensures RollingHelper(h, x, n).value[t].Some? ==>
              RollingHelper(h, x, n).value[t].value == Apply(AggregateOf(h), Values(Window(x, t, n)))
  {
    RollingAt(x, n, AggregateOf(h), t);
  }
}
