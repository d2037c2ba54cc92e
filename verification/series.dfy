/** The pandas series primitives that the indicator calculator and the custom
    formula functions are built from. A series of floats that may hold NaN is a
    `seq<Option<real>>` (None is NaN); a NaN-free series is a `seq<real>`. */
module Series {
  import opened Wrappers

  /** A float series that may hold NaN. */
  type Column = seq<Option<real>>

  function Sum(s: seq<real>): real
  {
    if s == [] then 0.0 else Sum(s[..|s| - 1]) + s[|s| - 1]
  }

  lemma {:induction false} SumConcat(a: seq<real>, b: seq<real>)
    ensures Sum(a + b) == Sum(a) + Sum(b)
  {
    if b != [] {
      SumConcat(a, b[..|b| - 1]);
      assert (a + b)[..|a + b| - 1] == a + b[..|b| - 1];
    } else {
      assert a + b == a;
    }
  }

  /** The sum lies between |s|·lo and |s|·hi when every element does. */
  lemma {:induction false} SumBounds(s: seq<real>, lo: real, hi: real)
    requires forall i :: 0 <= i < |s| ==> lo <= s[i] <= hi
    ensures |s| as real * lo <= Sum(s) <= |s| as real * hi
  {
    if s != [] {
      var n := |s| - 1;
      SumBounds(s[..n], lo, hi);
      Distrib(lo, n as real, 1.0);
      Distrib(hi, n as real, 1.0);
      assert |s| as real * lo == n as real * lo + lo;
      assert |s| as real * hi == n as real * hi + hi;
    }
  }

  lemma {:induction false} SumNonneg(s: seq<real>)
    requires forall i :: 0 <= i < |s| ==> s[i] >= 0.0
    ensures Sum(s) >= 0.0
  {
    if s != [] {
      SumNonneg(s[..|s| - 1]);
    }
  }

  /** A sum of non-negative terms is zero only when every term is. */
  lemma {:induction false} SumZeroAllZero(s: seq<real>)
    requires forall i :: 0 <= i < |s| ==> s[i] >= 0.0
    requires Sum(s) == 0.0
    ensures forall i :: 0 <= i < |s| ==> s[i] == 0.0
  {
    if s != [] {
      var n := |s| - 1;
      SumNonneg(s[..n]);
      SumZeroAllZero(s[..n]);
      assert forall i :: 0 <= i < n ==> s[i] == s[..n][i];
    }
  }

  /** Element-wise product, as `a * b` on two aligned series. */
  function Products(a: seq<real>, b: seq<real>): (r: seq<real>)
    requires |a| == |b|
    ensures |r| == |a| && forall i :: 0 <= i < |a| ==> r[i] == a[i] * b[i]
  {
    seq(|a|, i requires 0 <= i < |a| => a[i] * b[i])
  }

  /** The weighted sum of `p` by `w`, accumulated from the front. */
  function Dot(p: seq<real>, w: seq<real>): real
    requires |p| == |w|
  {
    if p == [] then 0.0 else Dot(p[..|p| - 1], w[..|w| - 1]) + p[|p| - 1] * w[|w| - 1]
  }

  lemma {:induction false} SumProductsIsDot(p: seq<real>, w: seq<real>)
    requires |p| == |w|
    ensures Sum(Products(p, w)) == Dot(p, w)
  {
    if p != [] {
      var n := |p| - 1;
      SumProductsIsDot(p[..n], w[..n]);
      assert Products(p, w)[..n] == Products(p[..n], w[..n]) by {
        assert forall i :: 0 <= i < n ==> Products(p, w)[..n][i] == Products(p[..n], w[..n])[i];
      }
    }
  }

  lemma {:induction false} DotLower(p: seq<real>, w: seq<real>, lo: real)
    requires |p| == |w|
    requires forall i :: 0 <= i < |p| ==> w[i] >= 0.0 && lo <= p[i]
    ensures lo * Sum(w) <= Dot(p, w)
  {
    if p != [] {
      var n := |p| - 1;
      DotLower(p[..n], w[..n], lo);
      var head := Sum(w[..n]);
      var last := w[n];
      assert Sum(w) == head + last;
      MulLe(lo, p[n], last);
      Distrib(lo, head, last);
    }
  }

  lemma {:induction false} DotUpper(p: seq<real>, w: seq<real>, hi: real)
    requires |p| == |w|
    requires forall i :: 0 <= i < |p| ==> w[i] >= 0.0 && p[i] <= hi
    ensures Dot(p, w) <= hi * Sum(w)
  {
    if p != [] {
      var n := |p| - 1;
      DotUpper(p[..n], w[..n], hi);
      var head := Sum(w[..n]);
      var last := w[n];
      assert Sum(w) == head + last;
      MulLe(p[n], hi, last);
      Distrib(hi, head, last);
    }
  }

  /** With non-negative weights, the weighted sum of values in [lo, hi] lies
      between lo and hi times the total weight. */
  lemma WeightedSumBounds(p: seq<real>, w: seq<real>, lo: real, hi: real)
    requires |p| == |w|
    requires forall i :: 0 <= i < |p| ==> w[i] >= 0.0 && lo <= p[i] <= hi
    ensures lo * Sum(w) <= Sum(Products(p, w)) <= hi * Sum(w)
  {
    SumProductsIsDot(p, w);
    DotLower(p, w, lo);
    DotUpper(p, w, hi);
  }

  /** A weighted mean with non-negative weights of values in [lo, hi] lies
      in [lo, hi]. */
  lemma {:induction false} WeightedMeanBounds(p: seq<real>, w: seq<real>, lo: real, hi: real)
    requires |p| == |w| && Sum(w) != 0.0
    requires forall i :: 0 <= i < |w| ==> w[i] >= 0.0 && lo <= p[i] <= hi
    ensures lo <= Sum(Products(p, w)) / Sum(w) <= hi
  {
    WeightedSumBounds(p, w, lo, hi);
    SumNonneg(w);
    QuotientBounds(Sum(Products(p, w)), Sum(w), lo, hi);
  }

  lemma Distrib(k: real, a: real, b: real)
    ensures k * (a + b) == k * a + k * b
  {
  }

  lemma MulLe(a: real, b: real, w: real)
    requires a <= b && w >= 0.0
    ensures a * w <= b * w
  {
    MulNonneg(b - a, w);
    assert (b - a) * w == b * w - a * w;
  }

  /** Dividing by a positive total keeps bounds that hold for the multiples. */
  lemma QuotientBounds(a: real, b: real, lo: real, hi: real)
    requires b > 0.0 && lo * b <= a <= hi * b
    ensures lo <= a / b <= hi
  {
    assert (a / b) * b == a;
  }

  function Mean(s: seq<real>): real
    requires |s| > 0
  {
    Sum(s) / |s| as real
  }

  /** The largest element; pandas' `max` over a NaN-free window. */
  function Max(s: seq<real>): (m: real)
    requires |s| > 0
    ensures m in s
    ensures forall i :: 0 <= i < |s| ==> s[i] <= m
  {
    if |s| == 1 then s[0]
    else
      var m' := Max(s[..|s| - 1]);
      assert forall i :: 0 <= i < |s| - 1 ==> s[..|s| - 1][i] == s[i];
      if s[|s| - 1] > m' then s[|s| - 1] else m'
  }

  /** The smallest element; pandas' `min` over a NaN-free window. */
  function Min(s: seq<real>): (m: real)
    requires |s| > 0
    ensures m in s
    ensures forall i :: 0 <= i < |s| ==> m <= s[i]
  {
    if |s| == 1 then s[0]
    else
      var m' := Min(s[..|s| - 1]);
      assert forall i :: 0 <= i < |s| - 1 ==> s[..|s| - 1][i] == s[i];
      if s[|s| - 1] < m' then s[|s| - 1] else m'
  }

  predicate AllDefined(w: seq<Option<real>>) {
    forall i :: 0 <= i < |w| ==> w[i].Some?
  }

  function Values(w: seq<Option<real>>): (v: seq<real>)
    requires AllDefined(w)
    ensures |v| == |w| && forall i :: 0 <= i < |w| ==> w[i] == Some(v[i])
  {
    seq(|w|, i requires 0 <= i < |w| => w[i].value)
  }

  /** A NaN-free column seen as a float series. */
  function Lift(x: seq<real>): (r: seq<Option<real>>)
    ensures |r| == |x| && AllDefined(r) && Values(r) == x
  {
    seq(|x|, i requires 0 <= i < |x| => Some(x[i]))
  }

  lemma LiftSlice(x: seq<real>, i: nat, j: nat)
    requires i <= j <= |x|
    ensures Lift(x)[i..j] == Lift(x[i..j])
  {
  }

  datatype Aggregate = SumOf | MeanOf | MaxOf | MinOf

  function Apply(agg: Aggregate, w: seq<real>): real
    requires |w| > 0
  {
    match agg
    case SumOf => Sum(w)
    case MeanOf => Mean(w)
    case MaxOf => Max(w)
    case MinOf => Min(w)
  }

  /** The window of n periods that ends at period t. */
  function Window<T>(x: seq<T>, t: nat, n: nat): (w: seq<T>)
    requires 1 <= n <= t + 1 <= |x|
    ensures |w| == n
  {
    x[t + 1 - n..t + 1]
  }

  /** `x.rolling(window=n).agg()` with pandas' default `min_periods = n`: the
      value at t needs n periods of history and no NaN inside the window. */
  function Rolling(x: seq<Option<real>>, n: nat, agg: Aggregate): (r: seq<Option<real>>)
    requires n >= 1
    ensures |r| == |x|
  {
    seq(|x|, t requires 0 <= t < |x| =>
      if t + 1 < n then None
      else if AllDefined(Window(x, t, n)) then Some(Apply(agg, Values(Window(x, t, n))))
      else None)
  }

  /** The rolling value is defined exactly from period n-1 on, where the whole
      window is defined, and is then the aggregate of that window. */
  lemma RollingAt(x: seq<Option<real>>, n: nat, agg: Aggregate, t: nat)
    requires n >= 1 && t < |x|
    ensures Rolling(x, n, agg)[t].Some? <==> n - 1 <= t && AllDefined(Window(x, t, n))
    ensures Rolling(x, n, agg)[t].Some? ==>
              Rolling(x, n, agg)[t].value == Apply(agg, Values(Window(x, t, n)))
  {
  }

  /** On a NaN-free column the rolling aggregate is defined from period n-1 on. */
  lemma RollingLifted(x: seq<real>, n: nat, agg: Aggregate, t: nat)
    requires n >= 1 && t < |x|
    ensures t < n - 1 ==> Rolling(Lift(x), n, agg)[t] == None
    ensures n - 1 <= t ==> Rolling(Lift(x), n, agg)[t] == Some(Apply(agg, Window(x, t, n)))
  {
    if n - 1 <= t {
      LiftSlice(x, t + 1 - n, t + 1);
      assert Window(Lift(x), t, n) == Lift(Window(x, t, n));
    }
  }

  /** The rolling sum slides: the next window's sum adds the new value and
      drops the oldest one, which is how pandas maintains it. */
  lemma {:induction false} RollingSumSlides(x: seq<real>, n: nat, t: nat)
    requires n >= 1 && n <= t < |x|
    ensures Sum(Window(x, t, n)) == Sum(Window(x, t - 1, n)) + x[t] - x[t - n]
  {
    var mid := x[t + 1 - n..t];
    assert Window(x, t, n) == mid + [x[t]];
    assert Window(x, t - 1, n) == [x[t - n]] + mid;
    SumConcat(mid, [x[t]]);
    SumConcat([x[t - n]], mid);
    assert Sum([x[t]]) == x[t] by { assert [x[t]][..0] == []; }
    assert Sum([x[t - n]]) == x[t - n] by { assert [x[t - n]][..0] == []; }
  }

  /** The smoothing factor `ewm(span=s)` uses. */
  function SpanAlpha(span: int): (a: real)
    requires span >= 1
    ensures 0.0 < a <= 1.0
  {
    2.0 / (span as real + 1.0)
  }

  /** `ewm(alpha, adjust=False).mean()` at period t on a NaN-free series:
      e[0] = x[0], e[t] = alpha·x[t] + (1 - alpha)·e[t-1]. */
  function EwmAt(x: seq<real>, alpha: real, t: nat): real
    requires t < |x|
  {
    if t == 0 then x[0] else alpha * x[t] + (1.0 - alpha) * EwmAt(x, alpha, t - 1)
  }

  function Ewm(x: seq<real>, alpha: real): (e: seq<real>)
    ensures |e| == |x|
  {
    seq(|x|, t requires 0 <= t < |x| => EwmAt(x, alpha, t))
  }

  /** With 0 ≤ alpha ≤ 1 each smoothed value is a convex combination of the
      inputs so far, so it stays within any bounds the inputs keep. */
  lemma {:induction false} EwmAtBounded(x: seq<real>, alpha: real, lo: real, hi: real, t: nat)
    requires 0.0 <= alpha <= 1.0 && t < |x|
    requires forall i :: 0 <= i <= t ==> lo <= x[i] <= hi
    ensures lo <= EwmAt(x, alpha, t) <= hi
  {
    if t > 0 {
      EwmAtBounded(x, alpha, lo, hi, t - 1);
      Convex(alpha, x[t], EwmAt(x, alpha, t - 1), lo, hi);
    }
  }

  lemma MulNonneg(p: real, q: real)
    requires 0.0 <= p && 0.0 <= q
    ensures 0.0 <= p * q
  {
  }

  /** The quotient a / b is the one number whose product with b is a. */
  lemma DivUnique(a: real, b: real, q: real)
    requires b != 0.0 && q * b == a
    ensures q == a / b
  {
    assert (a / b) * b == a;
    assert (q - a / b) * b == 0.0;
  }

  function Square(x: real): (r: real)
    ensures r >= 0.0
  {
    if x >= 0.0 then x * x else (-x) * (-x)
  }

  /** A convex combination of two values in [lo, hi] stays in [lo, hi]. */
  lemma Convex(alpha: real, a: real, b: real, lo: real, hi: real)
    requires 0.0 <= alpha <= 1.0 && lo <= a <= hi && lo <= b <= hi
    ensures lo <= alpha * a + (1.0 - alpha) * b <= hi
  {
    MulNonneg(alpha, a - lo);
    MulNonneg(1.0 - alpha, b - lo);
    MulNonneg(alpha, hi - a);
    MulNonneg(1.0 - alpha, hi - b);
    assert alpha * a + (1.0 - alpha) * b - lo == alpha * (a - lo) + (1.0 - alpha) * (b - lo);
    assert hi - (alpha * a + (1.0 - alpha) * b) == alpha * (hi - a) + (1.0 - alpha) * (hi - b);
  }

  lemma EwmBounded(x: seq<real>, alpha: real, lo: real, hi: real)
    requires 0.0 <= alpha <= 1.0
    requires forall i :: 0 <= i < |x| ==> lo <= x[i] <= hi
    ensures forall t :: 0 <= t < |x| ==> lo <= Ewm(x, alpha)[t] <= hi
  {
    forall t | 0 <= t < |x| ensures lo <= Ewm(x, alpha)[t] <= hi {
      EwmAtBounded(x, alpha, lo, hi, t);
    }
  }

  function Nones(n: nat): (r: seq<Option<real>>)
    ensures |r| == n && forall i :: 0 <= i < n ==> r[i] == None
  {
    seq(n, _ => None)
  }

  /** `shift(n)`: the value n periods earlier (later when n < 0), NaN where
      that period does not exist. */
  function Shift(x: seq<Option<real>>, n: int): (r: seq<Option<real>>)
    ensures |r| == |x|
    ensures 0 <= n <= |x| ==> r == Nones(n) + x[..|x| - n]
    ensures -|x| <= n < 0 ==> r == x[-n..] + Nones(-n)
    ensures (n > |x| || n < -|x|) ==> r == Nones(|x|)
  {
    seq(|x|, t requires 0 <= t < |x| => if 0 <= t - n < |x| then x[t - n] else None)
  }
}
