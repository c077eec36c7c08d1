/**
 `importance` of `eval/synth/tuning.py`: each parameter's squared rank correlation with the validation
 loss over the first rung. The square is formed directly, so no square root is needed.
 */
module Importance {
  import opened Halving
  import opened Ranks
  import opened Sums
  import opened Wrappers

  function Total(a: seq<real>): real {
    if a == [] then 0.0 else Total(a[..|a| - 1]) + a[|a| - 1]
  }

  function Centred(a: seq<real>): (c: seq<real>)
    requires a != []
    ensures |c| == |a|
  {
    var mean := Total(a) / |a| as real;
    seq(|a|, i requires 0 <= i < |a| => a[i] - mean)
  }

  function Dot(x: seq<real>, y: seq<real>): real
    requires |x| == |y|
  {
    if x == [] then 0.0 else Dot(x[..|x| - 1], y[..|y| - 1]) + Times(x[|x| - 1], y[|y| - 1])
  }

  /** `rho * rho` with `rho` as `_pearson` answers it: 0 unless both lists vary. */
  function RhoSquared(a: seq<real>, b: seq<real>): real
    requires |a| == |b| && a != []
  {
    var x, y := Centred(a), Centred(b);
    Squared(Dot(x, y), Dot(x, x), Dot(y, y))
  }

  function Squared(xy: real, xx: real, yy: real): real {
    if xx > 0.0 && yy > 0.0 then xy * xy / (xx * yy) else 0.0
  }

  /** The lists' own sums tell the centred ones. */
  lemma {:induction false} DotShifted(a: seq<real>, b: seq<real>, x: seq<real>, y: seq<real>, m: real, k: real)
    requires |a| == |b| == |x| == |y|
    requires forall i :: 0 <= i < |a| ==> x[i] == a[i] - m && y[i] == b[i] - k
    ensures Dot(x, y) == Dot(a, b) - Times(m, Total(b)) - Times(k, Total(a)) + Times(|a| as real, Times(m, k))
  {
    hide Times;
    if a == [] {
      TimesZero(m);
      TimesZero(k);
      NoTimes(Times(m, k));
    } else {
      var n := |a| - 1;
      DotShifted(a[..n], b[..n], x[..n], y[..n], m, k);
      ShiftTerms(a[n], b[n], m, k, Total(a[..n]), Total(b[..n]), n as real);
    }
  }

  lemma NoTimes(x: real)
    ensures Times(0.0, x) == 0.0
  {
  }

  lemma ShiftTerms(a: real, b: real, m: real, k: real, sa: real, sb: real, n: real)
    ensures Times(a - m, b - k) == Times(a, b) - Times(m, b) - Times(k, a) + Times(m, k)
    ensures Times(m, sb + b) == Times(m, sb) + Times(m, b) && Times(k, sa + a) == Times(k, sa) + Times(k, a)
    ensures Times(n + 1.0, Times(m, k)) == Times(n, Times(m, k)) + Times(m, k)
  {
  }

  /** `n` times the sum of products, less the product of the sums. */
  function Spread(a: seq<real>, b: seq<real>): real
    requires |a| == |b|
  {
    |a| as real * Dot(a, b) - Total(a) * Total(b)
  }

  lemma CentredSpread(a: seq<real>, b: seq<real>)
    requires |a| == |b| && a != []
    ensures |a| as real * Dot(Centred(a), Centred(b)) == Spread(a, b)
  {
    hide Dot, Total, Centred, Times;
    var m := MeanOf(a);
    var k := MeanOf(b);
    DotShifted(a, b, Centred(a), Centred(b), m, k);
    SpreadTerms(|a| as real, m, k, Dot(a, b), Total(a), Total(b), Dot(Centred(a), Centred(b)));
  }

  lemma MeanOf(a: seq<real>) returns (mean: real)
    requires a != []
    ensures mean * |a| as real == Total(a)
    ensures forall i :: 0 <= i < |a| ==> Centred(a)[i] == a[i] - mean
  {
    mean := Total(a) / |a| as real;
  }

  lemma SpreadTerms(n: real, m: real, k: real, ab: real, a: real, b: real, xy: real)
    requires m * n == a && k * n == b && xy == ab - Times(m, b) - Times(k, a) + Times(n, Times(m, k))
    ensures n * xy == n * ab - a * b
  {
    assert n * (m * b) == a * b && n * (k * a) == b * a;
    assert n * (n * (m * k)) == (m * n) * (k * n);
  }

  /** The squared correlation told from the lists' own sums: over the product of the two spreads it is the square
      of the joint one, and it is 0 unless both lists vary. */
  lemma RhoTells(a: seq<real>, b: seq<real>)
    requires |a| == |b| && a != []
    ensures Spread(a, a) > 0.0 && Spread(b, b) > 0.0 ==>
              RhoSquared(a, b) * (Spread(a, a) * Spread(b, b)) == Spread(a, b) * Spread(a, b)
    ensures !(Spread(a, a) > 0.0 && Spread(b, b) > 0.0) ==> RhoSquared(a, b) == 0.0
  {
    hide Dot, Centred, Spread;
    CentredSpread(a, b);
    CentredSpread(a, a);
    CentredSpread(b, b);
    var x, y := Centred(a), Centred(b);
    SquaredScaled(|a| as real, Dot(x, y), Dot(x, x), Dot(y, y), Spread(a, b), Spread(a, a), Spread(b, b));
  }

  lemma SquaredScaled(n: real, xy: real, xx: real, yy: real, ab: real, aa: real, bb: real)
    requires n > 0.0 && n * xy == ab && n * xx == aa && n * yy == bb
    ensures aa > 0.0 && bb > 0.0 ==> Squared(xy, xx, yy) * (aa * bb) == ab * ab
    ensures !(aa > 0.0 && bb > 0.0) ==> Squared(xy, xx, yy) == 0.0
  {
    SameSide(n, xx, aa);
    SameSide(n, yy, bb);
    if aa > 0.0 && bb > 0.0 {
      CancelSquares(xy, xx, yy);
      assert aa * bb == (n * n) * (xx * yy) && ab * ab == (n * n) * (xy * xy);
      var r := Squared(xy, xx, yy);
      assert r * ((n * n) * (xx * yy)) == (n * n) * (r * (xx * yy));
    }
  }

  lemma SameSide(n: real, x: real, a: real)
    requires n > 0.0 && n * x == a
    ensures x > 0.0 <==> a > 0.0
  {
  }

  lemma CancelSquares(xy: real, xx: real, yy: real)
    requires xx > 0.0 && yy > 0.0
    ensures Squared(xy, xx, yy) * (xx * yy) == xy * xy
  {
    var p := xx * yy;
    assert p > 0.0;
    assert (xy * xy / p) * p == xy * xy;
  }

  // ---------- Cauchy and Schwarz ----------

  /** The sum of the squares of `l * x[i] + m * y[i]`, expanded. */
  function Quadratic(l: real, m: real, xx: real, xy: real, yy: real): real {
    l * l * xx + 2.0 * l * m * xy + m * m * yy
  }

  lemma {:induction false} SquareSum(l: real, m: real, x: seq<real>, y: seq<real>)
    requires |x| == |y|
    ensures Quadratic(l, m, Dot(x, x), Dot(x, y), Dot(y, y)) >= 0.0
  {
    if x != [] {
      hide Quadratic, Times;
      var a, b := x[|x| - 1], y[|y| - 1];
      var x0, y0 := x[..|x| - 1], y[..|y| - 1];
      SquareSum(l, m, x0, y0);
      Expand(l, m, a, b, Dot(x0, x0), Dot(x0, y0), Dot(y0, y0));
    }
  }

  lemma Expand(l: real, m: real, a: real, b: real, xx: real, xy: real, yy: real)
    ensures Quadratic(l, m, xx + Times(a, a), xy + Times(a, b), yy + Times(b, b)) >= Quadratic(l, m, xx, xy, yy)
  {
    var s := l * a + m * b;
    assert s * s == l * l * (a * a) + 2.0 * l * m * (a * b) + m * m * (b * b);
    assert s * s >= 0.0;
  }

  lemma CauchySchwarz(x: seq<real>, y: seq<real>)
    requires |x| == |y|
    ensures Dot(x, y) * Dot(x, y) <= Dot(x, x) * Dot(y, y)
  {
    hide Dot, Quadratic;
    var xx, xy, yy := Dot(x, x), Dot(x, y), Dot(y, y);
    SquareSum(-xy, xx, x, y);
    SquareSum(yy, -xy, x, y);
    SquareSum(1.0, 0.0, x, y);
    SquareSum(0.0, 1.0, x, y);
    SquareSum(1.0, 1.0, x, y);
    SquareSum(1.0, -1.0, x, y);
    Discriminant(xx, xy, yy);
  }

  lemma Discriminant(xx: real, xy: real, yy: real)
    requires Quadratic(-xy, xx, xx, xy, yy) >= 0.0 && Quadratic(yy, -xy, xx, xy, yy) >= 0.0
    requires Quadratic(1.0, 0.0, xx, xy, yy) >= 0.0 && Quadratic(0.0, 1.0, xx, xy, yy) >= 0.0
    requires Quadratic(1.0, 1.0, xx, xy, yy) >= 0.0 && Quadratic(1.0, -1.0, xx, xy, yy) >= 0.0
    ensures xy * xy <= xx * yy
  {
    if xx > 0.0 {
      FirstVaries(xx, xy, yy);
    } else if yy > 0.0 {
      SecondVaries(xx, xy, yy);
    } else {
      assert Quadratic(1.0, 0.0, xx, xy, yy) == xx && Quadratic(0.0, 1.0, xx, xy, yy) == yy;
      assert Quadratic(1.0, 1.0, xx, xy, yy) == 2.0 * xy && Quadratic(1.0, -1.0, xx, xy, yy) == -2.0 * xy;
    }
  }

  lemma FirstVaries(xx: real, xy: real, yy: real)
    requires xx > 0.0 && Quadratic(-xy, xx, xx, xy, yy) >= 0.0
    ensures xy * xy <= xx * yy
  {
    assert Quadratic(-xy, xx, xx, xy, yy) == xx * (xx * yy - xy * xy);
  }

  lemma SecondVaries(xx: real, xy: real, yy: real)
    requires yy > 0.0 && Quadratic(yy, -xy, xx, xy, yy) >= 0.0
    ensures xy * xy <= xx * yy
  {
    assert Quadratic(yy, -xy, xx, xy, yy) == yy * (xx * yy - xy * xy);
  }

  lemma RhoSquaredBounds(a: seq<real>, b: seq<real>)
    requires |a| == |b| && a != []
    ensures 0.0 <= RhoSquared(a, b) <= 1.0
  {
    var x, y := Centred(a), Centred(b);
    var xx, xy, yy := Dot(x, x), Dot(x, y), Dot(y, y);
    if xx > 0.0 && yy > 0.0 {
      CauchySchwarz(x, y);
      SquaredBounds(xy, xx, yy);
    }
  }

  lemma SquaredBounds(xy: real, xx: real, yy: real)
    requires xx > 0.0 && yy > 0.0 && xy * xy <= xx * yy
    ensures 0.0 <= Squared(xy, xx, yy) <= 1.0
  {
    assert xx * yy > 0.0 && xy * xy >= 0.0;
    Quotient(xy * xy, xx * yy);
  }

  lemma Quotient(part: real, whole: real)
    requires 0.0 <= part <= whole && whole > 0.0
    ensures 0.0 <= part / whole <= 1.0
  {
  }

  // ---------- when it is 0 and when it is 1 ----------

  ghost predicate Constant(a: seq<real>) {
    forall i, j :: 0 <= i < |a| && 0 <= j < |a| ==> a[i] == a[j]
  }

  lemma SameSign(a: real, b: real)
    requires (a > 0.0 && b > 0.0) || (a < 0.0 && b < 0.0)
    ensures Times(a, b) > 0.0
  {
  }

  lemma SquarePositive(a: real)
    requires a != 0.0
    ensures Times(a, a) > 0.0
  {
    hide Times;
    SameSign(a, a);
  }

  lemma NoSquare(a: real)
    requires a == 0.0
    ensures Times(a, a) == 0.0
  {
  }

  ghost predicate Zero(x: seq<real>) {
    forall i :: 0 <= i < |x| ==> x[i] == 0.0
  }

  lemma {:induction false} SquaresVanish(x: seq<real>)
    ensures Dot(x, x) >= 0.0
    ensures Dot(x, x) <= 0.0 <==> Zero(x)
  {
    hide Times;
    if x != [] {
      var rest, a := x[..|x| - 1], x[|x| - 1];
      SquaresVanish(rest);
      assert x[|rest|] == a && forall i :: 0 <= i < |rest| ==> rest[i] == x[i];
      assert Zero(x) <==> Zero(rest) && a == 0.0;
      if a == 0.0 {
        NoSquare(a);
      } else {
        SquarePositive(a);
      }
    }
  }

  lemma {:induction false} TotalOfConstant(a: seq<real>, v: real)
    requires forall i :: 0 <= i < |a| ==> a[i] == v
    ensures Total(a) == |a| as real * v
  {
    if a != [] {
      TotalOfConstant(a[..|a| - 1], v);
    }
  }

  lemma Cancel(n: real, v: real, total: real)
    requires n > 0.0 && total == n * v
    ensures total / n == v
  {
    assert (total / n) * n == n * v;
  }

  lemma SpreadPositive(a: seq<real>)
    requires a != []
    ensures Dot(Centred(a), Centred(a)) > 0.0 <==> !Constant(a)
  {
    var c := Centred(a);
    SquaresVanish(c);
    if Constant(a) {
      var v := a[0];
      TotalOfConstant(a, v);
      Cancel(|a| as real, v, Total(a));
    } else {
      var i, j :| 0 <= i < |a| && 0 <= j < |a| && a[i] != a[j];
      assert c[i] != c[j];
    }
  }

  lemma {:induction false} DotScaled(x: seq<real>, y: seq<real>, s: real)
    requires |x| == |y| && forall i :: 0 <= i < |x| ==> y[i] == s * x[i]
    ensures Scaled(s, Dot(x, x), Dot(x, y), Dot(y, y))
  {
    hide Times, Scaled;
    if x != [] {
      var x0, y0, a := x[..|x| - 1], y[..|y| - 1], x[|x| - 1];
      DotScaled(x0, y0, s);
      ScaledTerm(s, Dot(x0, x0), Dot(x0, y0), Dot(y0, y0), a, y[|y| - 1]);
    } else {
      NothingScaled(s);
    }
  }

  predicate Scaled(s: real, xx: real, xy: real, yy: real) {
    xy == s * xx && yy == s * s * xx
  }

  lemma NothingScaled(s: real)
    ensures Scaled(s, 0.0, 0.0, 0.0)
  {
  }

  lemma ScaledTerm(s: real, xx: real, xy: real, yy: real, a: real, b: real)
    requires Scaled(s, xx, xy, yy) && b == s * a
    ensures Scaled(s, xx + Times(a, a), xy + Times(a, b), yy + Times(b, b))
  {
    assert a * b == s * (a * a);
    assert b * b == s * s * (a * a);
  }

  lemma {:induction false} TotalAffine(a: seq<real>, b: seq<real>, s: real, o: real)
    requires |a| == |b| && forall i :: 0 <= i < |a| ==> b[i] == s * a[i] + o
    ensures Total(b) == s * Total(a) + |a| as real * o
  {
    if a != [] {
      var n := |a| - 1;
      TotalAffine(a[..n], b[..n], s, o);
      OneTermMore(Total(a[..n]), Total(b[..n]), n as real, a[n], s, o);
    }
  }

  lemma OneTermMore(ta: real, tb: real, n: real, v: real, s: real, o: real)
    requires tb == s * ta + n * o
    ensures tb + (s * v + o) == s * (ta + v) + (n + 1.0) * o
  {
  }

  /** Lists that are one another up to shift and sign correlate fully, as long as they vary. */
  lemma Aligned(a: seq<real>, b: seq<real>, s: real, o: real)
    requires |a| == |b| && a != [] && !Constant(a) && (s == 1.0 || s == -1.0)
    requires forall i :: 0 <= i < |a| ==> b[i] == s * a[i] + o
    ensures RhoSquared(a, b) == 1.0
  {
    hide Centred, Total, Constant;
    var x, y := Centred(a), Centred(b);
    CentredAligned(a, b, s, o);
    DotScaled(x, y, s);
    SpreadPositive(a);
    Full(Dot(x, x), Dot(x, y), Dot(y, y), s);
  }

  lemma Full(xx: real, xy: real, yy: real, s: real)
    requires xx > 0.0 && (s == 1.0 || s == -1.0) && Scaled(s, xx, xy, yy)
    ensures Squared(xy, xx, yy) == 1.0
  {
    assert yy == xx;
    var whole := xx * xx;
    assert xy * xy == whole && xx * yy == whole && whole > 0.0;
    assert whole / whole == 1.0;
  }

  lemma CentredAligned(a: seq<real>, b: seq<real>, s: real, o: real)
    requires |a| == |b| && a != [] && forall i :: 0 <= i < |a| ==> b[i] == s * a[i] + o
    ensures forall i :: 0 <= i < |a| ==> Centred(b)[i] == s * Centred(a)[i]
  {
    hide Total;
    TotalAffine(a, b, s, o);
    var n := |a| as real;
    Mean(Total(a), Total(b), n, s, o);
    forall i | 0 <= i < |a|
      ensures Centred(b)[i] == s * Centred(a)[i]
    {
      Shift(a[i], Total(a) / n, s, o);
    }
  }

  lemma Mean(ta: real, tb: real, n: real, s: real, o: real)
    requires n > 0.0 && tb == s * ta + n * o
    ensures tb / n == s * (ta / n) + o
  {
    assert (s * (ta / n) + o) * n == s * ta + n * o;
  }

  lemma Shift(v: real, m: real, s: real, o: real)
    ensures (s * v + o) - (s * m + o) == s * (v - m)
  {
  }

  // ---------- importance ----------

  ghost function RanksOf(values: seq<real>): (ranks: seq<real>)
    ensures |ranks| == |values|
  {
    seq(|values|, i requires 0 <= i < |values| => Rank(values, values[i]))
  }

  /** Spearman's rho squared. */
  ghost function Spearman(a: seq<real>, b: seq<real>): real
    requires |a| == |b| && a != []
  {
    RhoSquared(RanksOf(a), RanksOf(b))
  }

  ghost predicate SameOrder(a: seq<real>, b: seq<real>) {
    && |a| == |b|
    && forall i, j :: 0 <= i < |a| && 0 <= j < |a| ==> (a[i] < a[j] <==> b[i] < b[j])
  }

  ghost predicate OppositeOrder(a: seq<real>, b: seq<real>) {
    && |a| == |b|
    && forall i, j :: 0 <= i < |a| && 0 <= j < |a| ==> (a[i] < a[j] <==> b[i] > b[j])
  }

  lemma RanksVary(a: seq<real>)
    ensures Constant(RanksOf(a)) <==> Constant(a)
  {
    forall i, j | 0 <= i < |a| && 0 <= j < |a|
      ensures RanksOf(a)[i] == RanksOf(a)[j] <==> a[i] == a[j]
    {
      RanksKeepOrder(a, i, j);
      RanksKeepOrder(a, j, i);
    }
  }

  lemma Mirrored(a: seq<real>, b: seq<real>, i: nat)
    requires OppositeOrder(a, b) && i < |a|
    ensures Rank(b, b[i]) == (|a| - 1) as real - Rank(a, a[i])
  {
    assert BelowAt(b, b[i]) == AboveAt(a, a[i]);
    assert SameAt(b, b[i]) == SameAt(a, a[i]);
    Trichotomy(a, a[i]);
  }

  /** Importance lies between 0 and 1; it is 0 for a parameter or a loss that does not vary, and 1 for a
      parameter that orders the trials as their loss does, or in reverse. */
  lemma SpearmanMeaning(a: seq<real>, b: seq<real>)
    requires |a| == |b| && a != []
    ensures 0.0 <= Spearman(a, b) <= 1.0
    ensures Constant(a) || Constant(b) ==> Spearman(a, b) == 0.0
    ensures !Constant(a) && (SameOrder(a, b) || OppositeOrder(a, b)) ==> Spearman(a, b) == 1.0
  {
    var x, y := RanksOf(a), RanksOf(b);
    RhoSquaredBounds(x, y);
    RanksVary(a);
    RanksVary(b);
    SpreadPositive(x);
    SpreadPositive(y);
    if !Constant(a) && SameOrder(a, b) {
      FullySame(a, b);
    } else if !Constant(a) && OppositeOrder(a, b) {
      FullyOpposite(a, b);
    }
  }

  lemma FullySame(a: seq<real>, b: seq<real>)
    requires a != [] && !Constant(a) && SameOrder(a, b)
    ensures Spearman(a, b) == 1.0
  {
    hide RhoSquared, Rank;
    var x, y := RanksOf(a), RanksOf(b);
    RanksVary(a);
    forall i | 0 <= i < |a|
      ensures y[i] == 1.0 * x[i] + 0.0
    {
      RanksSeeOrderOnly(a, b, i);
    }
    Aligned(x, y, 1.0, 0.0);
  }

  lemma FullyOpposite(a: seq<real>, b: seq<real>)
    requires a != [] && !Constant(a) && OppositeOrder(a, b)
    ensures Spearman(a, b) == 1.0
  {
    hide RhoSquared, Rank;
    var x, y := RanksOf(a), RanksOf(b);
    RanksVary(a);
    forall i | 0 <= i < |a|
      ensures y[i] == -1.0 * x[i] + (|a| - 1) as real
    {
      Mirrored(a, b, i);
    }
    Aligned(x, y, -1.0, (|a| - 1) as real);
  }

  /** The finished trials of the first rung. */
  function First(record: seq<Trial>): (first: seq<Trial>)
    ensures forall t :: t in first <==> t in record && t.rung == 0 && t.Finished()
    ensures forall i :: 0 <= i < |first| ==> first[i].Finished()
  {
    if record == [] then []
    else
      var t, before := record[|record| - 1], First(record[..|record| - 1]);
      assert record == record[..|record| - 1] + [t];
      if t.rung == 0 && t.Finished() then before + [t] else before
  }

  function LossOf(t: Trial): real
    requires t.Finished()
  {
    t.valid.value
  }

  function Losses(first: seq<Trial>): seq<real>
    requires forall i :: 0 <= i < |first| ==> first[i].Finished()
  {
    seq(|first|, i requires 0 <= i < |first| => LossOf(first[i]))
  }

  function Column(first: seq<Trial>, name: string): seq<real>
    requires forall t :: t in first ==> name in t.params
  {
    seq(|first|, i requires 0 <= i < |first| => first[i].params[name])
  }

  /** Which of the trials those are. */
  function FirstAt(record: seq<Trial>): (at: seq<nat>)
    ensures forall i: nat :: i in at <==>
              i < |record| && record[i].rung == 0 && record[i].done && record[i].valid.Finite?
    ensures forall i, j :: 0 <= i < j < |at| ==> at[i] < at[j]
  {
    if record == [] then []
    else
      var n := |record| - 1;
      var before := FirstAt(record[..n]);
      assert forall i :: 0 <= i < |before| ==> before[i] in before;
      if record[n].rung == 0 && record[n].done && record[n].valid.Finite? then before + [n] else before
  }

  lemma {:induction false} FirstIs(record: seq<Trial>)
    ensures |First(record)| == |FirstAt(record)|
    ensures forall i :: 0 <= i < |FirstAt(record)| ==>
              FirstAt(record)[i] < |record| && First(record)[i] == record[FirstAt(record)[i]]
  {
    FirstGrows(record);
    hide First, FirstAt;
    if record != [] {
      var n := |record| - 1;
      var rest := record[..n];
      FirstIs(rest);
      forall i | 0 <= i < |FirstAt(rest)|
        ensures FirstAt(rest)[i] < n && First(rest)[i] == record[FirstAt(rest)[i]]
      {
        assert rest[FirstAt(rest)[i]] == record[FirstAt(rest)[i]];
      }
    }
  }

  lemma FirstGrows(record: seq<Trial>)
    ensures record == [] ==> First(record) == [] && FirstAt(record) == []
    ensures record != [] ==>
              var n := |record| - 1;
              var counts := record[n].rung == 0 && record[n].Finished();
              && First(record) == First(record[..n]) + (if counts then [record[n]] else [])
              && FirstAt(record) == FirstAt(record[..n]) + (if counts then [n] else [])
  {
  }

  /** The trials that importance is read off, told from the record, and what it reads of each: those of the first
      rung that are done with a finite validation loss, in the record's order. */
  lemma FirstTells(record: seq<Trial>) returns (at: seq<nat>)
    ensures forall i, j :: 0 <= i < j < |at| ==> at[i] < at[j]
    ensures forall i: nat :: i in at <==>
              i < |record| && record[i].rung == 0 && record[i].done && record[i].valid.Finite?
    ensures |First(record)| == |at| == |Losses(First(record))|
    ensures forall i :: 0 <= i < |at| ==>
              && at[i] in at && First(record)[i] == record[at[i]]
              && Losses(First(record))[i] == record[at[i]].valid.value
  {
    hide First;
    at := FirstAt(record);
    FirstIs(record);
    assert forall i :: 0 <= i < |at| ==> at[i] in at;
  }

  /** A finished first-rung trial lacks a parameter of the first such trial. */
  ghost predicate Lacking(first: seq<Trial>) {
    first != [] && exists t :: t in first && !(first[0].params.Keys <= t.params.Keys)
  }

  /** `importance`; `None` is the failure on a trial that lacks a parameter. */
  method Importance(record: seq<Trial>) returns (out: Option<map<string, real>>)
    ensures |First(record)| < 3 ==> out == Some(map[])
    ensures |First(record)| >= 3 ==> (out == None <==> Lacking(First(record)))
    ensures |First(record)| >= 3 && out != None ==>
              var first := First(record);
              && out.value.Keys == first[0].params.Keys
              && forall name :: name in out.value ==>
                   && (forall t :: t in first ==> name in t.params)
                   && out.value[name] == Spearman(Column(first, name), Losses(first))
  {
    hide Rank, RhoSquared;
    var first := First(record);
    if |first| < 3 {
      return Some(map[]);
    }
    var losses := Ranked(Losses(first));
    assert losses == RanksOf(Losses(first));
    var result: map<string, real> := map[];
    var names := first[0].params.Keys;
    while names != {}
      invariant names !! result.Keys && names + result.Keys == first[0].params.Keys
      invariant forall name :: name in result ==> forall t :: t in first ==> name in t.params
      invariant forall name :: name in result ==> result[name] == Spearman(Column(first, name), Losses(first))
      decreases names
    {
      var name :| name in names;
      if t :| t in first && name !in t.params {
        return None;
      }
      var ranks := Ranked(Column(first, name));
      assert ranks == RanksOf(Column(first, name));
      result := result[name := RhoSquared(ranks, losses)];
      names := names - {name};
    }
    return Some(result);
  }
}
