/** Ordinary least squares of a window of values against their positions 0, 1, ..., W-1,
    in closed form over exact reals. This is what `LinearRegression().fit(x, y).coef_[0]`
    computes with x = 0..W-1 when rounding is ignored.

    The sums are written by recursion on the front of the window: dropping the first
    value moves every other value one position down, so sum(k*y) over the window is
    sum(k*y) over the rest plus sum(y) over the rest. This keeps every definition free
    of products, and the algebra in small lemmas over plain numbers. */
module Regression {

  /** Sum of the values. */
  function SumY(ys: seq<real>): real
  {
    if |ys| == 0 then 0.0 else ys[0] + SumY(ys[1..])
  }

  /** Sum of position times value, positions counted from 0. */
  function SumKY(ys: seq<real>): real
  {
    if |ys| == 0 then 0.0 else SumKY(ys[1..]) + SumY(ys[1..])
  }

  /** Sum of the positions 0..w-1. */
  function SumK(w: nat): real
  {
    if w == 0 then 0.0 else SumK(w - 1) + (w - 1) as real
  }

  /** Sum of the squared positions 0..w-1: (j+1)^2 = j^2 + 2j + 1 summed over j < w-1. */
  function SumKK(w: nat): real
  {
    if w == 0 then 0.0 else SumKK(w - 1) + 2.0 * SumK(w - 1) + (w - 1) as real
  }

  /** W * sum(k*y) - sum(k) * sum(y): W^2 times the covariance of positions and values,
      the numerator of the closed-form slope. */
  function Covariance(ys: seq<real>): real
  {
    |ys| as real * SumKY(ys) - SumK(|ys|) * SumY(ys)
  }

  /** W * sum(k^2) - sum(k)^2: W^2 times the variance of the positions, the denominator
      of the closed-form slope (see SpreadSign). */
  function Spread(w: nat): real
  {
    w as real * SumKK(w) - SumK(w) * SumK(w)
  }

  /** The least-squares slope of `ys` against positions 0..|ys|-1. With a single sample
      every position equals its mean, and the minimum-norm solution is slope 0. */
  function OlsSlope(ys: seq<real>): real
    requires |ys| >= 1
  {
    if Spread(|ys|) == 0.0 then 0.0 else Covariance(ys) / Spread(|ys|)
  }

  /** The familiar closed forms of the two position sums. */
  lemma {:induction false} PositionSums(w: nat)
    ensures 2.0 * SumK(w) == w as real * (w as real - 1.0)
    ensures 6.0 * SumKK(w) == (w as real - 1.0) * w as real * (2.0 * w as real - 1.0)
  {
    if w > 0 {
      PositionSums(w - 1);
      PositionSumsStep((w - 1) as real, SumK(w - 1), SumKK(w - 1));
    }
  }

  lemma {:induction false} PositionSumsStep(k: real, sk: real, skk: real)
    requires 2.0 * sk == k * (k - 1.0)
    requires 6.0 * skk == (k - 1.0) * k * (2.0 * k - 1.0)
    ensures 2.0 * (sk + k) == (k + 1.0) * k
    ensures 6.0 * (skk + 2.0 * sk + k) == k * (k + 1.0) * (2.0 * k + 1.0)
  {
  }

  /** Spread(w) is W^2 (W^2 - 1) / 12. */
  lemma {:induction false} SpreadClosedForm(w: nat)
    ensures 12.0 * Spread(w) == (w * w) as real * (w as real - 1.0) * (w as real + 1.0)
  {
    PositionSums(w);
    SpreadIdentity(w as real, SumK(w), SumKK(w));
  }

  /** The spread is zero for a window of one position and positive from two positions on,
      so the slope is a true quotient exactly when the window has two or more values. */
  lemma {:induction false} SpreadSign(w: nat)
    ensures w >= 2 <==> Spread(w) > 0.0
    ensures Spread(w) >= 0.0
  {
    PositionSums(w);
    SpreadIdentity(w as real, SumK(w), SumKK(w));
  }

  lemma {:induction false} SpreadIdentity(w: real, sk: real, skk: real)
    requires w >= 0.0
    requires 2.0 * sk == w * (w - 1.0)
    requires 6.0 * skk == (w - 1.0) * w * (2.0 * w - 1.0)
    ensures 12.0 * (w * skk - sk * sk) == w * w * (w - 1.0) * (w + 1.0)
    ensures w >= 2.0 ==> w * skk - sk * sk > 0.0
    ensures w == 0.0 || w == 1.0 ==> w * skk - sk * sk == 0.0
  {
    calc {
      12.0 * (w * skk - sk * sk);
      2.0 * w * (6.0 * skk) - 3.0 * (2.0 * sk) * (2.0 * sk);
      2.0 * w * ((w - 1.0) * w * (2.0 * w - 1.0)) - 3.0 * (w * (w - 1.0)) * (w * (w - 1.0));
      w * w * (w - 1.0) * (w + 1.0);
    }
    if w >= 2.0 {
      assert w * w > 0.0;
      assert (w - 1.0) * (w + 1.0) > 0.0;
      assert w * w * ((w - 1.0) * (w + 1.0)) > 0.0;
    }
  }

  /** zs is ys with the straight line a + s*k added at every position k. */
  predicate OnAddedLine(ys: seq<real>, zs: seq<real>, a: real, s: real)
  {
    |zs| == |ys| && forall k :: 0 <= k < |ys| ==> zs[k] == ys[k] + a + s * k as real
  }

  /** Dropping the first position leaves a line with the same slope, one step higher. */
  lemma {:induction false} TailOnAddedLine(ys: seq<real>, zs: seq<real>, a: real, s: real)
    requires OnAddedLine(ys, zs, a, s) && |ys| > 0
    ensures OnAddedLine(ys[1..], zs[1..], a + s, s)
    ensures zs[0] == ys[0] + a
  {
    forall k | 0 <= k < |ys| - 1
      ensures zs[1..][k] == ys[1..][k] + (a + s) + s * k as real
    {
      assert zs[k + 1] == ys[k + 1] + a + s * (k + 1) as real;
    }
  }

  /** The same relation stated one position at a time, the form the sum lemmas induct on. */
  predicate AddedLineFrom(ys: seq<real>, zs: seq<real>, a: real, s: real)
    decreases |ys|
  {
    |zs| == |ys| && (|ys| > 0 ==> zs[0] == ys[0] + a && AddedLineFrom(ys[1..], zs[1..], a + s, s))
  }

  lemma {:induction false} AddedLineFromPointwise(ys: seq<real>, zs: seq<real>, a: real, s: real)
    requires OnAddedLine(ys, zs, a, s)
    ensures AddedLineFrom(ys, zs, a, s)
  {
    if |ys| > 0 {
      TailOnAddedLine(ys, zs, a, s);
      AddedLineFromPointwise(ys[1..], zs[1..], a + s, s);
    }
  }

  /** One step of each recursive sum, stated on the window and its tail. */
  lemma {:induction false} FrontStep(ys: seq<real>)
    requires |ys| > 0
    ensures SumY(ys) == ys[0] + SumY(ys[1..])
    ensures SumKY(ys) == SumKY(ys[1..]) + SumY(ys[1..])
    ensures SumK(|ys|) == SumK(|ys[1..]|) + |ys[1..]| as real
    ensures SumKK(|ys|) == SumKK(|ys[1..]|) + 2.0 * SumK(|ys[1..]|) + |ys[1..]| as real
    ensures |ys| as real == |ys[1..]| as real + 1.0
  {
  }

  /** Adding the line a + s*k to every value adds W*a + s*sum(k) to the sum of values. */
  lemma {:induction false} SumYOfAddedLine(ys: seq<real>, zs: seq<real>, a: real, s: real)
    requires AddedLineFrom(ys, zs, a, s)
    ensures SumY(zs) == SumY(ys) + |ys| as real * a + s * SumK(|ys|)
  {
    if |ys| > 0 {
      var ys', zs' := ys[1..], zs[1..];
      SumYOfAddedLine(ys', zs', a + s, s);
      FrontStep(ys);
      FrontStep(zs);
      SumStep(SumY(zs), SumY(ys), |ys| as real, SumK(|ys|),
              SumY(ys'), SumY(zs'), ys[0], zs[0], |ys'| as real, SumK(|ys'|), a, s);
    }
  }

  lemma {:induction false} SumStep(sz: real, sy: real, w: real, sk: real,
                y: real, z: real, y0: real, z0: real, m: real, sk': real, a: real, s: real)
    requires sz == z0 + z && sy == y0 + y && w == m + 1.0 && sk == sk' + m
    requires z == y + m * (a + s) + s * sk'
    requires z0 == y0 + a
    ensures sz == sy + w * a + s * sk
  {
  }

  /** Adding the line a + s*k to every value adds a*sum(k) + s*sum(k^2) to the
      position-weighted sum. */
  lemma {:induction false} SumKYOfAddedLine(ys: seq<real>, zs: seq<real>, a: real, s: real)
    requires AddedLineFrom(ys, zs, a, s)
    ensures SumKY(zs) == SumKY(ys) + a * SumK(|ys|) + s * SumKK(|ys|)
  {
    if |ys| > 0 {
      var ys', zs' := ys[1..], zs[1..];
      SumKYOfAddedLine(ys', zs', a + s, s);
      SumYOfAddedLine(ys', zs', a + s, s);
      FrontStep(ys);
      FrontStep(zs);
      WeightedSumStep(SumKY(zs), SumKY(ys), SumK(|ys|), SumKK(|ys|),
                      SumKY(ys'), SumKY(zs'), SumY(ys'), SumY(zs'),
                      |ys'| as real, SumK(|ys'|), SumKK(|ys'|), a, s);
    }
  }

  lemma {:induction false} WeightedSumStep(kzs: real, kys: real, sk: real, skk: real,
                        ky: real, kz: real, y: real, z: real, m: real, sk': real, skk': real,
                        a: real, s: real)
    requires kzs == kz + z && kys == ky + y
    requires sk == sk' + m && skk == skk' + 2.0 * sk' + m
    requires kz == ky + (a + s) * sk' + s * skk'
    requires z == y + m * (a + s) + s * sk'
    ensures kzs == kys + a * sk + s * skk
  {
  }

  /** Adding the line a + s*k raises the covariance by s times the spread. */
  lemma {:induction false} CovarianceOfAddedLine(ys: seq<real>, zs: seq<real>, a: real, s: real)
    requires AddedLineFrom(ys, zs, a, s)
    ensures Covariance(zs) == Covariance(ys) + s * Spread(|ys|)
  {
    SumYOfAddedLine(ys, zs, a, s);
    SumKYOfAddedLine(ys, zs, a, s);
    CovarianceFromSums(ys, zs, a, s);
  }

  lemma {:induction false} CovarianceFromSums(ys: seq<real>, zs: seq<real>, a: real, s: real)
    requires |zs| == |ys|
    requires SumY(zs) == SumY(ys) + |ys| as real * a + s * SumK(|ys|)
    requires SumKY(zs) == SumKY(ys) + a * SumK(|ys|) + s * SumKK(|ys|)
    ensures Covariance(zs) == Covariance(ys) + s * Spread(|ys|)
  {
    CovarianceShift(Covariance(zs), Covariance(ys), Spread(|ys|),
                    |ys| as real, |zs| as real, SumK(|ys|), SumK(|zs|), SumKK(|ys|),
                    SumY(ys), SumKY(ys), SumY(zs), SumKY(zs), a, s);
  }

  lemma {:induction false} CovarianceShift(cz: real, cy: real, sp: real, w: real, wz: real, sk: real, skz: real, skk: real,
                        y: real, ky: real, z: real, kz: real, a: real, s: real)
    requires wz == w && skz == sk
    requires cz == wz * kz - skz * z && cy == w * ky - sk * y && sp == w * skk - sk * sk
    requires z == y + w * a + s * sk
    requires kz == ky + a * sk + s * skk
    ensures cz == cy + s * sp
  {
  }

  /** Adding a straight line with slope s to a window adds exactly s to its fitted slope. */
  lemma {:induction false} OlsSlopeOfAddedLine(ys: seq<real>, zs: seq<real>, a: real, s: real)
    requires |ys| >= 2 && OnAddedLine(ys, zs, a, s)
    ensures OlsSlope(zs) == OlsSlope(ys) + s
  {
    AddedLineFromPointwise(ys, zs, a, s);
    CovarianceOfAddedLine(ys, zs, a, s);
    SpreadSign(|ys|);
    DivShift(Covariance(ys), Spread(|ys|), s);
  }

  lemma {:induction false} DivShift(n: real, d: real, s: real)
    requires d != 0.0
    ensures (n + s * d) / d == n / d + s
  {
  }

  /** A window lying exactly on the line a + s*k has fitted slope exactly s. */
  lemma {:induction false} OlsSlopeOfLine(zs: seq<real>, a: real, s: real)
    requires |zs| >= 2
    requires forall k :: 0 <= k < |zs| ==> zs[k] == a + s * k as real
    ensures OlsSlope(zs) == s
  {
    var zeros := seq(|zs|, k => 0.0);
    ZeroSums(zeros);
    OlsSlopeOfAddedLine(zeros, zs, a, s);
  }

  lemma {:induction false} ZeroSums(ys: seq<real>)
    requires forall k :: 0 <= k < |ys| ==> ys[k] == 0.0
    ensures SumY(ys) == 0.0 && SumKY(ys) == 0.0
  {
    if |ys| > 0 {
      ZeroSums(ys[1..]);
    }
  }

  /** zs is ys with every value multiplied by c. */
  predicate Scaled(ys: seq<real>, zs: seq<real>, c: real)
  {
    |zs| == |ys| && forall k :: 0 <= k < |ys| ==> zs[k] == c * ys[k]
  }

  /** The same relation stated one position at a time. */
  predicate ScaledFrom(ys: seq<real>, zs: seq<real>, c: real)
    decreases |ys|
  {
    |zs| == |ys| && (|ys| > 0 ==> zs[0] == c * ys[0] && ScaledFrom(ys[1..], zs[1..], c))
  }

  lemma {:induction false} ScaledFromPointwise(ys: seq<real>, zs: seq<real>, c: real)
    requires Scaled(ys, zs, c)
    ensures ScaledFrom(ys, zs, c)
  {
    if |ys| > 0 {
      assert Scaled(ys[1..], zs[1..], c);
      ScaledFromPointwise(ys[1..], zs[1..], c);
    }
  }

  /** Scaling every value by c scales the fitted slope by c. */
  lemma {:induction false} OlsSlopeOfScaled(ys: seq<real>, zs: seq<real>, c: real)
    requires |ys| >= 1 && Scaled(ys, zs, c)
    ensures OlsSlope(zs) == c * OlsSlope(ys)
  {
    ScaledFromPointwise(ys, zs, c);
    CovarianceOfScaled(ys, zs, c);
    if Spread(|ys|) != 0.0 {
      DivScale(Covariance(ys), Spread(|ys|), c);
    }
  }

  /** Scaling every value by c scales the covariance numerator by c. */
  lemma {:induction false} CovarianceOfScaled(ys: seq<real>, zs: seq<real>, c: real)
    requires ScaledFrom(ys, zs, c)
    ensures Covariance(zs) == c * Covariance(ys)
  {
    ScaledSums(ys, zs, c);
    CovarianceFromScaledSums(ys, zs, c);
  }

  lemma {:induction false} CovarianceFromScaledSums(ys: seq<real>, zs: seq<real>, c: real)
    requires |zs| == |ys|
    requires SumY(zs) == c * SumY(ys) && SumKY(zs) == c * SumKY(ys)
    ensures Covariance(zs) == c * Covariance(ys)
  {
    CovarianceScale(Covariance(zs), Covariance(ys), |ys| as real, |zs| as real, SumK(|ys|), SumK(|zs|),
                    SumY(ys), SumKY(ys), SumY(zs), SumKY(zs), c);
  }

  lemma {:induction false} CovarianceScale(cz: real, cy: real, w: real, wz: real, sk: real, skz: real,
                        y: real, ky: real, z: real, kz: real, c: real)
    requires wz == w && skz == sk
    requires cz == wz * kz - skz * z && cy == w * ky - sk * y
    requires z == c * y && kz == c * ky
    ensures cz == c * cy
  {
  }

  lemma {:induction false} DivScale(n: real, d: real, c: real)
    requires d != 0.0
    ensures (c * n) / d == c * (n / d)
  {
  }

  lemma {:induction false} ScaledSums(ys: seq<real>, zs: seq<real>, c: real)
    requires ScaledFrom(ys, zs, c)
    ensures SumY(zs) == c * SumY(ys) && SumKY(zs) == c * SumKY(ys)
  {
    if |ys| > 0 {
      var ys', zs' := ys[1..], zs[1..];
      ScaledSums(ys', zs', c);
      FrontStep(ys);
      FrontStep(zs);
      ScaleStep(SumY(zs), SumY(ys), SumKY(zs), SumKY(ys),
                ys[0], zs[0], SumY(ys'), SumY(zs'), SumKY(ys'), SumKY(zs'), c);
    }
  }

  lemma {:induction false} ScaleStep(zsum: real, ysum: real, kzsum: real, kysum: real,
                  y0: real, z0: real, y: real, z: real, ky: real, kz: real, c: real)
    requires zsum == z0 + z && ysum == y0 + y && kzsum == kz + z && kysum == ky + y
    requires z0 == c * y0 && z == c * y && kz == c * ky
    ensures zsum == c * ysum && kzsum == c * kysum
  {
  }
}
