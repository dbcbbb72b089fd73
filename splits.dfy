/**
 * The cascade split calculator: the "practical split scheme" that blends a logarithmic
 * and a uniform partition of the camera's near..far range (updateCascades, first loop).
 */
module CascadeSplits {

  /** SHADOW_MAP_CASCADE_COUNT */
  const CascadeCount: nat := 4

  /** The camera collaborator always has a positive near plane in front of the far plane. */
  predicate ValidClip(near: real, far: real) {
    0.0 < near < far
  }

  /** The laws of std::pow the proofs rely on: x^0 = 1, x^1 = x, and for a base above 1
      the power grows strictly with the exponent. */
  ghost predicate PowLaws(pow: (real, real) -> real) {
    && (forall r: real :: r > 0.0 ==> pow(r, 0.0) == 1.0)
    && (forall r: real :: r > 0.0 ==> pow(r, 1.0) == r)
    && (forall r: real, p: real, q: real :: r > 1.0 && p < q ==> pow(r, p) < pow(r, q))
  }

  /** The position of cascade boundary `i` (0-based) as a fraction of the range: p = (i+1)/N. */
  function Position(i: nat): real {
    (i + 1) as real / CascadeCount as real
  }

  /** The logarithmic split distance near * (far/near)^p. */
  function LogSplit(pow: (real, real) -> real, near: real, far: real, p: real): real
    requires ValidClip(near, far)
  {
    near * pow(far / near, p)
  }

  /** The uniform split distance near + (far - near) * p. */
  function UniformSplit(near: real, far: real, p: real): real {
    near + (far - near) * p
  }

  /** A view-space distance as a fraction of the clip range. */
  function Fraction(near: real, far: real, d: real): real
    requires ValidClip(near, far)
  {
    (d - near) / (far - near)
  }

  /** Split fraction of cascade `i`: the blend lambda * log + (1 - lambda) * uniform of the
      two split distances, normalised to the clip range. Here and below the parameter `blend`
      is the split lambda (`cascadeSplitLambda`). */
  function SplitFraction(pow: (real, real) -> real, near: real, far: real, blend: real, i: nat): real
    requires ValidClip(near, far)
  {
    var p := Position(i);
    Fraction(near, far, blend * LogSplit(pow, near, far, p) + (1.0 - blend) * UniformSplit(near, far, p))
  }

  /** All N split fractions, in cascade order. */
  function Splits(pow: (real, real) -> real, near: real, far: real, blend: real): (s: seq<real>)
    requires ValidClip(near, far)
    ensures |s| == CascadeCount
    ensures forall i :: 0 <= i < CascadeCount ==> s[i] == SplitFraction(pow, near, far, blend, i)
  {
    seq(CascadeCount, i requires 0 <= i => SplitFraction(pow, near, far, blend, i))
  }

  /** Where the slice of cascade `i` starts: 0 for the first cascade, otherwise the previous
      cascade's split (the running `lastSplitDist`). */
  function SliceStart(pow: (real, real) -> real, near: real, far: real, blend: real, i: nat): real
    requires ValidClip(near, far)
  {
    if i == 0 then 0.0 else SplitFraction(pow, near, far, blend, i - 1)
  }

  /** The signed view-space depth stored for a cascade: negated, so that it compares
      directly with view-space fragment depth (which is negative in front of the camera). */
  function SplitDepth(near: real, far: real, split: real): (depth: real)
    ensures split == 0.0 ==> depth == -near
    ensures split == 1.0 ==> depth == -far
  {
    (near + split * (far - near)) * -1.0
  }

  /** A split fraction in [0, 1] stores a depth between the far plane and the near plane. */
  lemma SplitDepthWithinClipRange(near: real, far: real, split: real)
    requires near <= far
    requires 0.0 <= split <= 1.0
    ensures -far <= SplitDepth(near, far, split) <= -near
  {
    var r := far - near;
    MulMonotone(r, 0.0, split);
    MulMonotone(r, split, 1.0);
    assert 0.0 <= split * r <= r;
    assert SplitDepth(near, far, split) == -(near + split * r);
  }

  /** The blend, once normalised, is the same blend of the two normalised splits. */
  lemma SplitIsBlendOfFractions(pow: (real, real) -> real, near: real, far: real, blend: real, i: nat)
    requires ValidClip(near, far)
    ensures SplitFraction(pow, near, far, blend, i)
         == blend * Fraction(near, far, LogSplit(pow, near, far, Position(i)))
            + (1.0 - blend) * Fraction(near, far, UniformSplit(near, far, Position(i)))
  {
    var l, u, r := LogSplit(pow, near, far, Position(i)), UniformSplit(near, far, Position(i)), far - near;
    calc {
      (blend * l + (1.0 - blend) * u - near) / r;
      (blend * (l - near) + (1.0 - blend) * (u - near)) / r;
      blend * ((l - near) / r) + (1.0 - blend) * ((u - near) / r);
    }
  }

  /** The uniform split normalises to the position itself. */
  lemma UniformFractionIsPosition(near: real, far: real, p: real)
    requires ValidClip(near, far)
    ensures Fraction(near, far, UniformSplit(near, far, p)) == p
  {
    var r := far - near;
    assert UniformSplit(near, far, p) - near == r * p;
    assert (r * p) / r == p;
  }

  /** The last split lies exactly on the far plane, whatever lambda is: at p = 1 both the
      logarithmic and the uniform split equal `far`. */
  lemma LastSplitIsFarPlane(pow: (real, real) -> real, near: real, far: real, blend: real)
    requires ValidClip(near, far)
    requires forall r: real :: r > 0.0 ==> pow(r, 1.0) == r
    ensures SplitFraction(pow, near, far, blend, CascadeCount - 1) == 1.0
    ensures SplitDepth(near, far, SplitFraction(pow, near, far, blend, CascadeCount - 1)) == -far
  {
    var p := Position(CascadeCount - 1);
    assert p == 1.0;
    var ratio := far / near;
    assert ratio > 0.0;
    assert pow(ratio, 1.0) == ratio;
    assert near * ratio == far;
    assert LogSplit(pow, near, far, p) == far;
    assert UniformSplit(near, far, p) == far;
    assert blend * far + (1.0 - blend) * far == far;
    assert (far - near) / (far - near) == 1.0;
  }

  /** Both split distances grow strictly with the position. */
  lemma SplitDistancesIncrease(pow: (real, real) -> real, near: real, far: real, p: real, q: real)
    requires ValidClip(near, far) && PowLaws(pow)
    requires p < q
    ensures LogSplit(pow, near, far, p) < LogSplit(pow, near, far, q)
    ensures UniformSplit(near, far, p) < UniformSplit(near, far, q)
  {
    var ratio := far / near;
    RatioAboveOne(near, far);
    assert pow(ratio, p) < pow(ratio, q);
    MulStrict(near, pow(ratio, p), pow(ratio, q));
    MulStrict(far - near, p, q);
  }

  lemma RatioAboveOne(near: real, far: real)
    requires ValidClip(near, far)
    ensures far / near > 1.0
  {
    var ratio := far / near;
    assert near * ratio == far;
    if ratio <= 1.0 {
      MulMonotone(near, ratio, 1.0);
      assert false;
    }
  }

  lemma MulMonotone(k: real, a: real, b: real)
    requires 0.0 <= k && a <= b
    ensures k * a <= k * b
  {
    assert k * b - k * a == k * (b - a);
  }

  lemma MulStrict(k: real, a: real, b: real)
    requires 0.0 < k && a < b
    ensures k * a < k * b
  {
    assert k * b - k * a == k * (b - a);
  }

  /** A convex blend of two strictly increasing pairs increases strictly. */
  lemma BlendIncreases(blend: real, a: real, b: real, c: real, d: real)
    requires 0.0 <= blend <= 1.0
    requires a < b && c < d
    ensures blend * a + (1.0 - blend) * c < blend * b + (1.0 - blend) * d
  {
    var x, y := blend * (b - a), (1.0 - blend) * (d - c);
    assert (blend * b + (1.0 - blend) * d) - (blend * a + (1.0 - blend) * c) == x + y;
    assert 0.0 <= x && 0.0 <= y;
    if blend == 0.0 {
      assert y == d - c;
    } else {
      MulPositive(blend, b - a);
    }
  }

  lemma MulPositive(k: real, x: real)
    requires 0.0 < k && 0.0 < x
    ensures 0.0 < k * x
  {
  }

  /** For 0 <= lambda <= 1 the split fractions are strictly increasing in the cascade index. */
  lemma SplitsStrictlyIncrease(pow: (real, real) -> real, near: real, far: real, blend: real, i: nat, j: nat)
    requires ValidClip(near, far) && PowLaws(pow)
    requires 0.0 <= blend <= 1.0
    requires i < j
    ensures SplitFraction(pow, near, far, blend, i) < SplitFraction(pow, near, far, blend, j)
  {
    var p, q := Position(i), Position(j);
    assert p < q;
    SplitDistancesIncrease(pow, near, far, p, q);
    BlendIncreases(blend, LogSplit(pow, near, far, p), LogSplit(pow, near, far, q),
                   UniformSplit(near, far, p), UniformSplit(near, far, q));
    FractionIncreases(near, far,
      blend * LogSplit(pow, near, far, p) + (1.0 - blend) * UniformSplit(near, far, p),
      blend * LogSplit(pow, near, far, q) + (1.0 - blend) * UniformSplit(near, far, q));
  }

  lemma FractionIncreases(near: real, far: real, d: real, e: real)
    requires ValidClip(near, far)
    requires d < e
    ensures Fraction(near, far, d) < Fraction(near, far, e)
  {
    var r := far - near;
    assert (e - near) / r - (d - near) / r == (e - d) / r;
  }

  /** For 0 <= lambda <= 1 every split fraction lies in (0, 1]. */
  lemma SplitInUnitInterval(pow: (real, real) -> real, near: real, far: real, blend: real, i: nat)
    requires ValidClip(near, far) && PowLaws(pow)
    requires 0.0 <= blend <= 1.0
    requires i < CascadeCount
    ensures 0.0 < SplitFraction(pow, near, far, blend, i) <= 1.0
  {
    var p := Position(i);
    assert 0.0 < p;
    SplitDistancesIncrease(pow, near, far, 0.0, p);
    assert pow(far / near, 0.0) == 1.0;
    assert LogSplit(pow, near, far, 0.0) == near;
    assert UniformSplit(near, far, 0.0) == near;
    var d := blend * LogSplit(pow, near, far, p) + (1.0 - blend) * UniformSplit(near, far, p);
    BlendIncreases(blend, near, LogSplit(pow, near, far, p), near, UniformSplit(near, far, p));
    assert blend * near + (1.0 - blend) * near == near;
    FractionIncreases(near, far, near, d);
    assert Fraction(near, far, near) == 0.0;
    if i < CascadeCount - 1 {
      SplitsStrictlyIncrease(pow, near, far, blend, i, CascadeCount - 1);
    }
    LastSplitIsFarPlane(pow, near, far, blend);
  }

  /** lambda = 0 degenerates to uniform slicing: split i is (i+1)/N. */
  lemma UniformWhenLambdaIsZero(pow: (real, real) -> real, near: real, far: real, i: nat)
    requires ValidClip(near, far)
    ensures SplitFraction(pow, near, far, 0.0, i) == (i + 1) as real / CascadeCount as real
  {
    UniformFractionIsPosition(near, far, Position(i));
  }

  /** lambda = 1 degenerates to pure logarithmic slicing. */
  lemma LogarithmicWhenLambdaIsOne(pow: (real, real) -> real, near: real, far: real, i: nat)
    requires ValidClip(near, far)
    ensures SplitFraction(pow, near, far, 1.0, i)
         == (near * pow(far / near, Position(i)) - near) / (far - near)
  {
  }

  /** Raising lambda moves every split monotonically from the uniform split towards the
      logarithmic one: the distance to the logarithmic fraction never grows. */
  lemma LambdaInterpolatesMonotonically(pow: (real, real) -> real, near: real, far: real, blend: real, mu: real, i: nat)
    requires ValidClip(near, far)
    requires 0.0 <= blend <= mu <= 1.0
    ensures var logF := Fraction(near, far, LogSplit(pow, near, far, Position(i)));
            Abs(SplitFraction(pow, near, far, mu, i) - logF) <= Abs(SplitFraction(pow, near, far, blend, i) - logF)
  {
    var logF := Fraction(near, far, LogSplit(pow, near, far, Position(i)));
    var uniF := Fraction(near, far, UniformSplit(near, far, Position(i)));
    SplitIsBlendOfFractions(pow, near, far, blend, i);
    SplitIsBlendOfFractions(pow, near, far, mu, i);
    assert SplitFraction(pow, near, far, blend, i) - logF == (1.0 - blend) * (uniF - logF);
    assert SplitFraction(pow, near, far, mu, i) - logF == (1.0 - mu) * (uniF - logF);
    AbsScales(1.0 - mu, 1.0 - blend, uniF - logF);
  }

  /** With lambda above one half a split is closer to the logarithmic split than to the
      uniform one (the default blend is 0.95). */
  lemma CloserToLogarithmic(pow: (real, real) -> real, near: real, far: real, blend: real, i: nat)
    requires ValidClip(near, far)
    requires 0.5 < blend <= 1.0
    ensures var logF := Fraction(near, far, LogSplit(pow, near, far, Position(i)));
            var uniF := Fraction(near, far, UniformSplit(near, far, Position(i)));
            var s := SplitFraction(pow, near, far, blend, i);
            Abs(s - logF) <= Abs(s - uniF) && (logF != uniF ==> Abs(s - logF) < Abs(s - uniF))
  {
    var logF := Fraction(near, far, LogSplit(pow, near, far, Position(i)));
    var uniF := Fraction(near, far, UniformSplit(near, far, Position(i)));
    var s := SplitFraction(pow, near, far, blend, i);
    SplitIsBlendOfFractions(pow, near, far, blend, i);
    assert s - logF == (1.0 - blend) * (uniF - logF);
    assert s - uniF == blend * (logF - uniF);
    AbsScales(1.0 - blend, blend, uniF - logF);
    if logF != uniF {
      AbsScalesStrictly(1.0 - blend, blend, uniF - logF);
    }
    assert Abs(blend * (logF - uniF)) == Abs(blend * (uniF - logF));
  }

  function Abs(x: real): real {
    if x < 0.0 then -x else x
  }

  lemma AbsScales(a: real, b: real, x: real)
    requires 0.0 <= a <= b
    ensures Abs(a * x) <= Abs(b * x)
  {
    if x < 0.0 {
      assert a * -x <= b * -x;
    } else {
      assert a * x <= b * x;
    }
  }

  lemma AbsScalesStrictly(a: real, b: real, x: real)
    requires 0.0 <= a < b && x != 0.0
    ensures Abs(a * x) < Abs(b * x)
  {
    if x < 0.0 {
      assert a * -x < b * -x;
    } else {
      assert a * x < b * x;
    }
  }

  /** The stored split depths move strictly away from the camera, from cascade to cascade. */
  lemma SplitDepthsDecrease(pow: (real, real) -> real, near: real, far: real, blend: real, i: nat, j: nat)
    requires ValidClip(near, far) && PowLaws(pow)
    requires 0.0 <= blend <= 1.0
    requires i < j
    ensures SplitDepth(near, far, SplitFraction(pow, near, far, blend, j))
          < SplitDepth(near, far, SplitFraction(pow, near, far, blend, i))
  {
    SplitsStrictlyIncrease(pow, near, far, blend, i, j);
    SplitDepthDecreasing(near, far, SplitFraction(pow, near, far, blend, i), SplitFraction(pow, near, far, blend, j));
  }

  lemma SplitDepthDecreasing(near: real, far: real, s: real, t: real)
    requires ValidClip(near, far)
    requires s < t
    ensures SplitDepth(near, far, t) < SplitDepth(near, far, s)
  {
    MulStrict(far - near, s, t);
    assert s * (far - near) < t * (far - near);
  }
}
