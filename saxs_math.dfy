/** The SAXS forward model of saxskit/saxs_math.py: the Guinier-Porod and
    normal-sphere scattering laws, their sum in `compute_saxs`, the chi-squared
    misfit, the log-intensity fluctuation metric of `profile_spectrum` and the
    Lagrange system of `fit_with_slope_constraint`. */
module SaxsMath {
  import opened Common
  import opened Reals

  /** A parameter of a population record: a float or a list of floats. */
  datatype ParamValue = Scalar(x: real) | List(xs: seq<real>)

  /** `if not isinstance(v, list): v = [v]`. */
  function Flatten(v: ParamValue): (r: seq<real>)
    ensures v.Scalar? ==> r == [v.x]
    ensures v.List? ==> r == v.xs
  {
    match v
    case Scalar(x) => [x]
    case List(xs) => xs
  }

  /** `bool(populations['unidentified'])` and `bool(populations['diffraction_peaks'])`,
      both looked up before either is tested. */
  function SkipFlag(populations: OrderedDict<string, int>): (r: Result<bool>)
    ensures r.Success? <==> HasKey(populations, "unidentified") && HasKey(populations, "diffraction_peaks")
    ensures !HasKey(populations, "unidentified") ==> r == Failure(KeyError("unidentified"))
    ensures HasKey(populations, "unidentified") && !HasKey(populations, "diffraction_peaks") ==>
      r == Failure(KeyError("diffraction_peaks"))
    ensures r.Success? ==> (r.value <==>
      Lookup(populations, "unidentified").value != 0 || Lookup(populations, "diffraction_peaks").value != 0)
  {
    var u :- Lookup(populations, "unidentified");
    var pk :- Lookup(populations, "diffraction_peaks");
    Success(u != 0 || pk != 0)
  }

  // ---------------------------------------------------------------------------
  // guinier_porod

  /** The q at which the Guinier and Porod regimes are spliced. */
  function QSplice(m: Transcendentals, rg: real, D: real): real
    requires rg > 0.0
  {
    1.0 / rg * m.sqrt(3.0 / 2.0 * D)
  }

  function GuinierBranch(m: Transcendentals, q: real, rg: real, G: real): real
  {
    G * m.exp(-1.0 / 3.0 * (q * q) * (rg * rg))
  }

  function PorodFactor(m: Transcendentals, rg: real, D: real, G: real): real
    requires Lawful(m) && rg > 0.0
  {
    G * m.exp(-1.0 / 2.0 * D) * m.pow(3.0 / 2.0 * D, 1.0 / 2.0 * D) * (1.0 / m.pow(rg, D))
  }

  function PorodBranch(m: Transcendentals, q: real, rg: real, D: real, G: real): real
    requires Lawful(m) && rg > 0.0 && q > 0.0
  {
    PorodFactor(m, rg, D, G) * (1.0 / m.pow(q, D))
  }

  /** `guinier_porod` at one q: the Guinier law up to and including `q_splice`, Porod beyond. */
  function GuinierPorod(m: Transcendentals, q: real, rg: real, D: real, G: real): real
    requires Lawful(m) && rg > 0.0 && D >= 0.0
  {
    var qs := QSplice(m, rg, D);
    if q <= qs then GuinierBranch(m, q, rg, G)
    else
      assert q > 0.0 by { assert 1.0 / rg > 0.0; MulNonNegative(1.0 / rg, m.sqrt(3.0 / 2.0 * D)); }
      PorodBranch(m, q, rg, D, G)
  }

  /** `q_splice` is never negative, so q = 0 is always in the Guinier regime and I(0) = G. */
  lemma GuinierPorodAtZero(m: Transcendentals, rg: real, D: real, G: real)
    requires Lawful(m) && rg > 0.0 && D >= 0.0
    ensures GuinierPorod(m, 0.0, rg, D, G) == G
  {
    MulNonNegative(1.0 / rg, m.sqrt(3.0 / 2.0 * D));
    assert -1.0 / 3.0 * (0.0 * 0.0) * (rg * rg) == 0.0;
  }

  lemma SqrtPositive(m: Transcendentals, x: real)
    requires Lawful(m) && x > 0.0
    ensures m.sqrt(x) > 0.0
  {
    var s := m.sqrt(x);
    if s == 0.0 { assert s * s == 0.0; }
  }

  /** `q_splice ** D == (1/rg) ** D * (3D/2) ** (D/2)`. */
  lemma SplicePower(m: Transcendentals, rg: real, D: real)
    requires Lawful(m) && rg > 0.0 && D > 0.0
    ensures QSplice(m, rg, D) > 0.0
    ensures m.pow(QSplice(m, rg, D), D) == m.pow(1.0 / rg, D) * m.pow(3.0 / 2.0 * D, 1.0 / 2.0 * D)
  {
    var x := 3.0 / 2.0 * D;
    SqrtPositive(m, x);
    var inv := 1.0 / rg;
    assert inv * m.sqrt(x) > 0.0 * m.sqrt(x);
    assert QSplice(m, rg, D) == Mul(inv, m.sqrt(x));
    assert m.pow(Mul(inv, m.sqrt(x)), D) == m.pow(inv, D) * m.pow(m.sqrt(x), D);
    assert m.pow(m.sqrt(x), D) == m.pow(x, D / 2.0);
    assert D / 2.0 == 1.0 / 2.0 * D;
  }

  lemma PowReciprocal(m: Transcendentals, rg: real, D: real)
    requires Lawful(m) && rg > 0.0
    ensures m.pow(rg, D) * m.pow(1.0 / rg, D) == 1.0
  {
    assert Mul(rg, 1.0 / rg) == 1.0;
    assert m.pow(rg, D) * m.pow(1.0 / rg, D) == m.pow(Mul(rg, 1.0 / rg), D);
  }

  lemma CancelFactors(a: real, px: real, pr: real, pi: real)
    requires px > 0.0 && pr * pi == 1.0
    ensures a * px * (1.0 / pr) * (1.0 / (pi * px)) == a
  {
    assert pr != 0.0 && pi != 0.0;
    assert 1.0 / pr == pi;
    var k := pi * px;
    assert k != 0.0;
    assert k * (1.0 / k) == 1.0;
    calc {
      a * px * (1.0 / pr) * (1.0 / (pi * px));
      a * px * pi * (1.0 / k);
      a * (k * (1.0 / k));
      a;
    }
  }

  /** `q_splice ** 2 * rg ** 2 == 3D/2`. */
  lemma SpliceSquare(m: Transcendentals, rg: real, D: real)
    requires Lawful(m) && rg > 0.0 && D >= 0.0
    ensures QSplice(m, rg, D) * QSplice(m, rg, D) * (rg * rg) == 3.0 / 2.0 * D
  {
    var s := m.sqrt(3.0 / 2.0 * D);
    var inv := 1.0 / rg;
    assert s * s == 3.0 / 2.0 * D;
    assert inv * rg == 1.0;
    assert (inv * s) * (inv * s) * (rg * rg) == (inv * rg) * (inv * rg) * (s * s);
  }

  /** At `q_splice` the Porod law, with the source's prefactor, meets the Guinier law:
      both equal G exp(-D/2). */
  lemma PorodMeetsGuinier(m: Transcendentals, rg: real, D: real, G: real)
    requires Lawful(m) && rg > 0.0 && D > 0.0
    ensures QSplice(m, rg, D) > 0.0
    ensures PorodBranch(m, QSplice(m, rg, D), rg, D, G) == G * m.exp(-1.0 / 2.0 * D)
    ensures GuinierBranch(m, QSplice(m, rg, D), rg, G) == G * m.exp(-1.0 / 2.0 * D)
  {
    var qs := QSplice(m, rg, D);
    SplicePower(m, rg, D);
    PowReciprocal(m, rg, D);
    var px := m.pow(3.0 / 2.0 * D, 1.0 / 2.0 * D);
    var e := m.exp(-1.0 / 2.0 * D);
    CancelFactors(G * e, px, m.pow(rg, D), m.pow(1.0 / rg, D));
    SpliceSquare(m, rg, D);
    assert -1.0 / 3.0 * (qs * qs) * (rg * rg) == -1.0 / 3.0 * (qs * qs * (rg * rg));
  }

  /** With G > 0 and a positive exponent, the intensity is positive at every q. */
  lemma GuinierPorodPositive(m: Transcendentals, q: real, rg: real, D: real, G: real)
    requires Lawful(m) && rg > 0.0 && D > 0.0 && G > 0.0
    ensures GuinierPorod(m, q, rg, D, G) > 0.0
  {
    var qs := QSplice(m, rg, D);
    if q > qs {
      PorodMeetsGuinier(m, rg, D, G);
      var pr := m.pow(rg, D);
      var px := m.pow(3.0 / 2.0 * D, 1.0 / 2.0 * D);
      var e := m.exp(-1.0 / 2.0 * D);
      assert G * e > 0.0;
      assert G * e * px > 0.0;
      assert 1.0 / pr > 0.0;
      assert PorodFactor(m, rg, D, G) > 0.0;
      assert 1.0 / m.pow(q, D) > 0.0;
    } else {
      assert G * m.exp(-1.0 / 3.0 * (q * q) * (rg * rg)) > 0.0;
    }
  }

  /** With G >= 0 the intensity is never negative. */
  lemma GuinierPorodNonNegative(m: Transcendentals, q: real, rg: real, D: real, G: real)
    requires Lawful(m) && rg > 0.0 && D >= 0.0 && G >= 0.0
    ensures GuinierPorod(m, q, rg, D, G) >= 0.0
  {
    var qs := QSplice(m, rg, D);
    MulNonNegative(1.0 / rg, m.sqrt(3.0 / 2.0 * D));
    if q > qs {
      var pr := m.pow(rg, D);
      var e := m.exp(-1.0 / 2.0 * D);
      MulNonNegative(G, e);
      if D > 0.0 {
        var px := m.pow(3.0 / 2.0 * D, 1.0 / 2.0 * D);
        MulNonNegative(G * e, px);
      } else {
        assert 1.0 / 2.0 * D == 0.0;
      }
      assert 1.0 / pr > 0.0;
      assert 1.0 / m.pow(q, D) > 0.0;
    } else {
      MulNonNegative(G, m.exp(-1.0 / 3.0 * (q * q) * (rg * rg)));
    }
  }

  // ---------------------------------------------------------------------------
  // spherical_normal_saxs

  /** Volume of a sphere of radius r, `4/3 pi r**3`. */
  function Volume(m: Transcendentals, r: real): real
  {
    4.0 / 3.0 * m.pi * (r * r * r)
  }

  /** The squared form factor `(3 (sin x - x cos x) x**-3)**2` of a sphere of radius r
      at q, with x = q r. */
  function FormFactorSq(m: Transcendentals, q: real, r: real): (f2: real)
    requires q != 0.0 && r > 0.0
    ensures f2 >= 0.0
  {
    var x := q * r;
    var f := 3.0 * (m.sin(x) - x * m.cos(x)) * (1.0 / (x * x * x));
    f * f
  }

  /** The radius grid: standard deviation, step, first radius and bound of the `np.arange`. */
  function SigmaR(r0: real, sigma: real): real { sigma * r0 }
  function Step(r0: real, sigma: real): real { SigmaR(r0, sigma) * 0.02 }
  function RMin(r0: real, sigma: real): real
  {
    var lo := r0 - 5.0 * SigmaR(r0, sigma);
    if lo >= Step(r0, sigma) then lo else Step(r0, sigma)
  }
  function RMax(r0: real, sigma: real): real { r0 + 5.0 * SigmaR(r0, sigma) }

  /** The grid is well formed for a positive radius and width: a positive step, a first
      radius of at least one step, and a non-empty range. */
  lemma GridShape(r0: real, sigma: real)
    requires r0 > 0.0 && sigma > 0.0
    ensures Step(r0, sigma) > 0.0
    ensures RMin(r0, sigma) >= Step(r0, sigma)
    ensures RMax(r0, sigma) > RMin(r0, sigma)
  {
    assert SigmaR(r0, sigma) > 0.0;
  }

  /** `len(np.arange(rmin, rmax, dr))`. */
  function SampleCount(r0: real, sigma: real): (n: nat)
    requires r0 > 0.0 && sigma > 0.0
    ensures n >= 1
  {
    GridShape(r0, sigma);
    var y := (RMax(r0, sigma) - RMin(r0, sigma)) / Step(r0, sigma);
    assert y > 0.0;
    Ceil(y) as nat
  }

  function Radius(r0: real, sigma: real, k: nat): real
  {
    RMin(r0, sigma) + (k as real) * Step(r0, sigma)
  }

  /** The k-th point of `np.arange(lo, hi, dr)`, for k below its length, lies in `[lo, hi)`. */
  lemma ArangePoint(lo: real, hi: real, dr: real, k: nat)
    requires dr > 0.0 && hi > lo && k < Ceil((hi - lo) / dr)
    ensures lo <= lo + (k as real) * dr < hi
  {
    var y := (hi - lo) / dr;
    var kr := k as real;
    assert kr < y by {
      assert (Ceil(y) - 1) as real < y;
    }
    DivMulCancel(hi - lo, dr);
    MulLess(kr, y, dr);
    MulNonNegative(kr, dr);
  }

  /** Every sampled radius lies in `[dr, rmax)`, so it is positive. */
  lemma SampledRadius(r0: real, sigma: real, k: nat)
    requires r0 > 0.0 && sigma > 0.0 && k < SampleCount(r0, sigma)
    ensures Step(r0, sigma) <= Radius(r0, sigma, k) < RMax(r0, sigma)
  {
    GridShape(r0, sigma);
    ArangePoint(RMin(r0, sigma), RMax(r0, sigma), Step(r0, sigma), k);
  }

  /** The exponent `-(r0-r)**2/(2 sigma_r**2)` of the normal density. */
  function DensityExponent(r0: real, sigma: real, r: real): real
    requires r0 > 0.0 && sigma > 0.0
  {
    var sr := SigmaR(r0, sigma);
    MulPositive(sr, sr);
    -1.0 * ((r0 - r) * (r0 - r)) / (2.0 * (sr * sr))
  }

  /** The normal density of radius r, `1/(sqrt(2 pi) sigma_r) exp(-(r0-r)**2/(2 sigma_r**2))`. */
  function Density(m: Transcendentals, r0: real, sigma: real, r: real): real
    requires Lawful(m) && r0 > 0.0 && sigma > 0.0
  {
    var sr := SigmaR(r0, sigma);
    SqrtPositive(m, 2.0 * m.pi);
    MulPositive(m.sqrt(2.0 * m.pi), sr);
    1.0 / (m.sqrt(2.0 * m.pi) * sr) * m.exp(DensityExponent(r0, sigma, r))
  }

  /** The weight `V_ri**2 * rhoi * dr` of the k-th sampled radius. */
  function Weight(m: Transcendentals, r0: real, sigma: real, k: nat): real
    requires Lawful(m) && r0 > 0.0 && sigma > 0.0
  {
    var ri := Radius(r0, sigma, k);
    Pow(Volume(m, ri), 2) * Density(m, r0, sigma, ri) * Step(r0, sigma)
  }

  lemma VolumePositive(m: Transcendentals, r: real)
    requires Lawful(m) && r > 0.0
    ensures Volume(m, r) > 0.0
  {
    assert r * r * r > 0.0;
    assert 4.0 / 3.0 * m.pi > 0.0;
  }

  lemma DensityPositive(m: Transcendentals, r0: real, sigma: real, r: real)
    requires Lawful(m) && r0 > 0.0 && sigma > 0.0
    ensures Density(m, r0, sigma, r) > 0.0
  {
    SqrtPositive(m, 2.0 * m.pi);
    var c := m.sqrt(2.0 * m.pi) * SigmaR(r0, sigma);
    MulPositive(m.sqrt(2.0 * m.pi), SigmaR(r0, sigma));
    MulPositive(1.0 / c, m.exp(DensityExponent(r0, sigma, r)));
  }

  lemma WeightPositive(m: Transcendentals, r0: real, sigma: real, k: nat)
    requires Lawful(m) && r0 > 0.0 && sigma > 0.0 && k < SampleCount(r0, sigma)
    ensures Weight(m, r0, sigma, k) > 0.0
  {
    var ri := Radius(r0, sigma, k);
    SampledRadius(r0, sigma, k);
    GridShape(r0, sigma);
    var v := Volume(m, ri);
    VolumePositive(m, ri);
    DensityPositive(m, r0, sigma, ri);
    PowPositive(v, 2);
    MulPositive(Pow(v, 2), Density(m, r0, sigma, ri));
    MulPositive(Pow(v, 2) * Density(m, r0, sigma, ri), Step(r0, sigma));
  }

  /** `I_zero` after the first n radii. */
  function ZeroWeight(m: Transcendentals, r0: real, sigma: real, n: nat): real
    requires Lawful(m) && r0 > 0.0 && sigma > 0.0
  {
    if n == 0 then 0.0 else ZeroWeight(m, r0, sigma, n - 1) + Weight(m, r0, sigma, n - 1)
  }

  lemma {:induction false} ZeroWeightPositive(m: Transcendentals, r0: real, sigma: real, n: nat)
    requires Lawful(m) && r0 > 0.0 && sigma > 0.0 && 1 <= n <= SampleCount(r0, sigma)
    ensures ZeroWeight(m, r0, sigma, n) > 0.0
  {
    WeightPositive(m, r0, sigma, n - 1);
    if n > 1 {
      ZeroWeightPositive(m, r0, sigma, n - 1);
    }
  }

  /** `I[q]` for a nonzero q after the first n radii. */
  function WeightedFormFactor(m: Transcendentals, q: real, r0: real, sigma: real, n: nat): real
    requires Lawful(m) && r0 > 0.0 && sigma > 0.0 && q != 0.0 && n <= SampleCount(r0, sigma)
  {
    if n == 0 then 0.0
    else
      SampledRadius(r0, sigma, n - 1);
      WeightedFormFactor(m, q, r0, sigma, n - 1) + Contribution(m, q, r0, sigma, n - 1)
  }

  /** What the k-th radius adds to `I[q]`: `V_ri**2 * rhoi * dr * (3 (sin x - x cos x) x**-3)**2`. */
  function Contribution(m: Transcendentals, q: real, r0: real, sigma: real, k: nat): real
    requires Lawful(m) && r0 > 0.0 && sigma > 0.0 && q != 0.0 && k < SampleCount(r0, sigma)
  {
    SampledRadius(r0, sigma, k);
    Weight(m, r0, sigma, k) * FormFactorSq(m, q, Radius(r0, sigma, k))
  }

  lemma {:induction false} WeightedFormFactorNonNegative(m: Transcendentals, q: real, r0: real, sigma: real, n: nat)
    requires Lawful(m) && r0 > 0.0 && sigma > 0.0 && q != 0.0 && n <= SampleCount(r0, sigma)
    ensures WeightedFormFactor(m, q, r0, sigma, n) >= 0.0
  {
    if n > 0 {
      WeightedFormFactorNonNegative(m, q, r0, sigma, n - 1);
      WeightPositive(m, r0, sigma, n - 1);
      SampledRadius(r0, sigma, n - 1);
      var f := FormFactorSq(m, q, Radius(r0, sigma, n - 1));
      MulNonNegative(Weight(m, r0, sigma, n - 1), f);
      assert Contribution(m, q, r0, sigma, n - 1) >= 0.0;
    }
  }

  /** The normalised intensity of the population at one q: 1 at q = 0; the form factor of
      radius r0 for a width below 1e-9; otherwise the weighted mean of the sampled form factors. */
  function SphereIntensity(m: Transcendentals, q: real, r0: real, sigma: real): real
    requires Lawful(m) && r0 > 0.0
  {
    if q == 0.0 then 1.0
    else if sigma < 0.000000001 then FormFactorSq(m, q, r0)
    else
      var n := SampleCount(r0, sigma);
      ZeroWeightPositive(m, r0, sigma, n);
      WeightedFormFactor(m, q, r0, sigma, n) / ZeroWeight(m, r0, sigma, n)
  }

  /** The population's intensity is never negative. */
  lemma SphereIntensityNonNegative(m: Transcendentals, q: real, r0: real, sigma: real)
    requires Lawful(m) && r0 > 0.0
    ensures SphereIntensity(m, q, r0, sigma) >= 0.0
  {
    if q != 0.0 && sigma >= 0.000000001 {
      var n := SampleCount(r0, sigma);
      ZeroWeightPositive(m, r0, sigma, n);
      WeightedFormFactorNonNegative(m, q, r0, sigma, n);
      DivNonNegative(WeightedFormFactor(m, q, r0, sigma, n), ZeroWeight(m, r0, sigma, n));
    }
  }

  /** The radius loop of `spherical_normal_saxs`: `I_zero` and, at nonzero q, the
      weighted form factors, summed over the grid. */
  method SampleRadii(m: Transcendentals, q: seq<real>, r0: real, sigma: real) returns (I: seq<real>, iZero: real)
    requires Lawful(m) && r0 > 0.0 && sigma > 0.0
    ensures iZero == ZeroWeight(m, r0, sigma, SampleCount(r0, sigma))
    ensures |I| == |q|
    ensures forall j :: 0 <= j < |q| ==>
      I[j] == if q[j] != 0.0 then WeightedFormFactor(m, q[j], r0, sigma, SampleCount(r0, sigma)) else 0.0
  {
    I := seq(|q|, j => 0.0);
    var n := SampleCount(r0, sigma);
    iZero := 0.0;
    assert I == FormFactorTotals(m, q, r0, sigma, 0);
    for k := 0 to n
      invariant iZero == ZeroWeight(m, r0, sigma, k)
      invariant I == FormFactorTotals(m, q, r0, sigma, k)
    {
      SampledRadius(r0, sigma, k);
      iZero := iZero + Weight(m, r0, sigma, k);
      RadiusStep(m, q, r0, sigma, k);
      I := AddContributions(m, q, r0, sigma, k, I);
    }
  }

  /** `I[q_nz] += ...`: radius k's weighted form factor added at every nonzero q. */
  function AddContributions(m: Transcendentals, q: seq<real>, r0: real, sigma: real, k: nat, I: seq<real>): (next: seq<real>)
    requires Lawful(m) && r0 > 0.0 && sigma > 0.0 && k < SampleCount(r0, sigma) && |I| == |q|
    ensures |next| == |q|
  {
    seq(|q|, j requires 0 <= j < |q| =>
      if q[j] != 0.0 then I[j] + Contribution(m, q[j], r0, sigma, k) else I[j])
  }

  /** The running weighted form factors over the first n radii, 0 at q = 0. */
  function FormFactorTotals(m: Transcendentals, q: seq<real>, r0: real, sigma: real, n: nat): (t: seq<real>)
    requires Lawful(m) && r0 > 0.0 && sigma > 0.0 && n <= SampleCount(r0, sigma)
    ensures |t| == |q|
    ensures forall j :: 0 <= j < |q| ==>
      t[j] == if q[j] != 0.0 then WeightedFormFactor(m, q[j], r0, sigma, n) else 0.0
  {
    seq(|q|, j requires 0 <= j < |q| =>
      if q[j] != 0.0 then WeightedFormFactor(m, q[j], r0, sigma, n) else 0.0)
  }

  /** Adding radius k's contributions at the nonzero q turns the totals over the first k
      radii into the totals over the first k + 1. */
  lemma RadiusStep(m: Transcendentals, q: seq<real>, r0: real, sigma: real, k: nat)
    requires Lawful(m) && r0 > 0.0 && sigma > 0.0 && k < SampleCount(r0, sigma)
    ensures AddContributions(m, q, r0, sigma, k, FormFactorTotals(m, q, r0, sigma, k)) ==
      FormFactorTotals(m, q, r0, sigma, k + 1)
  {
    var next := AddContributions(m, q, r0, sigma, k, FormFactorTotals(m, q, r0, sigma, k));
    var t := FormFactorTotals(m, q, r0, sigma, k + 1);
    forall j | 0 <= j < |q| ensures next[j] == t[j] {
    }
  }

  /** The branch `sigma < 1E-9` of `spherical_normal_saxs`: the form factor of one radius,
      weighted by `V_r0**2`, with `I_zero = V_r0**2`. */
  method SharpSphere(m: Transcendentals, q: seq<real>, r0: real) returns (I: seq<real>, iZero: real)
    requires Lawful(m) && r0 > 0.0
    ensures iZero == Pow(Volume(m, r0), 2)
    ensures |I| == |q|
    ensures forall j :: 0 <= j < |q| ==> I[j] == if q[j] != 0.0 then iZero * FormFactorSq(m, q[j], r0) else 0.0
  {
    var v := Volume(m, r0);
    iZero := Pow(v, 2);
    I := seq(|q|, j requires 0 <= j < |q| => if q[j] != 0.0 then iZero * FormFactorSq(m, q[j], r0) else 0.0);
  }

  /** Before the division by `I_zero`: a positive `I_zero`, and at each nonzero q an entry
      whose quotient by it is the population's intensity. */
  predicate Unnormalised(m: Transcendentals, q: seq<real>, r0: real, sigma: real, I: seq<real>, iZero: real)
    requires Lawful(m) && r0 > 0.0
  {
    && iZero > 0.0 && |I| == |q|
    && forall j :: 0 <= j < |q| && q[j] != 0.0 ==> I[j] / iZero == SphereIntensity(m, q[j], r0, sigma)
  }

  /** The sharp branch leaves an unnormalised profile. */
  lemma SharpUnnormalised(m: Transcendentals, q: seq<real>, r0: real, sigma: real, I: seq<real>, iZero: real)
    requires Lawful(m) && r0 > 0.0 && sigma < 0.000000001
    requires iZero == Pow(Volume(m, r0), 2) && |I| == |q|
    requires forall j :: 0 <= j < |q| ==> I[j] == if q[j] != 0.0 then iZero * FormFactorSq(m, q[j], r0) else 0.0
    ensures Unnormalised(m, q, r0, sigma, I, iZero)
  {
    VolumePositive(m, r0);
    PowPositive(Volume(m, r0), 2);
    forall j | 0 <= j < |q| && q[j] != 0.0 ensures I[j] / iZero == SphereIntensity(m, q[j], r0, sigma) {
      MulDivCancel(iZero, FormFactorSq(m, q[j], r0));
    }
  }

  /** The sampled branch leaves an unnormalised profile. */
  lemma SampledUnnormalised(m: Transcendentals, q: seq<real>, r0: real, sigma: real, I: seq<real>, iZero: real)
    requires Lawful(m) && r0 > 0.0 && sigma >= 0.000000001
    requires iZero == ZeroWeight(m, r0, sigma, SampleCount(r0, sigma)) && |I| == |q|
    requires forall j :: 0 <= j < |q| ==>
      I[j] == if q[j] != 0.0 then WeightedFormFactor(m, q[j], r0, sigma, SampleCount(r0, sigma)) else 0.0
    ensures Unnormalised(m, q, r0, sigma, I, iZero)
  {
    ZeroWeightPositive(m, r0, sigma, SampleCount(r0, sigma));
  }

  /** `spherical_normal_saxs`: the radius loop accumulates `I_zero` and the weighted form
      factors at nonzero q, the q = 0 entries are set to `I_zero`, and all is divided by it. */
  method SphericalNormalSaxs(m: Transcendentals, q: seq<real>, r0: real, sigma: real) returns (I: seq<real>)
    requires Lawful(m) && r0 > 0.0
    ensures |I| == |q|
    ensures forall j :: 0 <= j < |q| && q[j] == 0.0 ==> I[j] == 1.0
    ensures forall j :: 0 <= j < |q| ==> I[j] == SphereIntensity(m, q[j], r0, sigma)
  {
    var iZero: real;
    if sigma < 0.000000001 {
      I, iZero := SharpSphere(m, q, r0);
      SharpUnnormalised(m, q, r0, sigma, I, iZero);
    } else {
      I, iZero := SampleRadii(m, q, r0, sigma);
      SampledUnnormalised(m, q, r0, sigma, I, iZero);
    }
    assert Unnormalised(m, q, r0, sigma, I, iZero);
    var accumulated := I;
    if exists j :: 0 <= j < |q| && q[j] == 0.0 {
      var prev := I;
      I := seq(|q|, j requires 0 <= j < |q| => if q[j] == 0.0 then iZero else prev[j]);
    }
    var unscaled := I;
    I := seq(|q|, j requires 0 <= j < |q| => unscaled[j] / iZero);
    forall j | 0 <= j < |q| ensures I[j] == SphereIntensity(m, q[j], r0, sigma) {
      if q[j] == 0.0 {
        assert unscaled[j] == iZero;
        DivSelf(iZero);
      } else {
        assert unscaled[j] == accumulated[j];
      }
    }
  }

  // ---------------------------------------------------------------------------
  // compute_saxs

  /** `guinier_porod` on an array: every q lands in exactly one of the two branches. */
  function GuinierPorodProfile(m: Transcendentals, q: seq<real>, rg: real, D: real, G: real): (I: seq<real>)
    requires Lawful(m) && rg > 0.0 && D >= 0.0
    ensures |I| == |q|
    ensures forall j :: 0 <= j < |q| && q[j] <= QSplice(m, rg, D) ==> I[j] == GuinierBranch(m, q[j], rg, G)
    ensures forall j :: 0 <= j < |q| && q[j] > QSplice(m, rg, D) ==>
      q[j] > 0.0 && I[j] == PorodBranch(m, q[j], rg, D, G)
  {
    MulNonNegative(1.0 / rg, m.sqrt(3.0 / 2.0 * D));
    seq(|q|, j requires 0 <= j < |q| => GuinierPorod(m, q[j], rg, D, G))
  }

  /** Python's truth value of a population count, and the length of `range(n)`. */
  function Count(n: int): nat
  {
    if n > 0 then n else 0
  }

  /** The parameters inside the domain of the scattering laws, which is where the
      `param_limits` of saxs_fit.py keep them: radii of gyration and sphere radii
      positive and Porod exponents non-negative. A size spread of any sign is in the
      domain: one below 1e-9 takes the sharp-sphere branch. */
  predicate AllSatisfy(params: OrderedDict<string, ParamValue>, key: string, strict: bool)
  {
    Lookup(params, key).Success? ==>
      var xs := Flatten(Lookup(params, key).value);
      forall i :: 0 <= i < |xs| ==> (if strict then xs[i] > 0.0 else xs[i] >= 0.0)
  }

  predicate PhysicalParams(params: OrderedDict<string, ParamValue>)
  {
    && AllSatisfy(params, "rg_gp", true)
    && AllSatisfy(params, "D_gp", false)
    && AllSatisfy(params, "r0_sphere", true)
  }

  /** `I0_floor*np.ones(len(q))` under numpy broadcasting: a float or a one-element list
      fills the array, a list of length `len(q)` is taken as is, any other list raises. */
  function FloorProfile(v: ParamValue, n: nat): (r: Result<seq<real>>)
    ensures r.Failure? <==> v.List? && |v.xs| != 1 && |v.xs| != n
    ensures r.Failure? ==> r.error == ValueError
    ensures r.Success? ==> |r.value| == n
    ensures r.Success? && v.Scalar? ==> forall j :: 0 <= j < n ==> r.value[j] == v.x
    ensures r.Success? && v.List? ==> forall j :: 0 <= j < n ==> r.value[j] in v.xs
    ensures r.Success? && v.List? ==> r.value == if |v.xs| == 1 then seq(n, _ => v.xs[0]) else v.xs
  {
    match v
    case Scalar(x) => Success(seq(n, _ => x))
    case List(xs) =>
      if |xs| == 1 then Success(seq(n, _ => xs[0]))
      else if |xs| == n then Success(xs)
      else Failure(ValueError)
  }

  /** The three per-population parameter lists of one scatterer kind, looked up in order
      when the count is nonzero (KeyError for the first one missing), each a list of at
      least `count` entries (IndexError otherwise). */
  function PopulationLists(params: OrderedDict<string, ParamValue>, n: int, k1: string, k2: string, k3: string):
    (r: Result<(seq<real>, seq<real>, seq<real>)>)
    ensures n == 0 ==> r == Success(([], [], []))
    ensures n != 0 && !HasKey(params, k1) ==> r == Failure(KeyError(k1))
    ensures r.Failure? ==> r.error in {KeyError(k1), KeyError(k2), KeyError(k3), IndexError}
    ensures r.Success? && n != 0 ==> HasKey(params, k1) && HasKey(params, k2) && HasKey(params, k3)
    ensures r.Success? && n != 0 ==> r.value == (Flatten(Lookup(params, k1).value),
      Flatten(Lookup(params, k2).value), Flatten(Lookup(params, k3).value))
    ensures r.Success? ==> Count(n) <= |r.value.0| && Count(n) <= |r.value.1| && Count(n) <= |r.value.2|
    ensures n != 0 && HasKey(params, k1) && HasKey(params, k2) && HasKey(params, k3) ==>
      (r.Failure? <==>
         (Count(n) > |Flatten(Lookup(params, k1).value)|
          || Count(n) > |Flatten(Lookup(params, k2).value)|
          || Count(n) > |Flatten(Lookup(params, k3).value)|))
  {
    if n == 0 then Success(([], [], []))
    else
      var a :- Lookup(params, k1);
      var b :- Lookup(params, k2);
      var c :- Lookup(params, k3);
      var xs, ys, zs := Flatten(a), Flatten(b), Flatten(c);
      if Count(n) <= |xs| && Count(n) <= |ys| && Count(n) <= |zs| then Success((xs, ys, zs))
      else Failure(IndexError)
  }

  /** `rg_gp`, `G_gp` and `D_gp`, as used by the first `n_gp` Guinier-Porod populations. */
  function GpLists(params: OrderedDict<string, ParamValue>, n: int): (r: Result<(seq<real>, seq<real>, seq<real>)>)
    requires PhysicalParams(params)
    ensures r == PopulationLists(params, n, "rg_gp", "G_gp", "D_gp")
    ensures r.Success? ==> forall i :: 0 <= i < Count(n) ==> r.value.0[i] > 0.0 && r.value.2[i] >= 0.0
  {
    PopulationLists(params, n, "rg_gp", "G_gp", "D_gp")
  }

  /** `I0_sphere`, `r0_sphere` and `sigma_sphere`, as used by the first `n_sph` sphere populations. */
  function SphereLists(params: OrderedDict<string, ParamValue>, n: int): (r: Result<(seq<real>, seq<real>, seq<real>)>)
    requires PhysicalParams(params)
    ensures r == PopulationLists(params, n, "I0_sphere", "r0_sphere", "sigma_sphere")
    ensures r.Success? ==> forall i :: 0 <= i < Count(n) ==> r.value.1[i] > 0.0
  {
    PopulationLists(params, n, "I0_sphere", "r0_sphere", "sigma_sphere")
  }

  /** The sum over the first n Guinier-Porod populations at one q. */
  function GpSum(m: Transcendentals, q: real, rg: seq<real>, D: seq<real>, G: seq<real>, n: nat): real
    requires Lawful(m) && n <= |rg| && n <= |D| && n <= |G|
    requires forall i :: 0 <= i < n ==> rg[i] > 0.0 && D[i] >= 0.0
  {
    if n == 0 then 0.0
    else GpSum(m, q, rg, D, G, n - 1) + GuinierPorod(m, q, rg[n - 1], D[n - 1], G[n - 1])
  }

  /** The sum over the first n sphere populations at one q, each scaled by its `I0_sphere`. */
  function SphereSum(m: Transcendentals, q: real, I0: seq<real>, r0: seq<real>, sigma: seq<real>, n: nat): real
    requires Lawful(m) && n <= |I0| && n <= |r0| && n <= |sigma|
    requires forall i :: 0 <= i < n ==> r0[i] > 0.0
  {
    if n == 0 then 0.0
    else SphereSum(m, q, I0, r0, sigma, n - 1) + Mul(I0[n - 1], SphereIntensity(m, q, r0[n - 1], sigma[n - 1]))
  }

  /** What `compute_saxs(q, populations, params)` returns or raises. */
  function ComputeSaxsSpec(m: Transcendentals, q: seq<real>, populations: OrderedDict<string, int>,
                           params: OrderedDict<string, ParamValue>): (r: Result<seq<real>>)
    requires Lawful(m) && PhysicalParams(params)
    ensures r.Success? ==> |r.value| == |q|
  {
    var skip :- SkipFlag(populations);
    if skip then Success(seq(|q|, _ => 0.0))
    else
      var nGp :- Lookup(populations, "guinier_porod");
      var nSph :- Lookup(populations, "spherical_normal");
      var floorValue :- Lookup(params, "I0_floor");
      var floor :- FloorProfile(floorValue, |q|);
      var gp :- GpLists(params, nGp);
      var sph :- SphereLists(params, nSph);
      Success(Superpose(m, q, floor, gp.0, gp.2, gp.1, Count(nGp), sph.0, sph.1, sph.2, Count(nSph)))
  }

  /** The floor plus the Guinier-Porod and sphere terms at every q. */
  function Superpose(m: Transcendentals, q: seq<real>, floor: seq<real>,
                     rg: seq<real>, D: seq<real>, G: seq<real>, nGp: nat,
                     I0: seq<real>, r0: seq<real>, sigma: seq<real>, nSph: nat): (I: seq<real>)
    requires Lawful(m) && |floor| == |q|
    requires nGp <= |rg| && nGp <= |D| && nGp <= |G|
    requires forall i :: 0 <= i < nGp ==> rg[i] > 0.0 && D[i] >= 0.0
    requires nSph <= |I0| && nSph <= |r0| && nSph <= |sigma|
    requires forall i :: 0 <= i < nSph ==> r0[i] > 0.0
    ensures |I| == |q|
  {
    seq(|q|, j requires 0 <= j < |q| =>
      floor[j] + GpSum(m, q[j], rg, D, G, nGp) + SphereSum(m, q[j], I0, r0, sigma, nSph))
  }

  /** The `for igp in range(n_gp)` loop: one `guinier_porod` profile per population,
      raising IndexError at the first population a list has no entry for. */
  method AccumulateGuinierPorod(m: Transcendentals, q: seq<real>, I: seq<real>,
                                rg: seq<real>, G: seq<real>, D: seq<real>, count: nat) returns (r: Result<seq<real>>)
    requires Lawful(m) && |I| == |q|
    requires forall k :: 0 <= k < |rg| ==> rg[k] > 0.0
    requires forall k :: 0 <= k < |D| ==> D[k] >= 0.0
    ensures r.Failure? <==> count > |rg| || count > |G| || count > |D|
    ensures r.Failure? ==> r.error == IndexError
    ensures r.Success? ==> |r.value| == |q|
    ensures r.Success? ==> forall j :: 0 <= j < |q| ==> r.value[j] == I[j] + GpSum(m, q[j], rg, D, G, count)
  {
    var acc := I;
    assert acc == GpTotals(m, q, I, rg, D, G, 0);
    for i := 0 to count
      invariant i <= |rg| && i <= |G| && i <= |D|
      invariant acc == GpTotals(m, q, I, rg, D, G, i)
    {
      if i >= |rg| || i >= |D| || i >= |G| {
        return Failure(IndexError);
      }
      var profile := GuinierPorodProfile(m, q, rg[i], D[i], G[i]);
      var prev := acc;
      acc := seq(|q|, j requires 0 <= j < |q| => prev[j] + profile[j]);
      GuinierPorodStep(m, q, I, rg, D, G, i, prev, profile, acc);
    }
    return Success(acc);
  }

  /** The running totals after the first n Guinier-Porod populations. */
  function GpTotals(m: Transcendentals, q: seq<real>, I: seq<real>, rg: seq<real>, D: seq<real>,
                    G: seq<real>, n: nat): (t: seq<real>)
    requires Lawful(m) && |I| == |q| && n <= |rg| && n <= |D| && n <= |G|
    requires forall k :: 0 <= k < |rg| ==> rg[k] > 0.0
    requires forall k :: 0 <= k < |D| ==> D[k] >= 0.0
    ensures |t| == |q|
    ensures forall j :: 0 <= j < |q| ==> t[j] == I[j] + GpSum(m, q[j], rg, D, G, n)
  {
    seq(|q|, j requires 0 <= j < |q| => I[j] + GpSum(m, q[j], rg, D, G, n))
  }

  /** Adding population i's profile extends the totals to the first i + 1. */
  lemma GuinierPorodStep(m: Transcendentals, q: seq<real>, I: seq<real>, rg: seq<real>, D: seq<real>,
                         G: seq<real>, i: nat, prev: seq<real>, profile: seq<real>, next: seq<real>)
    requires Lawful(m) && |I| == |q| && i < |rg| && i < |G| && i < |D|
    requires forall k :: 0 <= k < |rg| ==> rg[k] > 0.0
    requires forall k :: 0 <= k < |D| ==> D[k] >= 0.0
    requires prev == GpTotals(m, q, I, rg, D, G, i)
    requires profile == GuinierPorodProfile(m, q, rg[i], D[i], G[i])
    requires |next| == |q| && forall j :: 0 <= j < |q| ==> next[j] == prev[j] + profile[j]
    ensures next == GpTotals(m, q, I, rg, D, G, i + 1)
  {
    var t := GpTotals(m, q, I, rg, D, G, i + 1);
    forall j | 0 <= j < |q| ensures next[j] == t[j] {
      assert profile[j] == GuinierPorod(m, q[j], rg[i], D[i], G[i]);
    }
  }

  /** The `if n_gp:` block of `compute_saxs`: look up the three lists, then add one
      `guinier_porod` profile per population. */
  method AddGuinierPorod(m: Transcendentals, q: seq<real>, I: seq<real>,
                         params: OrderedDict<string, ParamValue>, n: int) returns (r: Result<seq<real>>)
    requires Lawful(m) && PhysicalParams(params) && |I| == |q|
    ensures r.Failure? <==> GpLists(params, n).Failure?
    ensures r.Failure? ==> r.error == GpLists(params, n).error
    ensures r.Success? ==> |r.value| == |q|
    ensures r.Success? ==> var (rg, G, D) := GpLists(params, n).value;
      forall j :: 0 <= j < |q| ==> r.value[j] == I[j] + GpSum(m, q[j], rg, D, G, Count(n))
  {
    if n == 0 {
      return Success(I);
    }
    var rgValue :- Lookup(params, "rg_gp");
    var GValue :- Lookup(params, "G_gp");
    var DValue :- Lookup(params, "D_gp");
    r := AccumulateGuinierPorod(m, q, I, Flatten(rgValue), Flatten(GValue), Flatten(DValue), Count(n));
  }

  /** The `for isph in range(n_sph)` loop: add `I0_sphere[i] * spherical_normal_saxs(q,
      r0_sphere[i], sigma_sphere[i])` per population, raising IndexError at the first
      population a list has no entry for. */
  method AccumulateSpheres(m: Transcendentals, q: seq<real>, I: seq<real>,
                           I0: seq<real>, r0: seq<real>, sigma: seq<real>, count: nat) returns (r: Result<seq<real>>)
    requires Lawful(m) && |I| == |q|
    requires forall k :: 0 <= k < |r0| ==> r0[k] > 0.0
    ensures r.Failure? <==> count > |I0| || count > |r0| || count > |sigma|
    ensures r.Failure? ==> r.error == IndexError
    ensures r.Success? ==> |r.value| == |q|
    ensures r.Success? ==> forall j :: 0 <= j < |q| ==> r.value[j] == I[j] + SphereSum(m, q[j], I0, r0, sigma, count)
  {
    var acc := I;
    assert acc == SphereTotals(m, q, I, I0, r0, sigma, 0);
    for i := 0 to count
      invariant i <= |I0| && i <= |r0| && i <= |sigma|
      invariant acc == SphereTotals(m, q, I, I0, r0, sigma, i)
    {
      if i >= |r0| || i >= |sigma| || i >= |I0| {
        return Failure(IndexError);
      }
      var profile := SphericalNormalSaxs(m, q, r0[i], sigma[i]);
      var prev := acc;
      acc := seq(|q|, j requires 0 <= j < |q| => prev[j] + Mul(I0[i], profile[j]));
      SphereStep(m, q, I, I0, r0, sigma, i, prev, profile, acc);
    }
    return Success(acc);
  }

  /** The running totals after the first n sphere populations. */
  function SphereTotals(m: Transcendentals, q: seq<real>, I: seq<real>, I0: seq<real>, r0: seq<real>,
                        sigma: seq<real>, n: nat): (t: seq<real>)
    requires Lawful(m) && |I| == |q| && n <= |I0| && n <= |r0| && n <= |sigma|
    requires forall k :: 0 <= k < |r0| ==> r0[k] > 0.0
    ensures |t| == |q|
    ensures forall j :: 0 <= j < |q| ==> t[j] == I[j] + SphereSum(m, q[j], I0, r0, sigma, n)
  {
    seq(|q|, j requires 0 <= j < |q| => I[j] + SphereSum(m, q[j], I0, r0, sigma, n))
  }

  /** Adding population i's scaled profile extends the totals to the first i + 1. */
  lemma SphereStep(m: Transcendentals, q: seq<real>, I: seq<real>, I0: seq<real>, r0: seq<real>,
                   sigma: seq<real>, i: nat, prev: seq<real>, profile: seq<real>, next: seq<real>)
    requires Lawful(m) && |I| == |q| && i < |I0| && i < |r0| && i < |sigma|
    requires forall k :: 0 <= k < |r0| ==> r0[k] > 0.0
    requires prev == SphereTotals(m, q, I, I0, r0, sigma, i)
    requires |profile| == |q| && forall j :: 0 <= j < |q| ==> profile[j] == SphereIntensity(m, q[j], r0[i], sigma[i])
    requires |next| == |q| && forall j :: 0 <= j < |q| ==> next[j] == prev[j] + Mul(I0[i], profile[j])
    ensures next == SphereTotals(m, q, I, I0, r0, sigma, i + 1)
  {
    var t := SphereTotals(m, q, I, I0, r0, sigma, i + 1);
    forall j | 0 <= j < |q| ensures next[j] == t[j] {
    }
  }

  /** The `if n_sph:` block of `compute_saxs`: look up the three lists, then add one
      scaled sphere profile per population. */
  method AddSpheres(m: Transcendentals, q: seq<real>, I: seq<real>,
                    params: OrderedDict<string, ParamValue>, n: int) returns (r: Result<seq<real>>)
    requires Lawful(m) && PhysicalParams(params) && |I| == |q|
    ensures r.Failure? <==> SphereLists(params, n).Failure?
    ensures r.Failure? ==> r.error == SphereLists(params, n).error
    ensures r.Success? ==> |r.value| == |q|
    ensures r.Success? ==> var (I0, r0, sigma) := SphereLists(params, n).value;
      forall j :: 0 <= j < |q| ==> r.value[j] == I[j] + SphereSum(m, q[j], I0, r0, sigma, Count(n))
  {
    if n == 0 {
      return Success(I);
    }
    var I0Value :- Lookup(params, "I0_sphere");
    var r0Value :- Lookup(params, "r0_sphere");
    var sigmaValue :- Lookup(params, "sigma_sphere");
    r := AccumulateSpheres(m, q, I, Flatten(I0Value), Flatten(r0Value), Flatten(sigmaValue), Count(n));
  }

  /** `compute_saxs`: zeros when a skip flag is set; otherwise the floor, plus every
      Guinier-Porod population, plus every sphere population. */
  method ComputeSaxs(m: Transcendentals, q: seq<real>, populations: OrderedDict<string, int>,
                     params: OrderedDict<string, ParamValue>) returns (r: Result<seq<real>>)
    requires Lawful(m) && PhysicalParams(params)
    ensures r == ComputeSaxsSpec(m, q, populations, params)
  {
    var skip :- SkipFlag(populations);
    var I := seq(|q|, _ => 0.0);
    if !skip {
      var nGp :- Lookup(populations, "guinier_porod");
      var nSph :- Lookup(populations, "spherical_normal");
      var floorValue :- Lookup(params, "I0_floor");
      var floor :- FloorProfile(floorValue, |q|);
      I := floor;
      I :- AddGuinierPorod(m, q, I, params, nGp);
      ghost var withGp := I;
      I :- AddSpheres(m, q, I, params, nSph);
      ghost var gp := GpLists(params, nGp).value;
      ghost var sph := SphereLists(params, nSph).value;
      SuperposeOfSums(m, q, floor, withGp, I, gp.0, gp.2, gp.1, Count(nGp), sph.0, sph.1, sph.2, Count(nSph));
    }
    return Success(I);
  }

  /** Adding the Guinier-Porod sums to the floor, then the sphere sums, gives the
      superposition. */
  lemma SuperposeOfSums(m: Transcendentals, q: seq<real>, floor: seq<real>, withGp: seq<real>, I: seq<real>,
                        rg: seq<real>, D: seq<real>, G: seq<real>, nGp: nat,
                        I0: seq<real>, r0: seq<real>, sigma: seq<real>, nSph: nat)
    requires Lawful(m) && |floor| == |q| && |withGp| == |q| && |I| == |q|
    requires nGp <= |rg| && nGp <= |D| && nGp <= |G|
    requires forall i :: 0 <= i < nGp ==> rg[i] > 0.0 && D[i] >= 0.0
    requires nSph <= |I0| && nSph <= |r0| && nSph <= |sigma|
    requires forall i :: 0 <= i < nSph ==> r0[i] > 0.0
    requires forall j :: 0 <= j < |q| ==> withGp[j] == floor[j] + GpSum(m, q[j], rg, D, G, nGp)
    requires forall j :: 0 <= j < |q| ==> I[j] == withGp[j] + SphereSum(m, q[j], I0, r0, sigma, nSph)
    ensures I == Superpose(m, q, floor, rg, D, G, nGp, I0, r0, sigma, nSph)
  {
    var spec := Superpose(m, q, floor, rg, D, G, nGp, I0, r0, sigma, nSph);
    assert forall j :: 0 <= j < |q| ==> I[j] == spec[j];
  }

  /** With a skip flag set, `compute_saxs` returns `len(q)` zeros: no floor and no population. */
  lemma ComputeSaxsSkipped(m: Transcendentals, q: seq<real>, populations: OrderedDict<string, int>,
                           params: OrderedDict<string, ParamValue>)
    requires Lawful(m) && PhysicalParams(params)
    requires SkipFlag(populations) == Success(true)
    ensures ComputeSaxsSpec(m, q, populations, params).Success?
    ensures var I := ComputeSaxsSpec(m, q, populations, params).value;
      |I| == |q| && forall j :: 0 <= j < |q| ==> I[j] == 0.0
  {
  }

  /** Without a skip flag, the first missing key is reported in source order: the two
      population counts, then `I0_floor`. */
  lemma ComputeSaxsMissingKey(m: Transcendentals, q: seq<real>, populations: OrderedDict<string, int>,
                              params: OrderedDict<string, ParamValue>)
    requires Lawful(m) && PhysicalParams(params)
    requires SkipFlag(populations) == Success(false)
    ensures !HasKey(populations, "guinier_porod") ==>
      ComputeSaxsSpec(m, q, populations, params) == Failure(KeyError("guinier_porod"))
    ensures HasKey(populations, "guinier_porod") && !HasKey(populations, "spherical_normal") ==>
      ComputeSaxsSpec(m, q, populations, params) == Failure(KeyError("spherical_normal"))
    ensures (HasKey(populations, "guinier_porod") && HasKey(populations, "spherical_normal")
             && !HasKey(params, "I0_floor")) ==>
      ComputeSaxsSpec(m, q, populations, params) == Failure(KeyError("I0_floor"))
  {
  }

  function SumFirst(xs: seq<real>, n: nat): real
    requires n <= |xs|
  {
    Sum(xs[..n])
  }

  lemma {:induction false} GpSumAtZero(m: Transcendentals, rg: seq<real>, D: seq<real>, G: seq<real>, n: nat)
    requires Lawful(m) && n <= |rg| && n <= |D| && n <= |G|
    requires forall i :: 0 <= i < n ==> rg[i] > 0.0 && D[i] >= 0.0
    ensures GpSum(m, 0.0, rg, D, G, n) == SumFirst(G, n)
  {
    if n > 0 {
      GpSumAtZero(m, rg, D, G, n - 1);
      GuinierPorodAtZero(m, rg[n - 1], D[n - 1], G[n - 1]);
      assert G[..n][..n - 1] == G[..n - 1];
    }
  }

  lemma {:induction false} SphereSumAtZero(m: Transcendentals, I0: seq<real>, r0: seq<real>, sigma: seq<real>, n: nat)
    requires Lawful(m) && n <= |I0| && n <= |r0| && n <= |sigma|
    requires forall i :: 0 <= i < n ==> r0[i] > 0.0
    ensures SphereSum(m, 0.0, I0, r0, sigma, n) == SumFirst(I0, n)
  {
    if n > 0 {
      SphereSumAtZero(m, I0, r0, sigma, n - 1);
      assert I0[..n][..n - 1] == I0[..n - 1];
    }
  }

  /** At q = 0 every Guinier-Porod population contributes its G and every sphere
      population its `I0_sphere`, on top of the floor. */
  lemma ComputeSaxsAtZero(m: Transcendentals, q: seq<real>, populations: OrderedDict<string, int>,
                          params: OrderedDict<string, ParamValue>, j: nat)
    requires Lawful(m) && PhysicalParams(params)
    requires SkipFlag(populations) == Success(false)
    requires ComputeSaxsSpec(m, q, populations, params).Success?
    requires j < |q| && q[j] == 0.0
    ensures HasKey(populations, "guinier_porod") && HasKey(populations, "spherical_normal")
    ensures HasKey(params, "I0_floor")
    ensures var nGp := Lookup(populations, "guinier_porod").value;
      var nSph := Lookup(populations, "spherical_normal").value;
      && GpLists(params, nGp).Success? && SphereLists(params, nSph).Success?
      && FloorProfile(Lookup(params, "I0_floor").value, |q|).Success?
      && ComputeSaxsSpec(m, q, populations, params).value[j]
         == FloorProfile(Lookup(params, "I0_floor").value, |q|).value[j]
            + SumFirst(GpLists(params, nGp).value.1, Count(nGp))
            + SumFirst(SphereLists(params, nSph).value.0, Count(nSph))
  {
    var nGp := Lookup(populations, "guinier_porod").value;
    var nSph := Lookup(populations, "spherical_normal").value;
    var gp := GpLists(params, nGp).value;
    var sph := SphereLists(params, nSph).value;
    GpSumAtZero(m, gp.0, gp.2, gp.1, Count(nGp));
    SphereSumAtZero(m, sph.0, sph.1, sph.2, Count(nSph));
  }

  lemma {:induction false} GpSumNonNegative(m: Transcendentals, q: real, rg: seq<real>, D: seq<real>, G: seq<real>, n: nat)
    requires Lawful(m) && n <= |rg| && n <= |D| && n <= |G|
    requires forall i :: 0 <= i < n ==> rg[i] > 0.0 && D[i] >= 0.0 && G[i] >= 0.0
    ensures GpSum(m, q, rg, D, G, n) >= 0.0
  {
    if n > 0 {
      GpSumNonNegative(m, q, rg, D, G, n - 1);
      GuinierPorodNonNegative(m, q, rg[n - 1], D[n - 1], G[n - 1]);
    }
  }

  lemma {:induction false} SphereSumNonNegative(m: Transcendentals, q: real, I0: seq<real>, r0: seq<real>, sigma: seq<real>, n: nat)
    requires Lawful(m) && n <= |I0| && n <= |r0| && n <= |sigma|
    requires forall i :: 0 <= i < n ==> I0[i] >= 0.0 && r0[i] > 0.0
    ensures SphereSum(m, q, I0, r0, sigma, n) >= 0.0
  {
    if n > 0 {
      SphereSumNonNegative(m, q, I0, r0, sigma, n - 1);
      SphereIntensityNonNegative(m, q, r0[n - 1], sigma[n - 1]);
      MulNonNegative(I0[n - 1], SphereIntensity(m, q, r0[n - 1], sigma[n - 1]));
    }
  }

  /** With a non-negative floor, Guinier factors and sphere intensities, the computed
      intensity is non-negative everywhere. */
  lemma ComputeSaxsNonNegative(m: Transcendentals, q: seq<real>, populations: OrderedDict<string, int>,
                               params: OrderedDict<string, ParamValue>)
    requires Lawful(m) && PhysicalParams(params)
    requires AllSatisfy(params, "I0_floor", false) && AllSatisfy(params, "G_gp", false)
    requires AllSatisfy(params, "I0_sphere", false)
    requires ComputeSaxsSpec(m, q, populations, params).Success?
    ensures forall j :: 0 <= j < |q| ==> ComputeSaxsSpec(m, q, populations, params).value[j] >= 0.0
  {
    if SkipFlag(populations) == Success(false) {
      var nGp := Lookup(populations, "guinier_porod").value;
      var nSph := Lookup(populations, "spherical_normal").value;
      var gp := GpLists(params, nGp).value;
      var sph := SphereLists(params, nSph).value;
      var floor := FloorProfile(Lookup(params, "I0_floor").value, |q|).value;
      forall j | 0 <= j < |q| ensures ComputeSaxsSpec(m, q, populations, params).value[j] >= 0.0 {
        GpSumNonNegative(m, q[j], gp.0, gp.2, gp.1, Count(nGp));
        SphereSumNonNegative(m, q[j], sph.0, sph.1, sph.2, Count(nSph));
        var v := Lookup(params, "I0_floor").value;
        if v.List? {
          var i :| 0 <= i < |v.xs| && v.xs[i] == floor[j];
          assert Flatten(v)[i] >= 0.0;
        } else {
          assert Flatten(v)[0] >= 0.0;
        }
      }
    }
  }

  // ---------------------------------------------------------------------------
  // compute_chi2

  /** `(y1 - y2)**2`, elementwise. */
  function SquaredDiffs(y1: seq<real>, y2: seq<real>): (d: seq<real>)
    requires |y1| == |y2|
    ensures |d| == |y1|
    ensures forall i :: 0 <= i < |d| ==> d[i] >= 0.0 && (d[i] == 0.0 <==> y1[i] == y2[i])
  {
    seq(|y1|, i requires 0 <= i < |y1| => Square(y1[i] - y2[i]))
  }

  /** `weights / np.sum(weights)`. */
  function Normalize(w: seq<real>): (u: seq<real>)
    requires Sum(w) != 0.0
    ensures |u| == |w|
  {
    seq(|w|, i requires 0 <= i < |w| => w[i] / Sum(w))
  }

  /** `compute_chi2(y1, y2, weights)`: the plain sum of squared differences, or its
      average under the weights normalised to sum 1. */
  function Chi2(y1: seq<real>, y2: seq<real>, weights: Option<seq<real>>): real
    requires |y1| == |y2|
    requires weights.Some? ==> |weights.value| == |y1| && Sum(weights.value) != 0.0
  {
    match weights
    case None => Sum(SquaredDiffs(y1, y2))
    case Some(w) =>
      var u := Normalize(w);
      var d := SquaredDiffs(y1, y2);
      Sum(seq(|d|, i requires 0 <= i < |d| => Mul(d[i], u[i])))
  }

  /** The normalised weights sum to 1. */
  lemma NormalizeSumsToOne(w: seq<real>)
    requires Sum(w) != 0.0
    ensures Sum(Normalize(w)) == 1.0
  {
    var c := 1.0 / Sum(w);
    forall i | 0 <= i < |w| ensures Normalize(w)[i] == Scale(c, w)[i] {
      assert w[i] / Sum(w) == c * w[i];
    }
    SumPointwise(Normalize(w), Scale(c, w));
    SumScale(c, w);
    DivSelf(Sum(w));
  }

  /** The unweighted chi-squared is never negative, and it is zero exactly when the
      two arrays are equal. */
  lemma Chi2ZeroIffEqual(y1: seq<real>, y2: seq<real>)
    requires |y1| == |y2|
    ensures Chi2(y1, y2, None) >= 0.0
    ensures Chi2(y1, y2, None) == 0.0 <==> y1 == y2
  {
    var d := SquaredDiffs(y1, y2);
    SumNonNegative(d);
    if y1 == y2 {
      SumZeros(d);
    }
    if Sum(d) == 0.0 {
      SumZeroOnlyIfAllZero(d);
      assert forall i :: 0 <= i < |y1| ==> y1[i] == y2[i];
    }
  }

  /** With non-negative weights of positive total the weighted chi-squared is never
      negative, and equal arrays give zero whatever the weights. */
  lemma WeightedChi2Bounds(y1: seq<real>, y2: seq<real>, w: seq<real>)
    requires |y1| == |y2| && |w| == |y1| && Sum(w) != 0.0
    ensures y1 == y2 ==> Chi2(y1, y2, Some(w)) == 0.0
    ensures Sum(w) > 0.0 && (forall i :: 0 <= i < |w| ==> w[i] >= 0.0) ==> Chi2(y1, y2, Some(w)) >= 0.0
  {
    if y1 == y2 {
      WeightedChi2OfEqual(y1, w);
    }
    if Sum(w) > 0.0 && (forall i :: 0 <= i < |w| ==> w[i] >= 0.0) {
      WeightedChi2NonNegative(y1, y2, w);
    }
  }

  lemma WeightedChi2OfEqual(y: seq<real>, w: seq<real>)
    requires |w| == |y| && Sum(w) != 0.0
    ensures Chi2(y, y, Some(w)) == 0.0
  {
    var u := Normalize(w);
    var d := SquaredDiffs(y, y);
    var t := seq(|d|, i requires 0 <= i < |d| => Mul(d[i], u[i]));
    assert forall i :: 0 <= i < |t| ==> t[i] == 0.0;
    SumZeros(t);
  }

  lemma WeightedChi2NonNegative(y1: seq<real>, y2: seq<real>, w: seq<real>)
    requires |y1| == |y2| && |w| == |y1| && Sum(w) > 0.0
    requires forall i :: 0 <= i < |w| ==> w[i] >= 0.0
    ensures Chi2(y1, y2, Some(w)) >= 0.0
  {
    var u := Normalize(w);
    var d := SquaredDiffs(y1, y2);
    var t := seq(|d|, i requires 0 <= i < |d| => Mul(d[i], u[i]));
    forall i | 0 <= i < |t| ensures t[i] >= 0.0 {
      NormalizeAt(w, i);
      WeightedTermNonNegative(d[i], w[i], Sum(w), u[i]);
    }
    SumNonNegative(t);
  }

  lemma WeightedTermNonNegative(x: real, wi: real, total: real, ui: real)
    requires x >= 0.0 && wi >= 0.0 && total > 0.0 && ui == wi / total
    ensures Mul(x, ui) >= 0.0
  {
    DivNonNegative(wi, total);
    MulNonNegative(x, ui);
  }

  /** Scaling every weight by the same nonzero constant leaves the weighted chi-squared
      unchanged, since the weights are normalised first. */
  lemma Chi2WeightScaleInvariant(y1: seq<real>, y2: seq<real>, w: seq<real>, c: real)
    requires |y1| == |y2| && |w| == |y1| && Sum(w) != 0.0 && c != 0.0
    ensures Sum(Scale(c, w)) != 0.0
    ensures Chi2(y1, y2, Some(Scale(c, w))) == Chi2(y1, y2, Some(w))
  {
    NormalizeScale(w, c);
  }

  lemma NormalizeScale(w: seq<real>, c: real)
    requires Sum(w) != 0.0 && c != 0.0
    ensures Sum(Scale(c, w)) != 0.0
    ensures Normalize(Scale(c, w)) == Normalize(w)
  {
    var v := Scale(c, w);
    SumScale(c, w);
    MulNonZero(c, Sum(w));
    RatiosScale(v, w, c, Sum(v), Sum(w));
    assert forall i | 0 <= i < |w| :: Normalize(v)[i] == Normalize(w)[i];
  }

  /** Dividing a scaled sequence by its scaled total gives back the unscaled ratios. */
  lemma RatiosScale(v: seq<real>, w: seq<real>, c: real, sv: real, sw: real)
    requires |v| == |w| && c != 0.0 && sw != 0.0 && sv == c * sw
    requires forall i | 0 <= i < |w| :: v[i] == c * w[i]
    ensures forall i | 0 <= i < |w| :: v[i] / sv == w[i] / sw
  {
    forall i | 0 <= i < |w| ensures v[i] / sv == w[i] / sw {
      CommonFactorRatio(v[i], sv, c, w[i], sw);
    }
  }

  lemma NormalizeAt(w: seq<real>, i: int)
    requires Sum(w) != 0.0 && 0 <= i < |w|
    ensures Normalize(w)[i] == w[i] / Sum(w)
  {
  }

  lemma CommonFactorRatio(x: real, s: real, c: real, y: real, t: real)
    requires c != 0.0 && t != 0.0 && x == c * y && s == c * t
    ensures s != 0.0 && x / s == y / t
  {
    CancelCommonFactor(c, y, t);
  }

  lemma MulNonZero(a: real, b: real)
    requires a != 0.0 && b != 0.0
    ensures a * b != 0.0
  {
  }

  lemma CancelCommonFactor(c: real, x: real, s: real)
    requires c != 0.0 && s != 0.0
    ensures c * s != 0.0 && (c * x) / (c * s) == x / s
  {
  }

  // ---------------------------------------------------------------------------
  // profile_spectrum: the log-intensity fluctuation

  /** `I[I > 0]`: the positive intensities, in order. */
  function PositiveEntries(I: seq<real>): (p: seq<real>)
    ensures |p| <= |I|
    ensures forall k :: 0 <= k < |p| ==> p[k] > 0.0
    ensures forall k :: 0 <= k < |p| ==> p[k] in I
    ensures forall x :: x in I && x > 0.0 ==> x in p
  {
    if I == [] then []
    else
      var rest := PositiveEntries(I[..|I| - 1]);
      if I[|I| - 1] > 0.0 then rest + [I[|I| - 1]] else rest
  }

  /** The positions that `I > 0` selects, in increasing order. */
  function PositiveIndices(I: seq<real>): (idx: seq<nat>)
    ensures forall k :: 0 <= k < |idx| ==> idx[k] < |I|
    ensures forall j, k :: 0 <= j < k < |idx| ==> idx[j] < idx[k]
    ensures forall i :: 0 <= i < |I| ==> (i in idx <==> I[i] > 0.0)
  {
    if I == [] then []
    else
      var rest := PositiveIndices(I[..|I| - 1]);
      if I[|I| - 1] > 0.0 then rest + [|I| - 1] else rest
  }

  /** The boolean mask keeps order and multiplicity: the k-th kept value is the entry at
      the k-th selected position. */
  lemma {:induction false} PositiveEntriesSelect(I: seq<real>)
    ensures |PositiveEntries(I)| == |PositiveIndices(I)|
    ensures forall k :: 0 <= k < |PositiveIndices(I)| ==> PositiveEntries(I)[k] == I[PositiveIndices(I)[k]]
  {
    if I != [] {
      var J := I[..|I| - 1];
      PositiveEntriesSelect(J);
      assert forall i :: 0 <= i < |J| ==> J[i] == I[i];
    }
  }

  /** `logI_nz[1:] - logI_nz[:-1]`: the differences of neighbouring points. */
  function NeighbourDiffs(L: seq<real>): (d: seq<real>)
    requires |L| >= 1
    ensures |d| == |L| - 1
    ensures forall k :: 0 <= k < |d| ==> d[k] == L[k + 1] - L[k]
  {
    seq(|L| - 1, k requires 0 <= k < |L| - 1 => L[k + 1] - L[k])
  }

  /** `idx_keep`: the first difference, and each one whose product with its predecessor
      is negative, that is, where the slope changes sign. */
  predicate Kept(d: seq<real>, k: nat)
    requires k < |d|
  {
    k == 0 || Mul(d[k], d[k - 1]) < 0.0
  }

  /** `np.sum(np.abs(nn_diff[idx_keep]))` over the first n differences. */
  function KeptSum(d: seq<real>, n: nat): real
    requires n <= |d|
  {
    if n == 0 then 0.0 else KeptSum(d, n - 1) + (if Kept(d, n - 1) then Abs(d[n - 1]) else 0.0)
  }

  /** The total variation `sum |d[k]|` of the first n differences. */
  function TotalVariation(d: seq<real>, n: nat): real
    requires n <= |d|
  {
    if n == 0 then 0.0 else TotalVariation(d, n - 1) + Abs(d[n - 1])
  }

  /** `fluc` for the log intensities L. With fewer than two points the one-element keep
      mask does not match the empty difference array, and numpy raises IndexError. */
  function Fluctuation(L: seq<real>): (r: Result<real>)
    ensures r.Failure? <==> |L| < 2
    ensures r.Failure? ==> r.error == IndexError
  {
    if |L| < 2 then Failure(IndexError)
    else Success(KeptSum(NeighbourDiffs(L), |L| - 1))
  }

  lemma {:induction false} KeptSumBounds(d: seq<real>, n: nat)
    requires 1 <= n <= |d|
    ensures Abs(d[0]) <= KeptSum(d, n) <= TotalVariation(d, n)
  {
    if n > 1 {
      KeptSumBounds(d, n - 1);
    }
  }

  /** The fluctuation lies between the size of the first step and the total variation
      of the log intensities. */
  lemma FluctuationBounds(L: seq<real>)
    requires |L| >= 2
    ensures Abs(L[1] - L[0]) <= Fluctuation(L).value <= TotalVariation(NeighbourDiffs(L), |L| - 1)
  {
    KeptSumBounds(NeighbourDiffs(L), |L| - 1);
  }

  lemma {:induction false} KeptSumNoSignChange(d: seq<real>, n: nat)
    requires 1 <= n <= |d|
    requires (forall k :: 0 <= k < |d| ==> d[k] >= 0.0) || (forall k :: 0 <= k < |d| ==> d[k] <= 0.0)
    ensures KeptSum(d, n) == Abs(d[0])
  {
    if n > 1 {
      KeptSumNoSignChange(d, n - 1);
      var a, b := d[n - 1], d[n - 2];
      if a >= 0.0 && b >= 0.0 {
        MulNonNegative(a, b);
      } else {
        MulNonNegative(-a, -b);
        assert (-a) * (-b) == a * b;
      }
      assert !Kept(d, n - 1);
    }
  }

  /** Monotone log intensities keep only the first difference: the fluctuation is
      `|L[1] - L[0]|`. */
  lemma FluctuationMonotone(L: seq<real>)
    requires |L| >= 2
    requires (forall k :: 0 <= k < |L| - 1 ==> L[k] <= L[k + 1]) || (forall k :: 0 <= k < |L| - 1 ==> L[k] >= L[k + 1])
    ensures Fluctuation(L) == Success(Abs(L[1] - L[0]))
  {
    KeptSumNoSignChange(NeighbourDiffs(L), |L| - 1);
  }

  lemma {:induction false} KeptSumAlternating(d: seq<real>, n: nat)
    requires n <= |d|
    requires forall k :: 1 <= k < |d| ==> Mul(d[k], d[k - 1]) < 0.0
    ensures KeptSum(d, n) == TotalVariation(d, n)
  {
    if n > 0 {
      KeptSumAlternating(d, n - 1);
    }
  }

  /** An interior point that is a strict peak or a strict valley. */
  predicate StrictTurn(L: seq<real>, k: nat)
    requires 1 <= k < |L| - 1
  {
    (L[k - 1] < L[k] && L[k + 1] < L[k]) || (L[k - 1] > L[k] && L[k + 1] > L[k])
  }

  lemma TurnChangesSign(a: real, b: real)
    requires (a < 0.0 && b > 0.0) || (a > 0.0 && b < 0.0)
    ensures Mul(a, b) < 0.0
  {
    if a < 0.0 {
      MulPositive(-a, b);
    } else {
      MulPositive(a, -b);
    }
  }

  /** When every interior point is a strict peak or valley, every difference is kept and
      the fluctuation is the total variation. */
  lemma FluctuationAlternating(L: seq<real>)
    requires |L| >= 2
    requires forall k :: 1 <= k < |L| - 1 ==> StrictTurn(L, k)
    ensures Fluctuation(L) == Success(TotalVariation(NeighbourDiffs(L), |L| - 1))
  {
    var d := NeighbourDiffs(L);
    forall k | 1 <= k < |d| ensures Mul(d[k], d[k - 1]) < 0.0 {
      assert StrictTurn(L, k);
      TurnChangesSign(d[k], d[k - 1]);
    }
    KeptSumAlternating(d, |L| - 1);
  }

  /** `profile_spectrum` up to the point where it fails. `np.argmax` of an empty array
      and `np.max` of an empty `logI_nz` raise ValueError, a single positive intensity
      makes the fluctuation mask raise IndexError, and otherwise the `OrderedDict()` at
      saxs_math.py line 251 raises NameError, since the module never imports it. The
      metrics computed before that point are never returned. */
  function ProfileSpectrum(m: Transcendentals, q: seq<real>, I: seq<real>): (r: Result<OrderedDict<string, real>>)
    requires |q| == |I|
    ensures r.Failure?
    ensures |I| == 0 ==> r.error == ValueError
    ensures |PositiveEntries(I)| == 0 ==> r.error == ValueError
    ensures |PositiveEntries(I)| == 1 ==> r.error == IndexError
    ensures |PositiveEntries(I)| >= 2 ==> r.error == NameError("OrderedDict")
  {
    if |I| == 0 then Failure(ValueError)
    else
      var logI := seq(|PositiveEntries(I)|, k requires 0 <= k < |PositiveEntries(I)| => m.log(PositiveEntries(I)[k]));
      if |logI| == 0 then Failure(ValueError)
      else
        var fluc :- Fluctuation(logI);
        Failure(NameError("OrderedDict"))
  }

  // ---------------------------------------------------------------------------
  // fit_with_slope_constraint

  /** `x**e` for an integer exponent and a nonzero base, as `q_cons**(i-1)` evaluates. */
  function IntPow(x: real, e: int): real
    requires x != 0.0
  {
    if e >= 0 then Pow(x, e)
    else
      PowNonZero(x, -e);
      1.0 / Pow(x, -e)
  }

  /** `np.sum(q**e)`. */
  function PowerSum(q: seq<real>, e: nat): real
  {
    Sum(seq(|q|, k requires 0 <= k < |q| => Pow(q[k], e)))
  }

  /** `Ap[i, j] = np.sum(q**j * q**i)` for i, j < order. */
  function GramEntry(q: seq<real>, i: nat, j: nat): real
  {
    Sum(seq(|q|, k requires 0 <= k < |q| => Mul(Pow(q[k], j), Pow(q[k], i))))
  }

  /** `j*q_cons**(j-1)`, the slope of `q**j` at `q_cons`. */
  function SlopeEntry(qc: real, j: nat): real
    requires qc != 0.0
  {
    (j as real) * IntPow(qc, j - 1)
  }

  /** `b[j] = np.sum(I*q**j)`. */
  function MomentEntry(q: seq<real>, I: seq<real>, j: nat): real
    requires |I| == |q|
  {
    Sum(seq(|q|, k requires 0 <= k < |q| => Mul(I[k], Pow(q[k], j))))
  }

  /** The bordered matrix `Ap` of `fit_with_slope_constraint`, row by row: the Gram block of
      the monomials, the constraint row and column, and a zero corner. */
  function SlopeMatrix(q: seq<real>, qc: real, order: nat): (A: seq<seq<real>>)
    requires qc != 0.0
    ensures |A| == order + 1
    ensures forall i :: 0 <= i <= order ==> |A[i]| == order + 1
    ensures forall i, j :: 0 <= i <= order && 0 <= j <= order ==> A[i][j] == SlopeMatrixEntry(q, qc, order, i, j)
  {
    seq(order + 1, i requires 0 <= i <= order =>
      seq(order + 1, j requires 0 <= j <= order => SlopeMatrixEntry(q, qc, order, i, j)))
  }

  function SlopeMatrixEntry(q: seq<real>, qc: real, order: nat, i: nat, j: nat): real
    requires qc != 0.0
  {
    if i < order && j < order then GramEntry(q, i, j)
    else if i < order then -1.0 * (i as real) * IntPow(qc, i - 1)
    else if j < order then SlopeEntry(qc, j)
    else 0.0
  }

  /** The right-hand side `b`: the moments of I, then the prescribed slope. */
  function SlopeRhs(q: seq<real>, I: seq<real>, dIdq: real, order: nat): (b: seq<real>)
    requires |I| == |q|
    ensures |b| == order + 1
  {
    seq(order + 1, j requires 0 <= j <= order => if j < order then MomentEntry(q, I, j) else dIdq)
  }

  /** The Gram entries depend on i + j only: they are power sums. */
  lemma GramIsPowerSum(q: seq<real>, i: nat, j: nat)
    ensures GramEntry(q, i, j) == PowerSum(q, i + j)
  {
    forall k | 0 <= k < |q|
      ensures Mul(Pow(q[k], j), Pow(q[k], i)) == Pow(q[k], i + j)
    {
      PowAdd(q[k], j, i);
    }
    SumPointwise(seq(|q|, k requires 0 <= k < |q| => Mul(Pow(q[k], j), Pow(q[k], i))),
                 seq(|q|, k requires 0 <= k < |q| => Pow(q[k], i + j)));
  }

  /** The shape of the Lagrange system: a symmetric Gram block, a constraint border whose
      column is the negated row, a zero corner, and the slope as the last right-hand side. */
  lemma SlopeSystemShape(q: seq<real>, I: seq<real>, qc: real, dIdq: real, order: nat)
    requires |I| == |q| && qc != 0.0
    ensures var A := SlopeMatrix(q, qc, order);
      forall i, j :: 0 <= i < order && 0 <= j < order ==> A[i][j] == A[j][i]
    ensures var A := SlopeMatrix(q, qc, order);
      forall i :: 0 <= i < order ==> A[i][order] == -A[order][i]
    ensures SlopeMatrix(q, qc, order)[order][order] == 0.0
    ensures SlopeRhs(q, I, dIdq, order)[order] == dIdq
    ensures SlopeMatrix(q, qc, order)[order][0] == 0.0 && (order > 0 ==> SlopeMatrix(q, qc, order)[0][order] == 0.0)
  {
    var A := SlopeMatrix(q, qc, order);
    forall i, j | 0 <= i < order && 0 <= j < order ensures A[i][j] == A[j][i] {
      GramIsPowerSum(q, i, j);
      GramIsPowerSum(q, j, i);
    }
  }

  /** One pass of the outer `for i` loop: row i of the Gram block, then `Ap[i, order]`. */
  method FillRow(Ap: array2<real>, q: seq<real>, qc: real, order: nat, i: nat)
    requires qc != 0.0 && i < order && Ap.Length0 == order + 1 && Ap.Length1 == order + 1
    modifies Ap
    ensures forall j :: 0 <= j <= order ==> Ap[i, j] == SlopeMatrixEntry(q, qc, order, i, j)
    ensures forall i', j :: 0 <= i' <= order && i' != i && 0 <= j <= order ==> Ap[i', j] == old(Ap[i', j])
  {
    for j := 0 to order
      invariant forall j' :: 0 <= j' < j ==> Ap[i, j'] == SlopeMatrixEntry(q, qc, order, i, j')
      invariant forall i', j' :: 0 <= i' <= order && i' != i && 0 <= j' <= order ==> Ap[i', j'] == old(Ap[i', j'])
    {
      Ap[i, j] := GramEntry(q, i, j);
    }
    Ap[i, order] := -1.0 * (i as real) * IntPow(qc, i - 1);
  }

  /** The second loop: the constraint row `Ap[order, j]` and the moments `b[j]`. */
  method FillConstraint(Ap: array2<real>, b: array<real>, q: seq<real>, I: seq<real>, qc: real, order: nat)
    requires |I| == |q| && qc != 0.0
    requires Ap.Length0 == order + 1 && Ap.Length1 == order + 1 && b.Length == order + 1
    modifies Ap, b
    ensures forall j :: 0 <= j < order ==> Ap[order, j] == SlopeMatrixEntry(q, qc, order, order, j)
    ensures forall j :: 0 <= j < order ==> b[j] == MomentEntry(q, I, j)
    ensures forall i, j :: 0 <= i <= order && 0 <= j <= order && !(i == order && j < order) ==> Ap[i, j] == old(Ap[i, j])
    ensures b[order] == old(b[order])
  {
    for j := 0 to order
      invariant forall j' :: 0 <= j' < j ==> Ap[order, j'] == SlopeMatrixEntry(q, qc, order, order, j')
      invariant forall j' :: 0 <= j' < j ==> b[j'] == MomentEntry(q, I, j')
      invariant forall i, j' :: 0 <= i <= order && 0 <= j' <= order && !(i == order && j' < j) ==> Ap[i, j'] == old(Ap[i, j'])
      invariant b[order] == old(b[order])
    {
      Ap[order, j] := (j as real) * IntPow(qc, j - 1);
      b[j] := MomentEntry(q, I, j);
    }
  }

  /** Builds `Ap` and `b` with the loops of `fit_with_slope_constraint`. */
  method AssembleSlopeSystem(q: seq<real>, I: seq<real>, qc: real, dIdq: real, order: nat)
    returns (Ap: array2<real>, b: array<real>)
    requires |I| == |q| && qc != 0.0
    ensures fresh(Ap) && fresh(b)
    ensures Ap.Length0 == order + 1 && Ap.Length1 == order + 1 && b.Length == order + 1
    ensures forall i, j :: 0 <= i <= order && 0 <= j <= order ==> Ap[i, j] == SlopeMatrixEntry(q, qc, order, i, j)
    ensures b[..] == SlopeRhs(q, I, dIdq, order)
  {
    Ap := new real[order + 1, order + 1]((_, _) => 0.0);
    b := new real[order + 1](_ => 0.0);
    for i := 0 to order
      invariant forall i', j :: 0 <= i' < i && 0 <= j <= order ==> Ap[i', j] == SlopeMatrixEntry(q, qc, order, i', j)
      invariant forall i', j :: i <= i' <= order && 0 <= j <= order ==> Ap[i', j] == 0.0
    {
      FillRow(Ap, q, qc, order, i);
    }
    FillConstraint(Ap, b, q, I, qc, order);
    b[order] := dIdq;
    assert b[..] == SlopeRhs(q, I, dIdq, order);
  }

  /** The rows of a matrix, as handed to the linear solver. */
  function Rows(A: array2<real>): (rows: seq<seq<real>>)
    reads A
    ensures |rows| == A.Length0
    ensures forall i :: 0 <= i < A.Length0 ==> |rows[i]| == A.Length1
    ensures forall i, j :: 0 <= i < A.Length0 && 0 <= j < A.Length1 ==> rows[i][j] == A[i, j]
  {
    seq(A.Length0, i requires 0 <= i < A.Length0 reads A =>
      seq(A.Length1, j requires 0 <= j < A.Length1 reads A => A[i, j]))
  }

  /** `s[::-1]`. */
  function Reverse(s: seq<real>): (r: seq<real>)
    ensures |r| == |s|
    ensures forall i :: 0 <= i < |s| ==> r[i] == s[|s| - 1 - i]
  {
    seq(|s|, i requires 0 <= i < |s| => s[|s| - 1 - i])
  }

  lemma ReverseReverse(s: seq<real>)
    ensures Reverse(Reverse(s)) == s
  {
  }

  /** `p_fit[:-1][::-1]`: the polynomial coefficients, highest power first, without the
      Lagrange multiplier. */
  function Coefficients(x: seq<real>): (p: seq<real>)
    ensures |x| >= 1 ==> |p| == |x| - 1 && forall k :: 0 <= k < |p| ==> p[k] == x[|x| - 2 - k]
  {
    if |x| == 0 then [] else Reverse(x[..|x| - 1])
  }

  /** `u . v`, one row of a matrix times a vector. */
  function Dot(u: seq<real>, v: seq<real>): real
    requires |u| == |v|
  {
    if |u| == 0 then 0.0 else Dot(u[..|u| - 1], v[..|v| - 1]) + Mul(u[|u| - 1], v[|v| - 1])
  }

  /** x solves the square system A x = b. */
  predicate Solves(A: seq<seq<real>>, b: seq<real>, x: seq<real>)
  {
    && |A| == |b|
    && forall i :: 0 <= i < |A| ==> |A[i]| == |x| && Dot(A[i], x) == b[i]
  }

  /** The derivative at t of the polynomial with coefficients p, highest power first as
      `np.polyval` reads them: p[k] multiplies t**(|p|-1-k), whose slope is
      (|p|-1-k)*t**(|p|-2-k). */
  function PolySlope(p: seq<real>, t: real): real
    requires t != 0.0
  {
    if |p| == 0 then 0.0
    else Mul(Mul((|p| - 1) as real, p[0]), IntPow(t, |p| - 2)) + PolySlope(p[1..], t)
  }

  /** The constraint row, read against the first n unknowns, is the slope at q_cons of
      the polynomial those unknowns give once reversed. */
  lemma {:induction false} ConstraintRowIsSlope(x: seq<real>, qc: real, n: nat)
    requires qc != 0.0 && n <= |x|
    ensures Dot(seq(n, j requires 0 <= j < n => SlopeEntry(qc, j)), x[..n]) == PolySlope(Reverse(x[..n]), qc)
  {
    if n > 0 {
      ConstraintRowIsSlope(x, qc, n - 1);
      var u := seq(n, j requires 0 <= j < n => SlopeEntry(qc, j));
      assert u[..n - 1] == seq(n - 1, j requires 0 <= j < n - 1 => SlopeEntry(qc, j));
      assert x[..n][..n - 1] == x[..n - 1];
      var p := Reverse(x[..n]);
      assert p[0] == x[n - 1];
      assert p[1..] == Reverse(x[..n - 1]);
    }
  }

  /** The promise of `fit_with_slope_constraint`: any solution of the Lagrange system
      gives, after the multiplier is dropped and the rest reversed, a polynomial whose
      slope at q_cons is dIdq_cons. */
  lemma SlopeConstraintMet(q: seq<real>, I: seq<real>, qc: real, dIdq: real, order: nat, x: seq<real>)
    requires |I| == |q| && qc != 0.0
    requires Solves(SlopeMatrix(q, qc, order), SlopeRhs(q, I, dIdq, order), x)
    ensures |Coefficients(x)| == order
    ensures PolySlope(Coefficients(x), qc) == dIdq
  {
    var row := SlopeMatrix(q, qc, order)[order];
    assert Dot(row, x) == dIdq;
    var u := seq(order, j requires 0 <= j < order => SlopeEntry(qc, j));
    assert row[..order] == u;
    assert x[..order + 1][..order] == x[..order];
    assert x[..order + 1] == x;
    ConstraintRowIsSlope(x, qc, order);
  }

  /** `fit_with_slope_constraint`: assemble the Lagrange system, solve it with the given
      solver (None standing for a singular matrix, numpy's LinAlgError), drop the
      multiplier and reverse into `np.polyfit` order. */
  method FitWithSlopeConstraint(q: seq<real>, I: seq<real>, qc: real, dIdq: real, order: nat,
                                solve: (seq<seq<real>>, seq<real>) -> Option<seq<real>>)
    returns (r: Result<seq<real>>)
    requires |I| == |q| && qc != 0.0
    ensures var x := solve(SlopeMatrix(q, qc, order), SlopeRhs(q, I, dIdq, order));
      && (x.None? ==> r == Failure(LinAlgError))
      && (x.Some? ==> r == Success(Coefficients(x.value)))
    ensures var x := solve(SlopeMatrix(q, qc, order), SlopeRhs(q, I, dIdq, order));
      x.Some? && Solves(SlopeMatrix(q, qc, order), SlopeRhs(q, I, dIdq, order), x.value) ==>
        r.Success? && |r.value| == order && PolySlope(r.value, qc) == dIdq
  {
    var Ap, b := AssembleSlopeSystem(q, I, qc, dIdq, order);
    forall i | 0 <= i <= order ensures Rows(Ap)[i] == SlopeMatrix(q, qc, order)[i] {
      assert forall j :: 0 <= j <= order ==> Rows(Ap)[i][j] == SlopeMatrix(q, qc, order)[i][j];
    }
    assert Rows(Ap) == SlopeMatrix(q, qc, order);
    var x := solve(Rows(Ap), b[..]);
    if x.None? {
      return Failure(LinAlgError);
    }
    if Solves(SlopeMatrix(q, qc, order), SlopeRhs(q, I, dIdq, order), x.value) {
      SlopeConstraintMet(q, I, qc, dIdq, order, x.value);
    }
    return Success(Coefficients(x.value));
  }
}
