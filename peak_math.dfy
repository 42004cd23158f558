/** The peak tools of xrsdkit/tools/peak_math.py: the line shapes and their dispatch,
    the windowed peak finder and the window bounds of the hump metric. */
module PeakMath {
  import opened Common
  import opened Reals

  // ---------------------------------------------------------------------------
  // Line shapes

  /** `lorentzian(x, hwhm_l) = hwhm_l / pi / (x**2 + hwhm_l**2)`. The only division that
      can fail is by `x**2 + hwhm_l**2`, which is zero just at x = 0 with a zero width. */
  function Lorentzian(m: Transcendentals, x: real, hwhm: real): real
    requires Lawful(m) && (x != 0.0 || hwhm != 0.0)
  {
    SquareNonNegative(hwhm);
    SquareNonNegative(x);
    hwhm / m.pi / (Square(x) + Square(hwhm))
  }

  /** `gaussian(x, hwhm_g) = sqrt(log 2 / pi) / hwhm_g * exp(-(x/hwhm_g)**2 * log 2)`. */
  function Gaussian(m: Transcendentals, x: real, hwhm: real): real
    requires Lawful(m) && hwhm != 0.0
  {
    m.sqrt(m.log(2.0) / m.pi) / hwhm * m.exp(GaussianExponent(m, x, hwhm))
  }

  /** The exponent `-(x/hwhm_g)**2 * log 2` of the Gaussian. */
  function GaussianExponent(m: Transcendentals, x: real, hwhm: real): real
    requires hwhm != 0.0
  {
    -Square(x / hwhm) * m.log(2.0)
  }

  lemma SquareOfNegation(x: real)
    ensures Square(-x) == Square(x)
  {
    assert Pow(x, 1) == x && Pow(-x, 1) == -x;
    assert Pow(x, 2) == x * x && Pow(-x, 2) == (-x) * (-x);
  }

  /** The Lorentzian is even in x. */
  lemma LorentzianEven(m: Transcendentals, x: real, hwhm: real)
    requires Lawful(m) && (x != 0.0 || hwhm != 0.0)
    ensures Lorentzian(m, -x, hwhm) == Lorentzian(m, x, hwhm)
  {
    SquareOfNegation(x);
  }

  /** A zero width gives 0 away from the centre. */
  lemma LorentzianZeroWidth(m: Transcendentals, x: real)
    requires Lawful(m) && x != 0.0
    ensures Lorentzian(m, x, 0.0) == 0.0
  {
    assert Square(0.0) == 0.0;
    assert 0.0 / m.pi == 0.0;
  }

  /** The Lorentzian of a positive width is positive everywhere and largest at its
      centre, where it is `1/(pi hwhm_l)`. */
  lemma LorentzianPositive(m: Transcendentals, x: real, hwhm: real)
    requires Lawful(m) && hwhm > 0.0
    ensures Lorentzian(m, x, hwhm) > 0.0
    ensures Lorentzian(m, x, hwhm) <= Lorentzian(m, 0.0, hwhm)
  {
    var h2 := Square(hwhm);
    var d := Square(x) + h2;
    assert Square(0.0) == 0.0;
    assert d >= h2 > 0.0;
    var a := hwhm / m.pi;
    assert a > 0.0;
    DivNonNegative(a, d);
    assert a / d != 0.0;
    DivAntitone(a, h2, d);
  }

  lemma DivAntitone(a: real, s: real, t: real)
    requires a > 0.0 && 0.0 < s <= t
    ensures a / t <= a / s
  {
    assert a / t * t == a;
    assert a / s * s == a;
    if a / t > a / s {
      MulPositive(a / t - a / s, s);
      assert a / t * s > a;
      MulNonNegative(a / t, t - s);
      assert false;
    }
  }

  /** The Gaussian is even in x. */
  lemma GaussianEven(m: Transcendentals, x: real, hwhm: real)
    requires Lawful(m) && hwhm != 0.0
    ensures Gaussian(m, -x, hwhm) == Gaussian(m, x, hwhm)
  {
    assert -x / hwhm == -(x / hwhm);
    SquareOfNegation(x / hwhm);
    assert GaussianExponent(m, -x, hwhm) == GaussianExponent(m, x, hwhm);
  }

  /** `peak_profile`: voigt reads both widths, gaussian only `hwhm_g`, lorentzian only
      `hwhm_l`, each evaluated at `q - q_pk`. Any other profile name leaves
      `line_shape` unassigned, and the return raises UnboundLocalError. The Voigt
      profile (through scipy's `wofz`) is given as a function of x and the two widths. */
  function PeakProfile(m: Transcendentals, voigt: (real, real, real) -> real, q: seq<real>, qPk: real,
                       profile: string, params: OrderedDict<string, real>): (r: Result<seq<real>>)
    requires Lawful(m)
    requires profile == "gaussian" && HasKey(params, "hwhm_g") ==> Lookup(params, "hwhm_g").value != 0.0
    requires profile == "lorentzian" && HasKey(params, "hwhm_l") && Lookup(params, "hwhm_l").value == 0.0 ==>
      forall i :: 0 <= i < |q| ==> q[i] != qPk
    ensures profile !in {"voigt", "gaussian", "lorentzian"} ==> r == Failure(UnboundLocalError("line_shape"))
    ensures profile == "voigt" ==>
      (r.Success? <==> HasKey(params, "hwhm_g") && HasKey(params, "hwhm_l"))
    ensures profile == "gaussian" ==> (r.Success? <==> HasKey(params, "hwhm_g"))
    ensures profile == "lorentzian" ==> (r.Success? <==> HasKey(params, "hwhm_l"))
    ensures profile in {"voigt", "gaussian"} && !HasKey(params, "hwhm_g") ==> r == Failure(KeyError("hwhm_g"))
    ensures profile == "voigt" && HasKey(params, "hwhm_g") && !HasKey(params, "hwhm_l") ==>
      r == Failure(KeyError("hwhm_l"))
    ensures profile == "lorentzian" && !HasKey(params, "hwhm_l") ==> r == Failure(KeyError("hwhm_l"))
    ensures r.Success? ==> |r.value| == |q|
  {
    if profile == "voigt" then
      var g :- Lookup(params, "hwhm_g");
      var l :- Lookup(params, "hwhm_l");
      Success(seq(|q|, i requires 0 <= i < |q| => voigt(q[i] - qPk, g, l)))
    else if profile == "gaussian" then
      var g :- Lookup(params, "hwhm_g");
      Success(seq(|q|, i requires 0 <= i < |q| => Gaussian(m, q[i] - qPk, g)))
    else if profile == "lorentzian" then
      var l :- Lookup(params, "hwhm_l");
      Success(seq(|q|, i requires 0 <= i < |q| => Lorentzian(m, q[i] - qPk, l)))
    else Failure(UnboundLocalError("line_shape"))
  }

  /** A profile depends only on the widths its shape uses: two parameter sets that agree
      on those widths give the same profile. */
  lemma PeakProfileUsesOnlyItsWidths(m: Transcendentals, voigt: (real, real, real) -> real, q: seq<real>,
                                     qPk: real, profile: string, p1: OrderedDict<string, real>,
                                     p2: OrderedDict<string, real>)
    requires Lawful(m)
    requires profile == "gaussian" && HasKey(p1, "hwhm_g") ==> Lookup(p1, "hwhm_g").value != 0.0
    requires profile == "lorentzian" && HasKey(p1, "hwhm_l") && Lookup(p1, "hwhm_l").value == 0.0 ==>
      forall i :: 0 <= i < |q| ==> q[i] != qPk
    requires profile == "gaussian" && HasKey(p2, "hwhm_g") ==> Lookup(p2, "hwhm_g").value != 0.0
    requires profile == "lorentzian" && HasKey(p2, "hwhm_l") && Lookup(p2, "hwhm_l").value == 0.0 ==>
      forall i :: 0 <= i < |q| ==> q[i] != qPk
    requires profile in {"voigt", "gaussian"} ==> Lookup(p1, "hwhm_g") == Lookup(p2, "hwhm_g")
    requires profile in {"voigt", "lorentzian"} ==> Lookup(p1, "hwhm_l") == Lookup(p2, "hwhm_l")
    ensures PeakProfile(m, voigt, q, qPk, profile, p1) == PeakProfile(m, voigt, q, qPk, profile, p2)
  {
  }

  // ---------------------------------------------------------------------------
  // peaks_by_window

  /** `np.argmax`: the first index holding the maximum. */
  function ArgMax(s: seq<real>): (r: nat)
    requires |s| > 0
    ensures r < |s|
    ensures forall j :: 0 <= j < |s| ==> s[j] <= s[r]
    ensures forall j :: 0 <= j < r ==> s[j] < s[r]
  {
    if |s| == 1 then 0
    else
      var r := ArgMax(s[..|s| - 1]);
      assert forall j :: 0 <= j < |s| - 1 ==> s[..|s| - 1][j] == s[j];
      if s[|s| - 1] > s[r] then |s| - 1 else r
  }

  /** `np.mean`. */
  function Mean(s: seq<real>): real
    requires |s| > 0
  {
    Sum(s) / (|s| as real)
  }

  /** `y[idx-w:idx+w+1]`. */
  function Window(y: seq<real>, w: nat, idx: nat): (win: seq<real>)
    requires w <= idx && idx + w < |y|
    ensures |win| == 2 * w + 1 && win[w] == y[idx]
  {
    y[idx - w..idx + w + 1]
  }

  /** The value of `ywin[w]/np.mean(ywin) - 1.` in floating point: finite, or an infinity
      or NaN when the mean is zero. */
  datatype Confidence = Finite(value: real) | PosInfinity | NegInfinity | NaN

  function Conf(y: seq<real>, w: nat, idx: nat): Confidence
    requires w <= idx && idx + w < |y|
  {
    var win := Window(y, w, idx);
    var mean := Mean(win);
    if mean != 0.0 then Finite(y[idx] / mean - 1.0)
    else if y[idx] > 0.0 then PosInfinity
    else if y[idx] < 0.0 then NegInfinity
    else NaN
  }

  /** `conf > thr`, where comparisons with NaN are false. */
  predicate Exceeds(c: Confidence, thr: real)
  {
    match c
    case Finite(v) => v > thr
    case PosInfinity => true
    case NegInfinity => false
    case NaN => false
  }

  /** idx is flagged: its window's argmax is the centre and the confidence beats thr. */
  predicate Flagged(y: seq<real>, w: nat, thr: real, idx: nat)
    requires w <= idx && idx + w < |y|
  {
    ArgMax(Window(y, w, idx)) == w && Exceeds(Conf(y, w, idx), thr)
  }

  /** `peaks_by_window(x, y, w, thr)`. The x values are not used by the source. The scan
      runs over `range(w, len(y)-w-1)`, so the last possible window centre is never
      examined. */
  method PeaksByWindow(y: seq<real>, w: nat, thr: real) returns (pkIdx: seq<nat>, pkConf: seq<Confidence>)
    ensures |pkIdx| == |pkConf|
    ensures forall k :: 0 <= k < |pkIdx| ==> w <= pkIdx[k] && pkIdx[k] + w + 1 < |y|
    ensures forall k, l :: 0 <= k < l < |pkIdx| ==> pkIdx[k] < pkIdx[l]
    ensures forall k :: 0 <= k < |pkIdx| ==>
      Flagged(y, w, thr, pkIdx[k]) && pkConf[k] == Conf(y, w, pkIdx[k])
    ensures forall idx: nat :: w <= idx && idx + w + 1 < |y| && Flagged(y, w, thr, idx) ==> idx in pkIdx
  {
    pkIdx, pkConf := [], [];
    var idx := w;
    while idx + w + 1 < |y|
      invariant w <= idx
      invariant |pkIdx| == |pkConf|
      invariant forall k :: 0 <= k < |pkIdx| ==> w <= pkIdx[k] < idx && pkIdx[k] + w + 1 < |y|
      invariant forall k, l :: 0 <= k < l < |pkIdx| ==> pkIdx[k] < pkIdx[l]
      invariant forall k :: 0 <= k < |pkIdx| ==>
        Flagged(y, w, thr, pkIdx[k]) && pkConf[k] == Conf(y, w, pkIdx[k])
      invariant forall i: nat :: w <= i < idx && i + w + 1 < |y| && Flagged(y, w, thr, i) ==> i in pkIdx
      decreases |y| - idx
    {
      var ywin := Window(y, w, idx);
      var pkflag := false;
      var conf := NaN;
      if ArgMax(ywin) == w {
        conf := Conf(y, w, idx);
        pkflag := Exceeds(conf, thr);
      }
      assert pkflag <==> Flagged(y, w, thr, idx);
      if pkflag {
        pkIdx := pkIdx + [idx];
        pkConf := pkConf + [conf];
      }
      idx := idx + 1;
    }
  }

  lemma {:induction false} SumAtMostMax(s: seq<real>, top: real)
    requires forall j :: 0 <= j < |s| ==> s[j] <= top
    ensures Sum(s) <= (|s| as real) * top
  {
    if s != [] {
      SumAtMostMax(s[..|s| - 1], top);
    }
  }

  /** A flagged peak holds the maximum of its window and is strictly above every earlier
      point of the window. When the window's mean is positive its confidence is finite and
      not negative, the centre being at least the mean. */
  lemma FlaggedPeakIsWindowMaximum(y: seq<real>, w: nat, thr: real, idx: nat)
    requires w <= idx && idx + w < |y| && Flagged(y, w, thr, idx)
    ensures forall j :: idx - w <= j <= idx + w ==> y[j] <= y[idx]
    ensures forall j :: idx - w <= j < idx ==> y[j] < y[idx]
    ensures Mean(Window(y, w, idx)) > 0.0 ==> Conf(y, w, idx).Finite? && Conf(y, w, idx).value >= 0.0
  {
    var win := Window(y, w, idx);
    assert forall j :: idx - w <= j <= idx + w ==> y[j] == win[j - (idx - w)];
    var mean := Mean(win);
    if mean > 0.0 {
      SumAtMostMax(win, y[idx]);
      var n := |win| as real;
      assert Sum(win) <= n * y[idx];
      QuotientAtMost(Sum(win), n, y[idx]);
      DivAtLeastOne(y[idx], mean);
    }
  }

  lemma QuotientAtMost(total: real, n: real, top: real)
    requires n > 0.0 && total <= n * top
    ensures total / n <= top
  {
    assert n * top - total >= 0.0;
    DivNonNegative(n * top - total, n);
    assert (n * top - total) / n == top - total / n;
  }

  lemma DivAtLeastOne(a: real, b: real)
    requires 0.0 < b <= a
    ensures a / b >= 1.0
  {
  }

  // ---------------------------------------------------------------------------
  // humpness

  /** `idx_lo = max([0, idx-w])` and `idx_hi = min([ny, idx+w+1])`: the window is inside
      the array, contains idx, and spans at most 2w+1 points. */
  function HumpWindow(ny: nat, idx: nat, w: nat): (b: (nat, nat))
    requires idx < ny
    ensures b.0 <= idx < b.1 <= ny
    ensures b.1 - b.0 <= 2 * w + 1
    ensures b.0 == 0 || b.0 == idx - w
    ensures b.1 == ny || b.1 == idx + w + 1
  {
    var lo := if idx >= w then idx - w else 0;
    var hi := if ny <= idx + w + 1 then ny else idx + w + 1;
    (lo, hi)
  }

  /** `np.std`: the population standard deviation. */
  function Std(m: Transcendentals, s: seq<real>): real
    requires |s| > 0
  {
    var mu := Mean(s);
    m.sqrt(Mean(seq(|s|, i requires 0 <= i < |s| => Square(s[i] - mu))))
  }

  /** `(xwin - x[idx])**2`. */
  function SquaredOffsets(xs: seq<real>, x0: real): (d: seq<real>)
    ensures |d| == |xs|
  {
    seq(|xs|, i requires 0 <= i < |xs| => Square(xs[i] - x0))
  }

  /** The Pearson correlation of a window's y values with the squared x offsets from its
      centre: `pyx2` in `humpness`. */
  function CentreCorrelation(x: seq<real>, y: seq<real>, w: nat, pearson: (seq<real>, seq<real>) -> real,
                             idx: nat): real
    requires |x| == |y| && idx < |y|
  {
    var (lo, hi) := HumpWindow(|y|, idx, w);
    pearson(y[lo..hi], SquaredOffsets(x[lo..hi], x[idx]))
  }

  /** The standard deviation of the window around idx. */
  function WindowStd(m: Transcendentals, y: seq<real>, w: nat, idx: nat): real
    requires idx < |y|
  {
    var (lo, hi) := HumpWindow(|y|, idx, w);
    Std(m, y[lo..hi])
  }

  /** `humpness[idx] = -1*y[idx]*pyx2`. */
  function HumpValue(x: seq<real>, y: seq<real>, w: nat, pearson: (seq<real>, seq<real>) -> real, idx: nat): real
    requires |x| == |y| && idx < |y|
  {
    -1.0 * y[idx] * CentreCorrelation(x, y, w, pearson, idx)
  }

  /** `troughness[idx] = np.std(ywin)*pyx2`. */
  function TroughValue(m: Transcendentals, x: seq<real>, y: seq<real>, w: nat,
                       pearson: (seq<real>, seq<real>) -> real, idx: nat): real
    requires |x| == |y| && idx < |y|
  {
    WindowStd(m, y, w, idx) * CentreCorrelation(x, y, w, pearson, idx)
  }

  /** `humpness(x, y, w)`: for each index, the Pearson correlation (given as a function)
      of the window's y values with the squared x offsets from the centre, scaled by
      `-y[idx]` for the humpness and by the window's standard deviation for the
      troughness. */
  method Humpness(m: Transcendentals, x: seq<real>, y: seq<real>, w: nat,
                  pearson: (seq<real>, seq<real>) -> real) returns (hump: array<real>, trough: array<real>)
    requires |x| == |y|
    ensures fresh(hump) && fresh(trough)
    ensures hump.Length == |y| && trough.Length == |y|
    ensures forall idx :: 0 <= idx < |y| ==> hump[idx] == HumpValue(x, y, w, pearson, idx)
    ensures forall idx :: 0 <= idx < |y| ==> trough[idx] == TroughValue(m, x, y, w, pearson, idx)
  {
    var ny := |y|;
    hump := new real[ny](_ => 0.0);
    trough := new real[ny](_ => 0.0);
    ghost var hs, ts := hump[..], trough[..];
    for idx := 0 to ny
      invariant hump[..] == hs && trough[..] == ts
      invariant |hs| == |ts| == ny
      invariant forall i :: 0 <= i < idx ==> hs[i] == HumpValue(x, y, w, pearson, i)
      invariant forall i :: 0 <= i < idx ==> ts[i] == TroughValue(m, x, y, w, pearson, i)
    {
      var h, t := HumpAt(m, x, y, w, pearson, idx);
      hump[idx] := h;
      trough[idx] := t;
      hs, ts := hs[idx := h], ts[idx := t];
    }
    assert forall i :: 0 <= i < ny ==> hump[i] == hs[i] && trough[i] == ts[i];
  }

  /** The body of the `humpness` loop for one index. */
  method HumpAt(m: Transcendentals, x: seq<real>, y: seq<real>, w: nat,
                pearson: (seq<real>, seq<real>) -> real, idx: nat) returns (h: real, t: real)
    requires |x| == |y| && idx < |y|
    ensures h == HumpValue(x, y, w, pearson, idx)
    ensures t == TroughValue(m, x, y, w, pearson, idx)
  {
    var (lo, hi) := HumpWindow(|y|, idx, w);
    var ywin := y[lo..hi];
    var xwin := x[lo..hi];
    var pyx2 := pearson(ywin, SquaredOffsets(xwin, x[idx]));
    h := -1.0 * y[idx] * pyx2;
    t := Std(m, ywin) * pyx2;
  }
}
