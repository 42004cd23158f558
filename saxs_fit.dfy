/** The SAXS fitting engine of saxskit/saxs_fit.py: the parameter limits table,
    the fit mask built when a fitter is created, the flattening of a parameter
    record into a vector, the Metropolis-Hastings annealing loop and the
    short-circuit of `fit_spectrum`. */
module SaxsFit {
  import opened Common
  import opened Reals
  import opened SaxsMath

  /** `param_limits`: the (low, high) bounds of each fitted parameter, in order. */
  function ParamLimits(): OrderedDict<string, (real, real)>
  {
    [("I0_floor", (0.0, 10.0)),
     ("G_gp", (0.0, 10000.0)),
     ("rg_gp", (0.000001, 1000.0)),
     ("D_gp", (0.0, 4.0)),
     ("I0_sphere", (0.0, 10000.0)),
     ("r0_sphere", (0.000001, 1000.0)),
     ("sigma_sphere", (0.0, 0.5))]
  }

  /** Every limit is a non-empty interval, and the table names each parameter once. */
  lemma ParamLimitsWellFormed()
    ensures DistinctKeys(ParamLimits())
    ensures forall i :: 0 <= i < |ParamLimits()| ==> ParamLimits()[i].1.0 < ParamLimits()[i].1.1
  {
  }

  /** A `SaxsFitter` after construction: its fields are never reassigned. */
  datatype Fitter = Fitter(
    populations: OrderedDict<string, int>,
    q: seq<real>,
    I: seq<real>,
    qRange: Option<(real, real)>,
    idxFit: seq<bool>)

  /** The fit mask for a q-window: positive intensity strictly inside the window. */
  function WindowMask(q: seq<real>, I: seq<real>, lo: real, hi: real): (mask: seq<bool>)
    requires |q| == |I|
    ensures |mask| == |I|
    ensures forall i :: 0 <= i < |I| ==> (mask[i] <==> I[i] > 0.0 && lo < q[i] && q[i] < hi)
  {
    seq(|I|, i requires 0 <= i < |I| => I[i] > 0.0 && q[i] > lo && q[i] < hi)
  }

  /** Narrowing the q-window can only remove points from the mask. */
  lemma WindowMaskMonotone(q: seq<real>, I: seq<real>, lo: real, hi: real, lo': real, hi': real)
    requires |q| == |I|
    requires lo <= lo' && hi' <= hi
    ensures forall i :: 0 <= i < |I| && WindowMask(q, I, lo', hi')[i] ==> WindowMask(q, I, lo, hi)[i]
  {
  }

  /** `SaxsFitter.__init__`. Without a q-range the source reads an undefined name `I`. */
  function NewFitter(populations: OrderedDict<string, int>, q: seq<real>, I: seq<real>,
                     qRange: Option<(real, real)>): (r: Result<Fitter>)
    requires |q| == |I|
    ensures qRange.None? ==> r == Failure(NameError("I"))
    ensures qRange.Some? ==> r.Success? && r.value.populations == populations
    ensures qRange.Some? ==> r.Success? && r.value.q == q && r.value.I == I && r.value.qRange == qRange
    ensures qRange.Some? ==> r.Success? && |r.value.idxFit| == |I|
    ensures qRange.Some? ==> r.Success? && forall i :: 0 <= i < |I| ==>
      (r.value.idxFit[i] <==> I[i] > 0.0 && qRange.value.0 < q[i] && q[i] < qRange.value.1)
  {
    match qRange
    case None => Failure(NameError("I"))
    case Some(rng) => Success(Fitter(populations, q, I, qRange, WindowMask(q, I, rng.0, rng.1)))
  }

  // ---------------------------------------------------------------------------
  // unpack_params

  /** The part of the flat vector that comes from the population keys. */
  function PopulationPart(keys: seq<string>, params: OrderedDict<string, ParamValue>): seq<real>
  {
    if keys == [] then []
    else
      var rest := PopulationPart(keys[..|keys| - 1], params);
      match Lookup(params, keys[|keys| - 1])
      case Success(v) => rest + Flatten(v)
      case Failure(_) => rest
  }

  /** The flat vector `unpack_params` builds: `I0_floor` first, then population keys in order.
      A list-valued `I0_floor` would be appended as one element; that is a TypeError here. */
  function UnpackSpec(populations: OrderedDict<string, int>, params: OrderedDict<string, ParamValue>): Result<seq<real>>
  {
    var floor := Lookup(params, "I0_floor");
    if floor.Failure? then Success(PopulationPart(KeysOf(populations), params))
    else match floor.value
      case List(_) => Failure(TypeError)
      case Scalar(x) => Success([x] + PopulationPart(KeysOf(populations), params))
  }

  /** `SaxsFitter.unpack_params`, a loop that appends and extends a list. */
  method UnpackParams(f: Fitter, params: OrderedDict<string, ParamValue>) returns (r: Result<seq<real>>)
    ensures r == UnpackSpec(f.populations, params)
  {
    var floor := Lookup(params, "I0_floor");
    var paramList: seq<real> := [];
    if floor.Success? && floor.value.List? {
      return Failure(TypeError);
    } else if floor.Success? {
      paramList := [floor.value.x];
    }
    var keys := KeysOf(f.populations);
    var prefix := paramList;
    for i := 0 to |keys|
      invariant paramList == prefix + PopulationPart(keys[..i], params)
    {
      assert keys[..i + 1][..i] == keys[..i];
      var entry := Lookup(params, keys[i]);
      if entry.Success? {
        paramList := paramList + Flatten(entry.value);
        assert PopulationPart(keys[..i + 1], params) == PopulationPart(keys[..i], params) + Flatten(entry.value);
      } else {
        assert PopulationPart(keys[..i + 1], params) == PopulationPart(keys[..i], params);
      }
    }
    assert keys[..|keys|] == keys;
    r := Success(paramList);
    if floor.Failure? {
      assert paramList == PopulationPart(keys, params);
    } else {
      assert paramList == [floor.value.x] + PopulationPart(keys, params);
    }
  }

  /** Number of entries a dictionary value contributes. */
  function Width(v: ParamValue): nat
  {
    match v
    case Scalar(_) => 1
    case List(xs) => |xs|
  }

  function PopulationWidth(keys: seq<string>, params: OrderedDict<string, ParamValue>): nat
  {
    if keys == [] then 0
    else PopulationWidth(keys[..|keys| - 1], params)
         + (match Lookup(params, keys[|keys| - 1]) case Success(v) => Width(v) case Failure(_) => 0)
  }

  /** The flat vector has one entry per scalar and one per list element of the keys it reads. */
  lemma {:induction false} PopulationPartLength(keys: seq<string>, params: OrderedDict<string, ParamValue>)
    ensures |PopulationPart(keys, params)| == PopulationWidth(keys, params)
  {
    if keys != [] {
      PopulationPartLength(keys[..|keys| - 1], params);
    }
  }

  /** Only the entries named `I0_floor` or after a population key are read. */
  predicate Relevant(populations: OrderedDict<string, int>, k: string)
  {
    k == "I0_floor" || HasKey(populations, k)
  }

  function RestrictTo(populations: OrderedDict<string, int>, params: OrderedDict<string, ParamValue>): (r: OrderedDict<string, ParamValue>)
    ensures forall k :: Relevant(populations, k) ==> Lookup(r, k) == Lookup(params, k)
  {
    if params == [] then []
    else
      var rest := RestrictTo(populations, params[1..]);
      if Relevant(populations, params[0].0) then [params[0]] + rest else rest
  }

  lemma {:induction false} PopulationPartRestricted(populations: OrderedDict<string, int>, keys: seq<string>,
                                                    params: OrderedDict<string, ParamValue>)
    requires forall i :: 0 <= i < |keys| ==> HasKey(populations, keys[i])
    ensures PopulationPart(keys, RestrictTo(populations, params)) == PopulationPart(keys, params)
  {
    if keys != [] {
      PopulationPartRestricted(populations, keys[..|keys| - 1], params);
    }
  }

  /** Entries whose key is neither `I0_floor` nor a population key do not change the vector. */
  lemma UnpackIgnoresForeignKeys(populations: OrderedDict<string, int>, params: OrderedDict<string, ParamValue>)
    ensures UnpackSpec(populations, RestrictTo(populations, params)) == UnpackSpec(populations, params)
  {
    var keys := KeysOf(populations);
    forall i | 0 <= i < |keys| ensures HasKey(populations, keys[i]) {
      assert populations[i].0 == keys[i];
    }
    PopulationPartRestricted(populations, keys, params);
  }

  // ---------------------------------------------------------------------------
  // MC_anneal_fit

  /** The random multiplicative trial for one parameter, before clamping. */
  function RawTrial(v: real, lo: real, hi: real, stepsize: real, draw: real): real
  {
    if v == 0.0 then draw * stepsize * (hi - lo) else v * (1.0 + 2.0 * (draw - 0.5) * stepsize)
  }

  /** A trial for a nonzero parameter is the parameter times a factor in [1-stepsize, 1+stepsize). */
  lemma RawTrialFactor(v: real, lo: real, hi: real, stepsize: real, draw: real)
    requires v != 0.0 && stepsize > 0.0 && 0.0 <= draw < 1.0
    ensures var f := RawTrial(v, lo, hi, stepsize, draw) / v; 1.0 - stepsize <= f < 1.0 + stepsize
  {
    var u := 2.0 * draw - 1.0;
    var factor := 1.0 + u * stepsize;
    assert RawTrial(v, lo, hi, stepsize, draw) == v * factor;
    assert v * factor / v == factor;
    assert -1.0 <= u < 1.0;
    assert (u + 1.0) * stepsize >= 0.0;
    assert (1.0 - u) * stepsize > 0.0;
  }

  /** A trial for a zero parameter is a fraction of `stepsize` times the allowed range. */
  lemma RawTrialFromZero(lo: real, hi: real, stepsize: real, draw: real)
    requires lo < hi && stepsize >= 0.0 && 0.0 <= draw < 1.0
    ensures 0.0 <= RawTrial(0.0, lo, hi, stepsize, draw) <= stepsize * (hi - lo)
  {
    var w := stepsize * (hi - lo);
    MulNonNegative(stepsize, hi - lo);
    assert RawTrial(0.0, lo, hi, stepsize, draw) == draw * w;
    MulNonNegative(draw, w);
    MulNonNegative(1.0 - draw, w);
  }

  /** The trial after the two clamping tests of the source. */
  function Trial(v: real, lo: real, hi: real, stepsize: real, draw: real): (t: real)
    requires lo <= hi
    ensures lo <= t <= hi
    ensures lo <= RawTrial(v, lo, hi, stepsize, draw) <= hi ==> t == RawTrial(v, lo, hi, stepsize, draw)
  {
    var p := RawTrial(v, lo, hi, stepsize, draw);
    var p1 := if p < lo then lo else p;
    if p1 > hi then hi else p1
  }

  /** The Metropolis acceptance rule: improving, or T != 0 and the draw succeeds. */
  function Accept(objNew: real, objCurrent: real, T: real, exp: real -> real, draw: real): (accept: bool)
    ensures objNew < objCurrent ==> accept
    ensures objNew >= objCurrent && T == 0.0 ==> !accept
    ensures objNew >= objCurrent && T != 0.0 ==> (accept <==> exp(-1.0 * (objNew - objCurrent) / T) > draw)
  {
    if objNew < objCurrent then true
    else if T == 0.0 then false
    else exp(-1.0 * (objNew - objCurrent) / T) > draw
  }

  datatype AnnealReport = AnnealReport(
    rejectRatio: real, objectiveInit: real, objectiveBest: real, objectiveFinal: real)

  datatype AnnealOutcome =
    | Skipped
    | Annealed(best: OrderedDict<string, real>, final: OrderedDict<string, real>, report: AnnealReport)

  function ValuesOf(d: OrderedDict<string, real>): (vs: seq<real>)
    ensures |vs| == |d| && forall i :: 0 <= i < |d| ==> vs[i] == d[i].1
  {
    if d == [] then [] else [d[0].1] + ValuesOf(d[1..])
  }

  function Zip(keys: seq<string>, vs: seq<real>): (d: OrderedDict<string, real>)
    requires |keys| == |vs|
    ensures |d| == |keys| && forall i :: 0 <= i < |d| ==> d[i] == (keys[i], vs[i])
  {
    if keys == [] then [] else [(keys[0], vs[0])] + Zip(keys[1..], vs[1..])
  }

  /** The limits of each key in a limits table, or the first key that has none. */
  function LimitsIn(table: OrderedDict<string, (real, real)>, keys: seq<string>): (r: Result<seq<(real, real)>>)
    ensures r.Success? ==> |r.value| == |keys|
    ensures r.Success? ==> forall i :: 0 <= i < |keys| ==> Lookup(table, keys[i]) == Success(r.value[i])
    ensures r.Failure? ==> exists i :: 0 <= i < |keys| && r.error == KeyError(keys[i]) && !HasKey(table, keys[i])
  {
    if keys == [] then Success([])
    else
      var lim :- Lookup(table, keys[0]);
      var rest :- LimitsIn(table, keys[1..]);
      assert forall i :: 1 <= i < |keys| ==> keys[i] == keys[1..][i - 1];
      Success([lim] + rest)
  }

  /** `param_limits[k]` for each key of a parameter record, or the first key that has none. */
  function LimitsOf(keys: seq<string>): (r: Result<seq<(real, real)>>)
    ensures r.Success? ==> |r.value| == |keys|
    ensures r.Success? ==> forall i :: 0 <= i < |keys| ==> Lookup(ParamLimits(), keys[i]) == Success(r.value[i])
    ensures r.Failure? ==> exists i :: 0 <= i < |keys| && r.error == KeyError(keys[i]) && !HasKey(ParamLimits(), keys[i])
  {
    LimitsIn(ParamLimits(), keys)
  }

  /** Every value lies within the limits of its key. */
  predicate WithinLimits(vs: seq<real>, limits: seq<(real, real)>)
  {
    |vs| == |limits| && forall i :: 0 <= i < |vs| ==> limits[i].0 <= vs[i] <= limits[i].1
  }

  /** The limits of every parameter are ordered intervals, one per parameter. */
  predicate OrderedLimits(limits: seq<(real, real)>)
  {
    forall i :: 0 <= i < |limits| ==> limits[i].0 <= limits[i].1
  }

  /** The trial vector of one step: each parameter perturbed by its own draw, in key order,
      and clamped into its limits. */
  function TrialOf(current: seq<real>, limits: seq<(real, real)>, stepsize: real,
                   rand: nat -> real, d0: nat): (trial: seq<real>)
    requires |current| == |limits| && OrderedLimits(limits)
    ensures WithinLimits(trial, limits)
    ensures stepsize == 0.0 && WithinLimits(current, limits) ==> trial == current
  {
    seq(|current|, i requires 0 <= i < |current| => Trial(current[i], limits[i].0, limits[i].1, stepsize, rand(d0 + i)))
  }

  /** One random trial vector: every parameter perturbed and clamped, one draw each. */
  method TrialVector(current: seq<real>, limits: seq<(real, real)>, stepsize: real,
                     rand: nat -> real, d0: nat) returns (trial: seq<real>, d: nat)
    requires |current| == |limits| && OrderedLimits(limits)
    ensures d == d0 + |current|
    ensures trial == TrialOf(current, limits, stepsize, rand, d0)
  {
    trial := current;
    d := d0;
    for i := 0 to |current|
      invariant d == d0 + i && |trial| == |current|
      invariant forall j :: 0 <= j < i ==>
        trial[j] == Trial(current[j], limits[j].0, limits[j].1, stepsize, rand(d0 + j))
    {
      trial := trial[i := Trial(current[i], limits[i].0, limits[i].1, stepsize, rand(d))];
      d := d + 1;
    }
  }

  /** The inputs of the annealing loop that stay fixed across its steps. */
  datatype AnnealSetup = AnnealSetup(
    limits: seq<(real, real)>, stepsize: real, T: real,
    fitObj: seq<real> -> real, rand: nat -> real, exp: real -> real)

  /** The variables the annealing loop updates: the current and best vectors, the number
      of rejected steps and the index of the next uniform draw. */
  datatype AnnealState = AnnealState(current: seq<real>, best: seq<real>, nrej: nat, draws: nat)

  /** The index of the acceptance draw of a step: it follows the step's trial draws. */
  function AcceptDraw(s: AnnealState): nat
  {
    s.draws + |s.current|
  }

  /** Whether the step from `s` accepts its trial vector. */
  predicate Accepts(a: AnnealSetup, s: AnnealState)
    requires |s.current| == |a.limits| && OrderedLimits(a.limits)
  {
    var trial := TrialOf(s.current, a.limits, a.stepsize, a.rand, s.draws);
    Accept(a.fitObj(trial), a.fitObj(s.current), a.T, a.exp, a.rand(AcceptDraw(s)))
  }

  /** One step of the loop of `MC_anneal_fit`. An improving trial is accepted and, when it
      beats the best, becomes the best; otherwise the Metropolis rule decides, and it
      consumes a draw only when T != 0. */
  function AnnealStep(a: AnnealSetup, s: AnnealState): (s': AnnealState)
    requires |s.current| == |a.limits| && OrderedLimits(a.limits)
    ensures |s'.current| == |s.current|
    ensures |s.best| == |s.current| ==> |s'.best| == |s.current|
  {
    var trial := TrialOf(s.current, a.limits, a.stepsize, a.rand, s.draws);
    var objNew := a.fitObj(trial);
    var objCurrent := a.fitObj(s.current);
    var accept := Accepts(a, s);
    AnnealState(
      if accept then trial else s.current,
      if objNew < objCurrent && objNew < a.fitObj(s.best) then trial else s.best,
      if accept then s.nrej else s.nrej + 1,
      if objNew >= objCurrent && a.T != 0.0 then AcceptDraw(s) + 1 else AcceptDraw(s))
  }

  /** The state after `k` steps from `init`, taking draws from index 0. */
  function AnnealFrom(init: seq<real>, a: AnnealSetup, k: nat): (s: AnnealState)
    requires |init| == |a.limits| && OrderedLimits(a.limits)
    ensures |s.current| == |init| && |s.best| == |init|
  {
    if k == 0 then AnnealState(init, init, 0, 0) else AnnealStep(a, AnnealFrom(init, a, k - 1))
  }

  /** The annealing steps of `MC_anneal_fit` on the vector of parameter values. */
  method AnnealSteps(init: seq<real>, limits: seq<(real, real)>, stepsize: real, nsteps: nat, T: real,
                     fitObj: seq<real> -> real, rand: nat -> real, exp: real -> real)
    returns (best: seq<real>, current: seq<real>, nrej: nat)
    requires |limits| == |init| && OrderedLimits(limits)
    ensures var s := AnnealFrom(init, AnnealSetup(limits, stepsize, T, fitObj, rand, exp), nsteps);
      best == s.best && current == s.current && nrej == s.nrej
  {
    ghost var a := AnnealSetup(limits, stepsize, T, fitObj, rand, exp);
    current := init;
    best := init;
    var objCurrent := fitObj(current);
    var objBest := objCurrent;
    nrej := 0;
    var d: nat := 0;
    for imc := 0 to nsteps
      invariant AnnealState(current, best, nrej, d) == AnnealFrom(init, a, imc)
      invariant objCurrent == fitObj(current) && objBest == fitObj(best)
    {
      current, best, objCurrent, objBest, nrej, d :=
        AnnealOnce(limits, stepsize, T, fitObj, rand, exp, current, best, objCurrent, objBest, nrej, d);
    }
  }

  /** The body of the loop of `MC_anneal_fit`: draw a trial vector, evaluate it, decide,
      and move or count a rejection. */
  method AnnealOnce(limits: seq<(real, real)>, stepsize: real, T: real,
                    fitObj: seq<real> -> real, rand: nat -> real, exp: real -> real,
                    current: seq<real>, best: seq<real>, objCurrent: real, objBest: real, nrej: nat, d: nat)
    returns (current': seq<real>, best': seq<real>, objCurrent': real, objBest': real, nrej': nat, d': nat)
    requires |current| == |limits| && OrderedLimits(limits)
    requires objCurrent == fitObj(current) && objBest == fitObj(best)
    ensures AnnealState(current', best', nrej', d') ==
      AnnealStep(AnnealSetup(limits, stepsize, T, fitObj, rand, exp), AnnealState(current, best, nrej, d))
    ensures objCurrent' == fitObj(current') && objBest' == fitObj(best')
  {
    ghost var a := AnnealSetup(limits, stepsize, T, fitObj, rand, exp);
    ghost var s := AnnealState(current, best, nrej, d);
    var trial;
    trial, d' := TrialVector(current, limits, stepsize, rand, d);
    var objNew := fitObj(trial);
    best', objBest' := best, objBest;
    var accept: bool;
    if objNew < objCurrent {
      accept := true;
      if objNew < objBest {
        best' := trial;
        objBest' := objNew;
      }
    } else if T == 0.0 {
      accept := false;
    } else {
      accept := exp(-1.0 * (objNew - objCurrent) / T) > rand(d');
      d' := d' + 1;
    }
    assert accept == Accepts(a, s);
    current', objCurrent', nrej' := current, objCurrent, nrej;
    if accept {
      current' := trial;
      objCurrent' := objNew;
    } else {
      nrej' := nrej + 1;
    }
  }

  /** What the loop keeps after any number of steps: the best objective is never above the
      current or the initial one, at most one rejection per step, nothing moves until a
      step is accepted, with T == 0 only improvements are accepted so best and current
      agree, and moved vectors lie within the limits. */
  lemma {:induction false} AnnealInvariant(init: seq<real>, a: AnnealSetup, k: nat)
    requires |init| == |a.limits| && OrderedLimits(a.limits)
    ensures var s := AnnealFrom(init, a, k);
      && a.fitObj(s.best) <= a.fitObj(s.current) && a.fitObj(s.best) <= a.fitObj(init)
      && s.nrej <= k
      && (s.nrej == k ==> s.current == init && s.best == init)
      && (a.T == 0.0 ==> s.best == s.current)
      && (s.current == init || WithinLimits(s.current, a.limits))
      && (s.best == init || WithinLimits(s.best, a.limits))
  {
    if k > 0 {
      AnnealInvariant(init, a, k - 1);
    }
  }

  /** Whether step `j` (counting from 0) rejects its trial. */
  predicate RejectedAt(init: seq<real>, a: AnnealSetup, j: nat)
    requires |init| == |a.limits| && OrderedLimits(a.limits)
  {
    !Accepts(a, AnnealFrom(init, a, j))
  }

  /** The number of the first `k` steps that reject their trial. */
  function Rejections(init: seq<real>, a: AnnealSetup, k: nat): (n: nat)
    requires |init| == |a.limits| && OrderedLimits(a.limits)
    ensures n <= k
  {
    if k == 0 then 0 else Rejections(init, a, k - 1) + (if RejectedAt(init, a, k - 1) then 1 else 0)
  }

  /** `nrej` counts exactly the rejected steps, and a step moves `current` to its trial
      exactly when it accepts. */
  lemma {:induction false} NrejCountsRejections(init: seq<real>, a: AnnealSetup, k: nat)
    requires |init| == |a.limits| && OrderedLimits(a.limits)
    ensures AnnealFrom(init, a, k).nrej == Rejections(init, a, k)
    ensures var s := AnnealFrom(init, a, k);
      AnnealFrom(init, a, k + 1).current
        == (if RejectedAt(init, a, k) then s.current else TrialOf(s.current, a.limits, a.stepsize, a.rand, s.draws))
  {
    if k > 0 {
      NrejCountsRejections(init, a, k - 1);
    }
  }

  /** The best objective never increases from one step to a later one. */
  lemma {:induction false} BestNeverWorsens(init: seq<real>, a: AnnealSetup, j: nat, k: nat)
    requires |init| == |a.limits| && OrderedLimits(a.limits)
    requires j <= k
    ensures a.fitObj(AnnealFrom(init, a, k).best) <= a.fitObj(AnnealFrom(init, a, j).best)
  {
    if j < k {
      BestNeverWorsens(init, a, j, k - 1);
    }
  }

  /** A step keeps its best vector or makes it the new current one, never raises the best
      objective, and keeps the best objective at or below the current one. */
  lemma BestStep(a: AnnealSetup, s: AnnealState)
    requires |s.current| == |a.limits| && OrderedLimits(a.limits)
    requires a.fitObj(s.best) <= a.fitObj(s.current)
    ensures var s' := AnnealStep(a, s);
      && (s'.best == s.best || s'.best == s'.current)
      && a.fitObj(s'.best) <= a.fitObj(s.best)
      && a.fitObj(s'.best) <= a.fitObj(s'.current)
  {
  }

  /** The best vector is one of the vectors the loop visited. */
  lemma {:induction false} BestIsVisited(init: seq<real>, a: AnnealSetup, k: nat)
    requires |init| == |a.limits| && OrderedLimits(a.limits)
    ensures exists j :: 0 <= j <= k && AnnealFrom(init, a, k).best == AnnealFrom(init, a, j).current
  {
    if k == 0 {
      assert AnnealFrom(init, a, 0).best == AnnealFrom(init, a, 0).current;
    } else {
      var prev := AnnealFrom(init, a, k - 1);
      var next := AnnealFrom(init, a, k);
      assert next == AnnealStep(a, prev);
      BestIsVisited(init, a, k - 1);
      AnnealInvariant(init, a, k - 1);
      BestStep(a, prev);
      if next.best == next.current {
        assert 0 <= k <= k && next.best == AnnealFrom(init, a, k).current;
      } else {
        var j :| 0 <= j <= k - 1 && prev.best == AnnealFrom(init, a, j).current;
        assert 0 <= j <= k && next.best == AnnealFrom(init, a, j).current;
      }
    }
  }

  /** No vector the loop visited has a lower objective than the best one. */
  lemma {:induction false} BestBeatsVisited(init: seq<real>, a: AnnealSetup, k: nat)
    requires |init| == |a.limits| && OrderedLimits(a.limits)
    ensures forall j :: 0 <= j <= k ==> a.fitObj(AnnealFrom(init, a, k).best) <= a.fitObj(AnnealFrom(init, a, j).current)
  {
    if k == 0 {
      assert AnnealFrom(init, a, 0).best == AnnealFrom(init, a, 0).current;
    } else {
      var prev := AnnealFrom(init, a, k - 1);
      var next := AnnealFrom(init, a, k);
      assert next == AnnealStep(a, prev);
      BestBeatsVisited(init, a, k - 1);
      assert a.fitObj(prev.best) <= a.fitObj(prev.current);
      BestStep(a, prev);
      var bound := a.fitObj(next.best);
      assert bound <= a.fitObj(prev.best) && bound <= a.fitObj(next.current);
      forall j | 0 <= j <= k
        ensures bound <= a.fitObj(AnnealFrom(init, a, j).current)
      {
        if j < k {
          assert a.fitObj(prev.best) <= a.fitObj(AnnealFrom(init, a, j).current);
        }
      }
    }
  }

  /** What a successful anneal returns, relative to the starting parameters. */
  predicate AnnealedFrom(params: OrderedDict<string, real>, nsteps: int, T: real,
                         fitObj: seq<real> -> real, best: OrderedDict<string, real>,
                         final: OrderedDict<string, real>, rpt: AnnealReport)
  {
    var init := ValuesOf(params);
    && KeysOf(best) == KeysOf(params) && KeysOf(final) == KeysOf(params)
    && rpt.objectiveInit == fitObj(init)
    && rpt.objectiveBest == fitObj(ValuesOf(best))
    && rpt.objectiveFinal == fitObj(ValuesOf(final))
    && rpt.objectiveBest <= rpt.objectiveInit
    && rpt.objectiveBest <= rpt.objectiveFinal
    && (nsteps > 0 ==> 0.0 <= rpt.rejectRatio <= 1.0)
    && (nsteps < 0 ==> rpt.rejectRatio == 0.0 && best == params && final == params)
    && (nsteps > 0 && rpt.rejectRatio == 1.0 ==> best == params && final == params)
    && (T == 0.0 ==> best == final)
    && (nsteps > 0 ==> LimitsOf(KeysOf(params)).Success?)
    && (nsteps > 0 ==> final == params || WithinLimits(ValuesOf(final), LimitsOf(KeysOf(params)).value))
    && (nsteps > 0 ==> best == params || WithinLimits(ValuesOf(best), LimitsOf(KeysOf(params)).value))
  }

  /** `MC_anneal_fit`, with the objective and the stream of uniform draws as inputs. */
  method MCAnnealFit(populations: OrderedDict<string, int>, params: OrderedDict<string, real>,
                     stepsize: real, nsteps: int, T: real,
                     fitObj: seq<real> -> real, rand: nat -> real, exp: real -> real)
    returns (r: Result<AnnealOutcome>)
    ensures SkipFlag(populations).Failure? ==> r == Failure(SkipFlag(populations).error)
    ensures SkipFlag(populations) == Success(true) ==> r == Success(Skipped)
    ensures SkipFlag(populations) == Success(false) && nsteps == 0 ==> r == Failure(ZeroDivisionError)
    ensures SkipFlag(populations) == Success(false) && nsteps > 0 && LimitsOf(KeysOf(params)).Failure? ==>
      r == Failure(LimitsOf(KeysOf(params)).error)
    ensures SkipFlag(populations) == Success(false) && (nsteps < 0 || (nsteps > 0 && LimitsOf(KeysOf(params)).Success?)) ==>
      r.Success?
    ensures SkipFlag(populations) == Success(false) && nsteps < 0 ==>
      r == Success(Annealed(params, params, AnnealReport(0.0, fitObj(ValuesOf(params)), fitObj(ValuesOf(params)), fitObj(ValuesOf(params)))))
    ensures r.Success? && r.value.Annealed? ==>
      AnnealedFrom(params, nsteps, T, fitObj, r.value.best, r.value.final, r.value.report)
    ensures r.Success? && r.value.Annealed? && nsteps > 0 ==>
      && LimitsOf(KeysOf(params)).Success?
      && OrderedLimits(LimitsOf(KeysOf(params)).value)
      && var s := AnnealFrom(ValuesOf(params), AnnealSetup(LimitsOf(KeysOf(params)).value, stepsize, T, fitObj, rand, exp), nsteps);
         && r.value.best == Zip(KeysOf(params), s.best)
         && r.value.final == Zip(KeysOf(params), s.current)
         && r.value.report.rejectRatio == (s.nrej as real) / (nsteps as real)
  {
    var skip :- SkipFlag(populations);
    if skip {
      return Success(Skipped);
    }
    var keys := KeysOf(params);
    var init := ValuesOf(params);
    ZipValues(keys, init, params);
    if nsteps == 0 {
      return Failure(ZeroDivisionError);
    }
    if nsteps < 0 {
      var report := AnnealReport(0.0 / (nsteps as real), fitObj(init), fitObj(init), fitObj(init));
      return Success(Annealed(params, params, report));
    }
    var lr := LimitsOf(keys);
    if lr.Failure? {
      return Failure(lr.error);
    }
    LimitsOrdered(keys);
    var best, current, nrej := AnnealSteps(init, lr.value, stepsize, nsteps, T, fitObj, rand, exp);
    AnnealInvariant(init, AnnealSetup(lr.value, stepsize, T, fitObj, rand, exp), nsteps);
    var report := AnnealReport((nrej as real) / (nsteps as real), fitObj(init), fitObj(best), fitObj(current));
    StepsAnnealed(params, nsteps, T, fitObj, best, current, nrej, report);
    r := Success(Annealed(Zip(keys, best), Zip(keys, current), report));
  }

  /** Every interval the limits table gives is ordered. */
  lemma LimitsOrdered(keys: seq<string>)
    ensures LimitsOf(keys).Success? ==> OrderedLimits(LimitsOf(keys).value)
  {
    if LimitsOf(keys).Success? {
      var limits := LimitsOf(keys).value;
      ParamLimitsWellFormed();
      forall i | 0 <= i < |keys| ensures limits[i].0 <= limits[i].1 {
        var j :| 0 <= j < |ParamLimits()| && ParamLimits()[j] == (keys[i], limits[i]);
      }
    }
  }

  /** The outcome of the annealing steps, keyed again, meets `AnnealedFrom`. */
  lemma StepsAnnealed(params: OrderedDict<string, real>, nsteps: nat, T: real, fitObj: seq<real> -> real,
                      best: seq<real>, current: seq<real>, nrej: nat, rpt: AnnealReport)
    requires nsteps > 0 && LimitsOf(KeysOf(params)).Success?
    requires var init := ValuesOf(params); var limits := LimitsOf(KeysOf(params)).value;
      && |current| == |init| && |best| == |init|
      && fitObj(best) <= fitObj(current) && fitObj(best) <= fitObj(init)
      && nrej <= nsteps
      && (nrej == nsteps ==> current == init && best == init)
      && (T == 0.0 ==> best == current)
      && (current == init || WithinLimits(current, limits))
      && (best == init || WithinLimits(best, limits))
    requires rpt == AnnealReport((nrej as real) / (nsteps as real), fitObj(ValuesOf(params)), fitObj(best), fitObj(current))
    ensures AnnealedFrom(params, nsteps, T, fitObj, Zip(KeysOf(params), best), Zip(KeysOf(params), current), rpt)
  {
    var keys := KeysOf(params);
    ZipValues(keys, ValuesOf(params), params);
    ZipValues(keys, current, params);
    ZipValues(keys, best, params);
    RejectRatioBounds(nrej, nsteps);
  }

  /** The reject ratio of `nsteps > 0` steps lies in [0, 1] and is 1 only if every step was rejected. */
  lemma RejectRatioBounds(nrej: nat, nsteps: nat)
    requires 0 < nsteps && nrej <= nsteps
    ensures 0.0 <= (nrej as real) / (nsteps as real) <= 1.0
    ensures (nrej as real) / (nsteps as real) == 1.0 ==> nrej == nsteps
  {
    var ratio := (nrej as real) / (nsteps as real);
    assert ratio * (nsteps as real) == nrej as real;
  }

  /** Re-attaching the keys to a vector of values. */
  lemma ZipValues(keys: seq<string>, vs: seq<real>, params: OrderedDict<string, real>)
    requires keys == KeysOf(params) && |vs| == |params|
    ensures KeysOf(Zip(keys, vs)) == keys && ValuesOf(Zip(keys, vs)) == vs
    ensures vs == ValuesOf(params) ==> Zip(keys, vs) == params
  {
  }

  // ---------------------------------------------------------------------------
  // fit_spectrum

  datatype FitOutcome = NotFitted

  /** `SaxsFitter.fit` is an empty body: it returns None, which cannot be unpacked. */
  function Fit(f: Fitter): (r: Result<FitOutcome>)
    ensures r.Failure?
  {
    Failure(TypeError)
  }

  /** `fit_spectrum`: empty results when a skip flag is set; otherwise the fitter is built
      without a q-range and the source stops with the undefined name `I`. */
  function FitSpectrum(populations: OrderedDict<string, int>, q: seq<real>, I: seq<real>): (r: Result<FitOutcome>)
    requires |q| == |I|
    ensures SkipFlag(populations) == Success(true) ==> r == Success(NotFitted)
    ensures SkipFlag(populations) == Success(false) ==> r == Failure(NameError("I"))
    ensures SkipFlag(populations).Failure? ==> r == Failure(SkipFlag(populations).error)
  {
    var skip :- SkipFlag(populations);
    if skip then Success(NotFitted)
    else
      match NewFitter(populations, q, I, None)
      case Failure(e) => Failure(e)
      case Success(f) => Fit(f)
  }
}
