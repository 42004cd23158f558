# pysaxs / xrsdkit bookkeeping core, in Dafny

This project models the deterministic parts of the saxskit and xrsdkit packages,
which fit and classify X-ray scattering spectra. It covers the arithmetic and
bookkeeping that sits around the numerical code:

- **saxskit/saxs_fit.py** (module `SaxsFit`): the `param_limits` table, the fit mask
  built by `SaxsFitter.__init__`, `unpack_params`, the Metropolis-Hastings loop of
  `MC_anneal_fit` and the short-circuit of `fit_spectrum`.
- **saxskit/saxs_math.py** (module `SaxsMath`): the Guinier-Porod law, the
  normal-sphere law normalised to I(0) = 1, their sum in `compute_saxs`, `compute_chi2`,
  the log-intensity fluctuation of `profile_spectrum`, and the Lagrange system that
  `fit_with_slope_constraint` assembles.
- **xrsdkit/tools/peak_math.py** (module `PeakMath`): the Lorentzian and Gaussian line
  shapes, the `peak_profile` dispatch, the windowed peak finder `peaks_by_window` and the
  windows of `humpness`.
- **xrsdkit/diffraction/\_\_init\_\_.py** (module `Diffraction`): the G-range limits of
  `fcc_intensity` and the merging of reciprocal-lattice points into peaks with a
  multiplicity.
- **xrsdkit/scattering/symmetries.py** (module `Symmetries`): the inversion and the nine
  mirror matrices, and the `symmetry_operations` table.
- **xrsdkit/definitions.py** (module `Definitions`): the name, parameter, setting,
  default and bound tables.
- **xrsdkit/models/train.py** (module `Train`): the system-classifier ids built from
  flag combinations, the sample masks, the label lists without `unidentified`, the
  population ids and `collect_summary`.
- **xrsdkit/tools/citrination_tools.py** (module `CitrinationTools`): the table that
  `get_data_from_Citrination` assembles from unpacked records, and
  `make_sample_one_experiment`.
- **xrsdkit/models/classifier.py** (module `Classifier`): `group_by_pc1`, the score
  selection of `cv_report` and `get_cv_summary`.

Three modules are shared:

- `Common`: Option, Result and Python's exceptions, and ordered dictionaries as
  sequences of entries.
- `Strings`: substring tests, `split`/`join`, decimal formatting and the order that
  `sorted` uses.
- `Reals`: sums and powers. It also declares numpy's elementary functions as a record of
  function values, together with the laws the proofs need.

Python exceptions become `Failure` results. Floats are Dafny `real`s. Random draws, the
fit objective, `np.linalg.solve`, the PCA ranking, pymatgen's lattice points and the
scikit-learn scores are all parameters.

Two loops of the source do not do what their authors evidently meant (see "## Findings").
Their operations take the behaviour as a parameter: `Classifier.SizeRule` (`AsWritten` or
`Corrected` group sizes) and `CitrinationTools.Comparison` (`WithGroupRows` as written, or
`WithKeptRows` as corrected). The source's own behaviour is the `AsWritten` and
`WithGroupRows` instance.

## Model

| member | source | states |
|---|---|---|
| SaxsFit.ParamLimitsWellFormed | saxskit/saxs_fit.py:14-21 | every parameter has one limit entry, and every limit is a non-empty interval lo < hi |
| SaxsFit.NewFitter | saxskit/saxs_fit.py:25-38 | with a q-range, `idx_fit[i]` holds exactly when I[i] > 0 and q_lo < q[i] < q_hi (strict); without one, the undefined name `I` raises NameError |
| SaxsFit.WindowMaskMonotone | saxskit/saxs_fit.py:33-36 | narrowing the q-window only removes points from the fit mask |
| SaxsFit.UnpackParams | saxskit/saxs_fit.py:74-84 | the loop builds `UnpackSpec`: `I0_floor` (if present), then, in population order, each present key's scalar or spliced list |
| SaxsFit.PopulationPartLength | saxskit/saxs_fit.py:78-83 | the vector has one entry per scalar and one per list element of the keys read |
| SaxsFit.UnpackIgnoresForeignKeys | saxskit/saxs_fit.py:76-83 | entries that are neither `I0_floor` nor a population key do not change the vector |
| SaxsFit.RawTrialFactor | saxskit/saxs_fit.py:234-235 | a trial for a nonzero parameter is the value times a factor in [1-stepsize, 1+stepsize) |
| SaxsFit.RawTrialFromZero | saxskit/saxs_fit.py:232-233 | a trial for a zero parameter lies in [0, stepsize*(hi-lo)] |
| SaxsFit.LimitsOf | saxskit/saxs_fit.py:231 | every parameter key is looked up in `param_limits`, in order, and the first missing one raises KeyError |
| SaxsFit.Trial | saxskit/saxs_fit.py:231-240 | after clamping, the trial lies in [lo, hi], and an in-range trial is left unchanged |
| SaxsFit.Accept | saxskit/saxs_fit.py:243-251 | an improving trial is accepted; with T == 0 a non-improving one is rejected; otherwise acceptance is exactly the Metropolis test |
| SaxsFit.TrialOf | saxskit/saxs_fit.py:229-240 | the trial vector lies within the limits, and with stepsize 0 an in-range vector is its own trial |
| SaxsFit.TrialVector | saxskit/saxs_fit.py:229-240 | the loop perturbs every parameter with its own draw, in key order, and clamps it: the result is `TrialOf`, and exactly one draw per parameter is used |
| SaxsFit.AnnealOnce | saxskit/saxs_fit.py:227-258 | one pass of the loop body (trial, objective, acceptance, move or rejection) performs exactly one `AnnealStep`, and the cached objectives stay those of current and best |
| SaxsFit.AnnealSteps | saxskit/saxs_fit.py:217-258 | after nsteps passes, best, current and nrej are those of the trajectory `AnnealFrom` after nsteps steps |
| SaxsFit.AnnealInvariant | saxskit/saxs_fit.py:217-258 | along the trajectory the best objective is never above the current or the initial one; nrej <= steps; if every step was rejected nothing moved; with T == 0 best equals current; moved vectors stay within the limits |
| SaxsFit.NrejCountsRejections | saxskit/saxs_fit.py:254-258 | nrej counts exactly the rejected steps, and a step moves current to its trial iff it is not rejected |
| SaxsFit.BestNeverWorsens | saxskit/saxs_fit.py:243-247 | the best objective after k steps is at most the best objective after any earlier step |
| SaxsFit.BestIsVisited | saxskit/saxs_fit.py:243-256 | the best vector after k steps is the current vector of some step j <= k |
| SaxsFit.BestBeatsVisited | saxskit/saxs_fit.py:243-256 | the best objective after k steps is at most the objective of every current vector visited up to step k |
| SaxsFit.MCAnnealFit | saxskit/saxs_fit.py:213-265 | a set skip flag returns empty results; a missing flag key raises KeyError; nsteps == 0 divides by zero; with nsteps > 0 a key without limits raises KeyError; a negative nsteps runs no step, reads no limits and returns the parameters as best and final with reject ratio 0; otherwise the outcome meets `AnnealedFrom` (keys kept, objectives reported, reject ratio in [0,1], best <= init and final), and with nsteps > 0 best, final and the reject ratio are those of the trajectory `AnnealFrom`, keyed again |
| SaxsFit.RejectRatioBounds | saxskit/saxs_fit.py:260 | `nrej/nsteps` lies in [0, 1] and is 1 only when every step was rejected |
| SaxsFit.Fit | saxskit/saxs_fit.py:86-87 | `fit` returns None, so unpacking its result always raises |
| SaxsFit.FitSpectrum | saxskit/saxs_fit.py:302-309 | a set skip flag returns empty results with no fit; a missing flag key raises the KeyError that `SkipFlag` names; otherwise the fitter is built without a q-range and raises NameError |
| SaxsMath.SkipFlag | saxskit/saxs_math.py:61-62 | both flags are looked up in order, so a missing 'unidentified' raises KeyError('unidentified') and, when it is present, a missing 'diffraction_peaks' raises KeyError('diffraction_peaks') even if the first flag is set; otherwise the skip holds iff either count is nonzero |
| SaxsMath.GuinierPorodProfile | saxskit/saxs_math.py:170-184 | each q goes to exactly one branch: Guinier when q <= q_splice, Porod (at q > 0) beyond |
| SaxsMath.GuinierPorodAtZero | saxskit/saxs_math.py:170-180 | I(q=0) equals the Guinier factor G |
| SaxsMath.PorodMeetsGuinier | saxskit/saxs_math.py:170-183 | at q_splice, the Porod branch equals the Guinier value G*exp(-D/2) |
| SaxsMath.GuinierPorodPositive | saxskit/saxs_math.py:170-184 | with rg, D, G > 0 the intensity is positive at every q |
| SaxsMath.GridShape | saxskit/saxs_math.py:129-132 | the radius step dr = 0.02*sigma*r0 is positive, rmin = max(r0-5 sigma r0, dr) >= dr, and rmax > rmin |
| SaxsMath.SampledRadius | saxskit/saxs_math.py:134 | every sampled radius lies in [dr, rmax) |
| SaxsMath.WeightPositive | saxskit/saxs_math.py:136-139 | every sampled radius carries a positive weight V^2*rho*dr |
| SaxsMath.SharpSphere | saxskit/saxs_math.py:123-127 | with sigma < 1e-9, I_zero is V_r0**2 and each nonzero q gets V_r0**2 times the squared form factor of r0, each zero q keeps 0 |
| SaxsMath.SharpUnnormalised | saxskit/saxs_math.py:123-143 | that branch's I_zero is positive, and dividing its entries by I_zero gives the population's intensity at every nonzero q |
| SaxsMath.SampleRadii | saxskit/saxs_math.py:133-140 | the loop accumulates I_zero and, at nonzero q, the weighted form factors of all sampled radii |
| SaxsMath.SphericalNormalSaxs | saxskit/saxs_math.py:120-144 | the result has one entry per q and is exactly 1 at q = 0; elsewhere it is the form factor of radius r0 when sigma < 1e-9, and otherwise the sampled weighted form factors divided by I_zero |
| SaxsMath.SphereIntensityNonNegative | saxskit/saxs_math.py:120-144 | the normalised sphere intensity is never negative |
| SaxsMath.FloorProfile | saxskit/saxs_math.py:68-69 | a scalar floor fills the array; a one-element list is repeated len(q) times, a list of length len(q) is taken as it is, and any other list raises ValueError (except at len(q) == 1, see Left out) |
| SaxsMath.PopulationLists | saxskit/saxs_math.py:71-91 | with a nonzero count the three keys are read (KeyError if missing) and listified, and too short a list raises IndexError |
| SaxsMath.AccumulateGuinierPorod | saxskit/saxs_math.py:78-80 | the loop adds the first count Guinier-Porod profiles at every q, raising IndexError exactly when one of rg_gp, G_gp, D_gp is shorter than count |
| SaxsMath.AccumulateSpheres | saxskit/saxs_math.py:89-91 | the loop adds I0_sphere[i] times the normalised sphere profile for the first count populations, raising IndexError exactly when one of the three lists is shorter than count |
| SaxsMath.AddGuinierPorod | saxskit/saxs_math.py:71-80 | adds the sum of the first n_gp Guinier-Porod terms at every q, or raises what the lookups raise |
| SaxsMath.AddSpheres | saxskit/saxs_math.py:82-91 | adds the sum of I0_sphere[i] times the sphere law for the first n_sph populations, or raises what the lookups raise |
| SaxsMath.ComputeSaxs | saxskit/saxs_math.py:61-93 | the loop computes `ComputeSaxsSpec`: floor plus the Guinier-Porod sum plus the sphere sum |
| SaxsMath.ComputeSaxsSkipped | saxskit/saxs_math.py:61-64 | with a skip flag set the result is len(q) zeros, without the floor |
| SaxsMath.ComputeSaxsMissingKey | saxskit/saxs_math.py:65-68 | missing `guinier_porod`, `spherical_normal` or `I0_floor` keys raise KeyError in that order |
| SaxsMath.ComputeSaxsAtZero | saxskit/saxs_math.py:68-91 | at q = 0 the intensity is the floor plus the sum of the G factors plus the sum of the I0_sphere factors |
| SaxsMath.ComputeSaxsNonNegative | saxskit/saxs_math.py:61-93 | non-negative floor, G and I0 factors give a non-negative intensity |
| SaxsMath.SquaredDiffs | saxskit/saxs_math.py:352 | each squared difference is >= 0 and is 0 iff the two entries agree |
| SaxsMath.Chi2ZeroIffEqual | saxskit/saxs_math.py:351-352 | the unweighted chi2 is >= 0 and is 0 iff y1 == y2 |
| SaxsMath.NormalizeSumsToOne | saxskit/saxs_math.py:354 | normalised weights sum to 1 |
| SaxsMath.WeightedChi2Bounds | saxskit/saxs_math.py:353-355 | the weighted chi2 is 0 when y1 == y2, and >= 0 for non-negative weights |
| SaxsMath.Chi2WeightScaleInvariant | saxskit/saxs_math.py:353-355 | scaling all weights by a nonzero constant leaves the weighted chi2 unchanged |
| SaxsMath.PositiveEntries | saxskit/saxs_math.py:225-227 | the kept intensities are positive and drawn from I, and every positive value of I is kept; `PositiveEntriesSelect` gives order and multiplicity |
| SaxsMath.PositiveIndices | saxskit/saxs_math.py:225-227 | the positions the mask `I > 0` selects: strictly increasing, in range, and a position is selected exactly when its intensity is positive |
| SaxsMath.PositiveEntriesSelect | saxskit/saxs_math.py:225-227 | the kept values are, one for one and in order, the entries at the selected positions, so order and multiplicity are kept |
| SaxsMath.NeighbourDiffs | saxskit/saxs_math.py:241 | entry k is L[k+1] - L[k] |
| SaxsMath.Fluctuation | saxskit/saxs_math.py:241-246 | IndexError is raised exactly when fewer than two log-intensities remain |
| SaxsMath.FluctuationBounds | saxskit/saxs_math.py:244-246 | the fluctuation lies between the first absolute difference and the total variation |
| SaxsMath.FluctuationMonotone | saxskit/saxs_math.py:244-246 | a monotone curve keeps only the first difference |
| SaxsMath.FluctuationAlternating | saxskit/saxs_math.py:244-246 | a curve that turns at every point keeps every difference |
| SaxsMath.ProfileSpectrum | saxskit/saxs_math.py:212-257 | the profile always raises: ValueError on empty or all-non-positive input, IndexError with one positive point, otherwise NameError on the unimported `OrderedDict` |
| SaxsMath.SlopeMatrix | saxskit/saxs_math.py:306-314 | the assembled matrix is (order+1) x (order+1) with the entries the loops write |
| SaxsMath.GramIsPowerSum | saxskit/saxs_math.py:311 | `sum(q**j * q**i)` is the power sum of degree i+j |
| SaxsMath.SlopeSystemShape | saxskit/saxs_math.py:306-316 | the top-left block is symmetric, Ap[order][order] == 0, Ap[i][order] == -Ap[order][i], the constraint row and column vanish at index 0, and b[order] == dIdq_cons |
| SaxsMath.AssembleSlopeSystem | saxskit/saxs_math.py:306-316 | the nested loops fill Ap and b with exactly those entries |
| SaxsMath.ReverseReverse | saxskit/saxs_math.py:319 | reversing the coefficients twice gives them back |
| SaxsMath.Coefficients | saxskit/saxs_math.py:318-319 | the Lagrange multiplier (last entry) is dropped and the rest reversed, giving one coefficient fewer than the solution |
| SaxsMath.FitWithSlopeConstraint | saxskit/saxs_math.py:306-327 | the result is the reversed solution without its last entry, or LinAlgError when the system is singular; when the solver returns a true solution, the returned polynomial has `order` coefficients and slope dIdq_cons at q_cons |
| SaxsMath.ConstraintRowIsSlope | saxskit/saxs_math.py:312-315 | the constraint row `j*q_cons**(j-1)` times the first n unknowns is the slope at q_cons of the polynomial they give once reversed, by the `np.polyval` reading of `PolySlope` |
| SaxsMath.SlopeConstraintMet | saxskit/saxs_math.py:299-319 | every solution of the Lagrange system yields `order` coefficients whose polynomial has slope dIdq_cons at q_cons |
| PeakMath.LorentzianEven | xrsdkit/tools/peak_math.py:26-31 | the Lorentzian is even in x, wherever it is defined (a nonzero x or width) |
| PeakMath.LorentzianZeroWidth | xrsdkit/tools/peak_math.py:26-31 | a zero hwhm_l gives 0 at every x != 0 |
| PeakMath.LorentzianPositive | xrsdkit/tools/peak_math.py:26-31 | with hwhm_l > 0 the Lorentzian is positive and peaks at x = 0 |
| PeakMath.GaussianEven | xrsdkit/tools/peak_math.py:19-24 | the Gaussian is even in x |
| PeakMath.PeakProfile | xrsdkit/tools/peak_math.py:6-17 | 'voigt' needs both widths, 'gaussian' only hwhm_g, 'lorentzian' only hwhm_l (KeyError on the first width looked up and missing); any other name leaves `line_shape` unbound |
| PeakMath.PeakProfileUsesOnlyItsWidths | xrsdkit/tools/peak_math.py:6-17 | two parameter sets that agree on the widths a shape uses give the same profile |
| PeakMath.ArgMax | xrsdkit/tools/peak_math.py:74 | `np.argmax` returns the first index that holds the maximum |
| PeakMath.Window | xrsdkit/tools/peak_math.py:73 | the window has 2w+1 points and its centre is y[idx] |
| PeakMath.PeaksByWindow | xrsdkit/tools/peak_math.py:69-80 | indices lie in [w, len(y)-w-2] and increase strictly; confidences align with them; an index is returned iff it is flagged |
| PeakMath.FlaggedPeakIsWindowMaximum | xrsdkit/tools/peak_math.py:73-76 | a flagged index holds its window's maximum and is strictly above every earlier window point |
| PeakMath.HumpWindow | xrsdkit/tools/peak_math.py:103-106 | the window [max(0,idx-w), min(ny,idx+w+1)) contains idx and has at most 2w+1 points |
| PeakMath.HumpAt | xrsdkit/tools/peak_math.py:103-109 | one index: `-y[idx]` and the window std, each times the Pearson correlation of the window with its squared x-offsets |
| PeakMath.Humpness | xrsdkit/tools/peak_math.py:99-109 | both outputs have length ny, and entry idx is that index's hump and trough value |
| Diffraction.GLimits | xrsdkit/diffraction/__init__.py:50-61 | q_max == 0 raises ZeroDivisionError |
| Diffraction.GLimitsAreScaledQ | xrsdkit/diffraction/__init__.py:50-61 | G_max = q_max/(2 pi); G_min = q_min/(2 pi) when q_min > 0, else 0 |
| Diffraction.AboveGMin | xrsdkit/diffraction/__init__.py:67 | exactly the points with g >= G_min are kept |
| Diffraction.SortForMergeContents | xrsdkit/diffraction/__init__.py:73-74 | sorting is a permutation of the points |
| Diffraction.SortForMerge | xrsdkit/diffraction/__init__.py:73-74 | points come in ascending g, then descending h, k, l |
| Diffraction.Nearest | xrsdkit/diffraction/__init__.py:85 | `np.argmin` gives the first stored peak nearest in q |
| Diffraction.MergePoint | xrsdkit/diffraction/__init__.py:76-97 | the loop body computes `MergeStep`: a point with g <= 0 or I_hkl <= 1e-5 leaves the tables alone; the first accepted point, or one more than 1e-5 in q from the nearest stored peak, opens a new peak; otherwise it joins the nearest |
| Diffraction.MergeStepKeeps | xrsdkit/diffraction/__init__.py:76-97 | a merge step keeps the tables aligned and separated with multiplicities >= 1, adds one to the multiplicities and I_hkl to the intensities exactly for an accepted point, and keeps every key a Miller index of the first i+1 points |
| Diffraction.MergeStepMerged | xrsdkit/diffraction/__init__.py:73-97 | after i points, merging point i gives the tables the invariants of the first i+1 points |
| Diffraction.MergePeaks | xrsdkit/diffraction/__init__.py:73-97 | the loop computes `MergeAll`, the fold of `MergeStep` over the sorted points; the four tables share a key order, with q = 2 pi g; stored peaks differ in q by more than 1e-5; every multiplicity is >= 1; multiplicities sum to the accepted points and intensities to their I_hkl |
| Diffraction.FccPeaks | xrsdkit/diffraction/__init__.py:50-97 | q_max == 0 raises ZeroDivisionError; otherwise the result is the fold of the merge step (`MergeAll`) over the sorted points at or above G_min, and the merged tables are aligned and separated, and their multiplicities and intensities sum to the accepted points with g >= G_min, whose Miller indices are the keys |
| Symmetries.InversionAction | xrsdkit/scattering/symmetries.py:9 | the inversion negates every coordinate |
| Symmetries.AxialMirrorActions | xrsdkit/scattering/symmetries.py:11-13 | each axial mirror negates exactly one coordinate |
| Symmetries.DiagonalMirrorActions | xrsdkit/scattering/symmetries.py:15-20 | the `n` mirrors swap two coordinates; the others swap and negate both |
| Symmetries.OperatorLaws | xrsdkit/scattering/symmetries.py:9-20 | every operator squares to the identity, has determinant -1, is symmetric and is orthogonal |
| Symmetries.SymmetryOperations | xrsdkit/scattering/symmetries.py:26-39 | exactly the four point groups '1', '-1', 'm-3m' and '6/mmm' are set, and they list only the inversion and mirrors |
| Symmetries.TableOperatorsAreInvolutions | xrsdkit/scattering/symmetries.py:28-39 | every operator in the table is an involution with determinant -1 |
| Symmetries.TableNesting | xrsdkit/scattering/symmetries.py:30-39 | 'm-3m' lists nine distinct mirrors, and every '6/mmm' operator is among them |
| Definitions.DefaultsWithinBounds | xrsdkit/definitions.py:118-136 | every parameter, noise and coordinate default lies within its bounds (None = unbounded) |
| Definitions.ListedParamsHaveDefaults | xrsdkit/definitions.py:28-130 | every parameter listed for a structure, form factor, noise model or structure type has a default |
| Definitions.AllParamsAreTheDefaults | xrsdkit/definitions.py:98-194 | `all_params` lists each key of `param_defaults` once, and the units table has the same keys |
| Definitions.RegressionParamsReplaceI0 | xrsdkit/definitions.py:98-116 | `regression_params` is `all_params` with 'I0' replaced by 'I0_fraction' |
| Definitions.SettingsHaveTypedDefaults | xrsdkit/definitions.py:41-156 | every setting has a default and a datatype, and each default has its declared type |
| Definitions.DefaultsAreSelectable | xrsdkit/definitions.py:138-164 | a default with a non-empty selection list is one of its selections |
| Definitions.NoncrystallineAreFormFactors | xrsdkit/definitions.py:19-78 | the non-crystalline form factors are form factors |
| Definitions.TablesKeyedByNames | xrsdkit/definitions.py:12-95 | each table is keyed by exactly its list of names |
| Train.FlagTuplesComplete | xrsdkit/models/train.py:107 | `itertools.product` yields every flag tuple |
| Train.FlagTuplesDistinct | xrsdkit/models/train.py:107 | it yields each tuple once |
| Train.NonNullCombinations | xrsdkit/models/train.py:107-109 | 2^n - 1 tuples pass `sum(flags) > 0`: exactly those with a True |
| Train.ModelId | xrsdkit/models/train.py:111-117 | the loop builds `ModelIdOf` |
| Train.ModelIdIsJoin | xrsdkit/models/train.py:111-117 | the id joins the flagged names with '__', in order; it is empty iff no flag is set |
| Train.ModelIdSplits | xrsdkit/models/train.py:111-117 | splitting the id at '__' gives back the flagged names |
| Train.FlagMask | xrsdkit/models/train.py:110-114 | a sample is selected iff, for every structure, substring membership in its class equals the flag |
| Train.SystemClassifiers | xrsdkit/models/train.py:107-121 | the loop builds the ids of the non-null combinations that select some sample |
| Train.SystemClassifierIdsSound | xrsdkit/models/train.py:107-121 | every classifier id comes from a non-null combination that selects a sample |
| Train.SystemClassLabels | xrsdkit/models/train.py:155-157 | the labels are the distinct system classes other than 'unidentified' |
| Train.WithoutRemovesOne | xrsdkit/models/train.py:157 | removing a present label deletes just that entry |
| Train.PopIds | xrsdkit/models/train.py:196-197 | one id `pop<i>` per '__'-separated component of the class |
| Train.PopIdInjective | xrsdkit/models/train.py:197 | distinct population indices give distinct ids |
| Train.PopulationsOfModelId | xrsdkit/models/train.py:111-117 | a classifier id has one population per flagged structure |
| Train.Delta | xrsdkit/models/train.py:684-687 | the delta is value minus the old score when the value is recorded and the lookup of `old_summary[section][k]['scores'][metric][0]` yields a number, None otherwise (a None score thus gives `[None, None]`) |
| Train.ScoreRows | xrsdkit/models/train.py:683-688 | each score becomes `[value, delta]`, in the scores' order, with the value kept as recorded (None included) and the delta of `Delta` |
| Train.CollectScores | xrsdkit/models/train.py:683-688 | the loop over one model's scores builds `ScoreRows` |
| Train.CollectSection | xrsdkit/models/train.py:678-688 | the loop over one summary builds `Section`, whose models are exactly the truthy entries (see `SectionKeys`) |
| Train.SectionKeys | xrsdkit/models/train.py:678-680 | a section keeps exactly the entries with a truthy summary, in order |
| Train.CollectSummary | xrsdkit/models/train.py:672-702 | the keys are DESCRIPTION, CLASSIFIERS, REGRESSORS in that order, with the fixed text and the two sections |
| CitrinationTools.CellFor | xrsdkit/tools/citrination_tools.py:54-55 | a label a record lacks is None; otherwise it is the record's value |
| CitrinationTools.ExtrasEmpty | xrsdkit/tools/citrination_tools.py:41-42 | `update` adds no column iff every feature key is a profile key |
| CitrinationTools.FilledValuesAligned | xrsdkit/tools/citrination_tools.py:41-42 | then the row has one value per key, in key order |
| CitrinationTools.GetData | xrsdkit/tools/citrination_tools.py:38-62 | a feature key outside the profile keys raises ValueError; otherwise the columns are experiment_id, the profile keys, system_class, local_id and then the sorted union of all label keys; row i has local_id i and None for each label it lacks |
| CitrinationTools.CollectRecords | xrsdkit/tools/citrination_tools.py:38-48 | one base row and one output dictionary per record, in record order, and a strictly sorted label list holding exactly the labels some record outputs |
| CitrinationTools.AddLabels | xrsdkit/tools/citrination_tools.py:46-47 | adding one record's output keys keeps the label list strictly sorted and makes it the union of the old labels and those keys |
| CitrinationTools.L1Symmetric | xrsdkit/tools/citrination_tools.py:194 | the L1 feature distance is symmetric |
| CitrinationTools.SampleGroupAsWritten | xrsdkit/tools/citrination_tools.py:189-198 | the loop keeps the rows of `KeptAsWritten` |
| CitrinationTools.KeptAsWrittenRule | xrsdkit/tools/citrination_tools.py:190-198 | row 0 is kept; row i is kept iff it is at least min_distance from each of the group's first rows 0..|kept|-1 |
| CitrinationTools.AsWrittenKeepsCloseRows | xrsdkit/tools/citrination_tools.py:191-198 | for rows 0, 0.5, 3.0, 3.2 and distance 1, the loop keeps rows 3.0 and 3.2 although they are 0.2 apart |
| CitrinationTools.SampleGroup | xrsdkit/tools/citrination_tools.py:189-198 | the corrected loop compares each row with the kept rows |
| CitrinationTools.KeepOrSkip | xrsdkit/tools/citrination_tools.py:192-198 | one pass of the corrected loop extends the kept indices exactly as `Kept` does for one more row, and the sample stays the rows those indices pick |
| CitrinationTools.KeptSeparated | xrsdkit/tools/citrination_tools.py:191-198 | any two kept rows are at least min_distance apart |
| CitrinationTools.KeptSeparatedStep | xrsdkit/tools/citrination_tools.py:192-198 | deciding one more row of the corrected loop keeps the kept rows pairwise at least min_distance apart |
| CitrinationTools.SeparatedExtend | xrsdkit/tools/citrination_tools.py:191-198 | a row at least min_distance from every kept row can be appended without breaking the pairwise separation |
| CitrinationTools.KeptCovers | xrsdkit/tools/citrination_tools.py:191-198 | every dropped row is closer than min_distance to a kept row |
| CitrinationTools.GroupKeys | xrsdkit/tools/citrination_tools.py:186 | groups are the sorted distinct system classes present |
| CitrinationTools.KeptBy | xrsdkit/tools/citrination_tools.py:189-198 | under either comparison rule, the kept indices are increasing, start with row 0 and stay inside the group |
| CitrinationTools.SampleGroupBy | xrsdkit/tools/citrination_tools.py:189-198 | the group's sample is the rows at `KeptBy` under the chosen comparison: the group's first rows as written, the kept rows as corrected |
| CitrinationTools.MakeSampleOneExperiment | xrsdkit/tools/citrination_tools.py:186-200 | every sorted class has a non-empty group, and the sample is the concatenation, over the sorted classes, of each group's kept rows under the chosen comparison rule |
| CitrinationTools.SampleOfProperties | xrsdkit/tools/citrination_tools.py:186-200 | under either comparison rule, the sample holds only rows of the input with a class, and the first row of every group |
| Classifier.RoundIsNearest | xrsdkit/models/classifier.py:178 | `round(n/g)` is the nearest integer, and even on a tie |
| Classifier.GroupSizesAsWritten | xrsdkit/models/classifier.py:178-181 | `gp_size` is g copies of round(n/g), with the first n mod g incremented |
| Classifier.AsWrittenSizesSum | xrsdkit/models/classifier.py:178-181 | those sizes sum past n exactly when round(n/g) rounds up |
| Classifier.AsWrittenLeavesGroupsEmpty | xrsdkit/models/classifier.py:178-185 | for 9 samples in 5 groups the sizes are [3,3,3,3,2] and the samples only reach groups 1-3 |
| Classifier.GroupSizes | xrsdkit/models/classifier.py:178-181 | the corrected sizes are n div g, plus 1 for the first n mod g |
| Classifier.BalancedSizes | xrsdkit/models/classifier.py:178-181 | the corrected sizes sum to n and differ by at most one |
| Classifier.SliceIdRange | xrsdkit/models/classifier.py:182-185 | a rank within the total size falls into a slice 1..g, and a later rank into none |
| Classifier.SliceIdAt | xrsdkit/models/classifier.py:182-185 | rank t gets id k+1 when it falls into the k-th consecutive slice |
| Classifier.EveryGroupGetsEachLabel | xrsdkit/models/classifier.py:170-185 | with at least g samples, every rank gets an id 1..g, and every id 1..g gets some rank |
| Classifier.AssignGroups | xrsdkit/models/classifier.py:177-185 | the sample at rank t receives the id of t's slice |
| Classifier.RowsOf | xrsdkit/models/classifier.py:172-173 | the rows of a label are exactly its row indices, in increasing order |
| Classifier.Distinct | xrsdkit/models/classifier.py:155-159 | each label present appears once |
| Classifier.SpreadableMembers | xrsdkit/models/classifier.py:159-164 | the labels kept are exactly those with at least n_groups samples |
| Classifier.PopSparseLabels | xrsdkit/models/classifier.py:159-164 | popping sparse labels in a loop leaves `Spreadable` |
| Classifier.RuleSizes | xrsdkit/models/classifier.py:178-181 | there are g sizes; the corrected ones sum to n, the as-written ones to at least n |
| Classifier.LabelSizes | xrsdkit/models/classifier.py:178-181 | the size computation returns `RuleSizes` for the chosen rule |
| Classifier.CopyToRows | xrsdkit/models/classifier.py:184-186 | `groupids[label_idx] = lgroups` writes the m-th id into the m-th row of the label and leaves every other row unchanged |
| Classifier.WriteLabelGroups | xrsdkit/models/classifier.py:171-186 | under either size rule, the rows of the current label get their slice ids, and every other row is unchanged |
| Classifier.LabelWrittenKept | xrsdkit/models/classifier.py:186 | under either size rule, writing one label's rows keeps every other label's ids |
| Classifier.WriteAllGroups | xrsdkit/models/classifier.py:156-186 | under either size rule, rows of dropped labels keep id 0, and every kept label's rows carry their slice ids |
| Classifier.GroupedSpreadsLabels | xrsdkit/models/classifier.py:170-186 | in a grouping with the corrected sizes, each kept label has a sample in each of the groups 1..n_groups |
| Classifier.GroupByPc1 | xrsdkit/models/classifier.py:154-187 | with n_groups == 0, two or more labels and a diverse grouping, the size division raises ZeroDivisionError; otherwise the flag is True iff at least two labels have n_groups samples and the grouping is diverse; with False every id is 0; with True every kept label's rows carry their slice ids under the chosen size rule, and with the corrected rule each group 1..n_groups holds each kept label |
| Classifier.MinimizationScore | xrsdkit/models/classifier.py:144-151 | the score is minus f1 when the metric contains 'f1'; else minus precision when it contains 'prec'; else minus recall when it contains 'rec'; else minus accuracy |
| Classifier.SelectedScore | xrsdkit/models/classifier.py:144-151 | the selected score is the first test whose fragment the metric contains, and accuracy when it contains none |
| Classifier.MinimizationScoreSelects | xrsdkit/models/classifier.py:144-151 | the minimisation score is minus the score that the ordered tests 'f1', 'prec', 'rec' select |
| Classifier.PrecisionMetricMinimisesPrecision | xrsdkit/models/classifier.py:146-149 | 'precision' contains 'rec', yet it selects minus precision because 'prec' is tested first |
| Classifier.F1MetricMinimisesF1 | xrsdkit/models/classifier.py:144-145 | 'f1_macro' selects minus f1 |
| Classifier.RecallMetricMinimisesRecall | xrsdkit/models/classifier.py:148-149 | 'recall' selects minus recall |
| Classifier.AccuracyMetricMinimisesAccuracy | xrsdkit/models/classifier.py:150-151 | 'accuracy' falls through to minus accuracy |
| Classifier.ScoreAverage | xrsdkit/models/classifier.py:131-134 | "binary" iff there are two labels and the first is a boolean, otherwise "macro" |
| Classifier.CvReport | xrsdkit/models/classifier.py:128-152 | the report has the seven keys in order, each once, with the labels in first-seen order and the selected minimisation score |
| Classifier.Get | xrsdkit/models/classifier.py:198 | `.get(k, None)` is Some exactly when the key is present, with its value |
| Classifier.GetCvSummary | xrsdkit/models/classifier.py:196-198 | the summary keeps the model type, and its scores have exactly the keys f1, accuracy, precision and recall, each the recorded value or None |
| Classifier.SummaryOfReport | xrsdkit/models/classifier.py:196-198 | the summary of a report from `cv_report` (lines 128-152) records all four scores with their own values |

## Left out

- numpy's floating point is not modelled: rounding, NaN and infinity do not arise, and
  `exp`, `log`, `sqrt`, real powers, `sin`, `cos` and pi are function values that obey
  only the laws in `Reals.Lawful`.
- `np.linalg.solve`, `np.polyfit`, `wofz` (Voigt), the Pearson correlation, the PCA
  projection with its argsort, `_diverse_groups_possible` and the scikit-learn scores and
  confusion matrix are parameters.
- `np.random.rand` draws are a parameter `rand: nat -> real`. The fit objective
  `saxs_chi2log` is a parameter, because `SaxsFitter.evaluate` uses undefined names
  (saxskit/saxs_fit.py:42, 48, 51).
- SaxsFit.UnpackParams: a list-valued `I0_floor` is reported as TypeError. The source
  appends the list as one element, and then `np.array` does one of two things. When other
  values follow, the list is ragged: numpy 1.24 and later raise ValueError, and older numpy
  builds an object array. When the list is the only entry, numpy builds a 2-D array of
  shape (1, len).
- SaxsFit.MCAnnealFit: the objective is a parameter. As written, `saxs_chi2log` builds a
  `SaxsFitter` without a q-range (saxskit/saxs_fit.py:181), so the call at line 217 raises
  NameError on `I` before the loop, before the division by `nsteps` and before any
  `param_limits` lookup. The model describes the annealing as it runs with a working
  objective.
- SaxsFit.MCAnnealFit: parameters are single floats. A list-valued parameter (several
  populations of one kind) makes `v*(1+...)` raise TypeError at saxskit/saxs_fit.py:235;
  the model does not represent list values here.
- SaxsMath.FloorProfile: when q has exactly one point, numpy broadcasts a list-valued
  `I0_floor` of any length k to k intensities (saxskit/saxs_math.py:69). The model reports
  ValueError for that case, so `compute_saxs` always returns one intensity per q.
- Classifier.GroupedSpreadsLabels: holds of the corrected group sizes only. With the sizes
  of xrsdkit/models/classifier.py:178 a label can miss the last groups, which
  Classifier.AsWrittenLeavesGroupsEmpty exhibits.
- `pack_params` is not modelled: it writes to the literal key 'pkey'
  (saxskit/saxs_fit.py:70). No pack/unpack round trip is claimed.
- `SaxsFitter.fit` is `pass`, so `fit_spectrum` cannot unpack its result; the model stops
  at the NameError that comes first. The commented-out optimiser and heuristics are not
  modelled.
- `saxs_Iq4_metrics` is not modelled: it calls the Python 2 `.next()` method.
- `fit_I0`, `compute_Rsquared` and `compute_pearson` are not modelled.
- The non-fluctuation metrics of `profile_spectrum` are not modelled: the function always
  raises before it returns (see `SaxsMath.ProfileSpectrum`).
- SaxsMath.ComputeSaxs and its helpers require radii of gyration and sphere radii > 0 and
  Porod exponents >= 0, the domain that `param_limits` keeps. Outside it the source does
  not fail in one way: a Python float r_g of 0.0 raises ZeroDivisionError at `1./r_g`
  (saxskit/saxs_math.py:170), a negative Porod exponent gives NaN from `np.sqrt`, and a
  negative r_g with a fractional exponent gives a complex number. The model does not
  represent these outcomes. Size spreads of any sign are allowed: a spread below 1e-9,
  negative ones included, takes the sharp-sphere branch.
- SaxsMath.SphericalNormalSaxs requires r0 > 0, for the same reason.
- SaxsMath.FitWithSlopeConstraint requires q_cons != 0. At zero the source forms
  `0 * 0**-1`, which numpy evaluates to NaN.
- PeakMath.PeakProfile requires a nonzero `hwhm_g` for 'gaussian', which divides by it;
  numpy then gives infinity or NaN, with no exception. For 'lorentzian' a zero `hwhm_l` is
  modelled away from the centre, where the source gives 0 (`PeakMath.LorentzianZeroWidth`).
  It is excluded only at q == q_pk, where the source computes 0/0 = NaN. The Voigt oracle
  takes any widths.
- Diffraction.MergePeaks and Diffraction.FccPeaks require distinct Miller indices, which
  pymatgen's lattice points have.
- `fcc_intensity` outside lines 50-97 is not modelled: pymatgen's `Lattice`,
  `xrsf.fcc_sf`, form factors, and the Lorentz and polarisation correction. The lattice
  points (assumed to lie within G_max, as `get_points_in_sphere` returns them) and their |F|^2 are inputs; `sorted` is the model's `SortForMerge`.
- The keys of `symmetry_operations` come from `space_groups.crystal_point_groups`, which
  is not part of this model. Point groups other than the four assigned ones are treated
  as unset (`None`).
- The inversion matrix holds floats (-1.0). The model uses the equal integers.
- The gui, saxs_citrination and setup modules and the tests are not modelled.
- Model training, saving models to yaml, pickle and text files, and creating directories
  in train.py are not modelled.
- In train.py, `modelable_structure_settings` and the `noise_params[modnm].keys()` call
  on a list (train.py:412) are not modelled: neither can run as written.
- scikit-learn model construction, `predict`, `print_confusion_matrix` and
  `print_CV_report` in classifier.py are not modelled.
- The Citrination fetch, pagination and upload (`get_pifs_from_Citrination`,
  `sampl_data_on_Citrination`) are not modelled. `piftools.unpack_pif` is taken as
  already applied: records arrive unpacked.
- `profiler.profile_keys` and `profile_keys_1` are a parameter and the features.
- The NaN-to-None `where` is not modelled: cells are already `None` where a value is
  missing.
- CitrinationTools.GetData reports a feature key outside the profile keys as ValueError,
  which pandas 1.0 and later raise when a row has more values than there are columns;
  older pandas raised AssertionError with the same message.
- CitrinationTools.GetData assumes distinct profile keys, as the fixed module list has.
  With a repeated key, `OrderedDict.fromkeys` collapses it in the rows but not in the
  column list, every row is shorter than the columns and pandas raises; the model
  instead returns the rows.
- The features of `make_sample_one_experiment` are assumed to have equal length.
- Classifier.Distinct lists labels in first-seen order, whereas `value_counts()` orders
  them by count. Each label writes only its own rows, so the group ids do not depend on
  that order.
- `round(n/g)` is modelled on exact rationals, with Python 3's ties-to-even rule.
  Float division of small integers gives the same rounding. The group-size finding
  depends on that rule: Python 2 rounds halves away from zero and floors `n/g`.

## Findings

| source | as written | input that shows it | evidently intended | confidence | as-written member | corrected member |
|---|---|---|---|---|---|---|
| xrsdkit/tools/citrination_tools.py:191-198 | row i is compared with the group's rows 0..len(df)-1 (`group.iloc[j]`), not with the rows already kept in `df` | features [0.0], [0.5], [3.0], [3.2] with min_distance 1: rows 3.0 and 3.2 are both kept although they are 0.2 apart | compare with `df.iloc[j]`, the kept rows, so that kept rows are at least min_distance apart | not executed | CitrinationTools.SampleGroupAsWritten, CitrinationTools.AsWrittenKeepsCloseRows, CitrinationTools.MakeSampleOneExperiment with `WithGroupRows` | CitrinationTools.SampleGroup, CitrinationTools.KeptSeparated, CitrinationTools.KeptCovers, CitrinationTools.MakeSampleOneExperiment with `WithKeptRows` |
| xrsdkit/models/classifier.py:178-181 | `gp_size` starts from `round(n/n_groups)` and the first n mod n_groups groups are incremented, so when the quotient rounds up the sizes add up to more than n | 9 samples of a label in 5 groups: sizes [3,3,3,3,2] sum to 14, and groups 4 and 5 receive none of the label's samples | start from `n // n_groups`, so the sizes sum to n and every group gets the label | not executed | Classifier.GroupSizesAsWritten, Classifier.AsWrittenLeavesGroupsEmpty, Classifier.AsWrittenSizesSum, Classifier.GroupByPc1 with `AsWritten` | Classifier.GroupSizes, Classifier.BalancedSizes, Classifier.EveryGroupGetsEachLabel, Classifier.GroupByPc1 with `Corrected`, Classifier.GroupedSpreadsLabels |
