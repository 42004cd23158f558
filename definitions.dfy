/** The constant tables of xrsdkit/definitions.py: the structure, form-factor and noise
    names, the parameters and settings each of them takes, the parameter defaults with
    their bounds, and the setting defaults, datatypes and allowed selections. Python
    dicts keep insertion order, so each table is an ordered dictionary. */
module Definitions {
  import opened Common

  /** The keys of a table, as a set. */
  function Keys<V>(d: OrderedDict<string, V>): set<string>
  {
    set k | k in KeysOf(d)
  }

  /** Every name listed anywhere in a table of name lists. */
  function Listed(d: OrderedDict<string, seq<string>>): set<string>
  {
    set e, p | e in d && p in e.1 :: p
  }

  // ---------------------------------------------------------------------------
  // Names

  const StructureNames: seq<string> := ["unidentified", "diffuse", "disordered", "crystalline"]
  const FormFactorNames: seq<string> := ["flat", "atomic", "guinier_porod", "spherical", "spherical_normal"]
  const NoiseModelNames: seq<string> := ["flat"]
  const NoncrystallineFormFactors: seq<string> := ["spherical_normal", "guinier_porod"]
  const DisorderedStructures: seq<string> := ["hard_spheres"]
  const CrystallineStructures: seq<string> := ["fcc", "hcp"]

  // ---------------------------------------------------------------------------
  // Parameters and settings per structure, form factor and noise model

  const NoiseParams: OrderedDict<string, seq<string>> := [("flat", ["I0"])]

  const StructureParams: OrderedDict<string, seq<string>> := [
    ("unidentified", []),
    ("diffuse", ["I0"]),
    ("disordered", ["I0"]),
    ("crystalline", ["I0", "hwhm_g", "hwhm_l"])]

  const StructureSettings: OrderedDict<string, seq<string>> := [
    ("unidentified", []),
    ("diffuse", []),
    ("disordered", ["interaction"]),
    ("crystalline", ["lattice", "profile", "q_min", "q_max", "structure_factor_mode"])]

  const FormFactorParams: OrderedDict<string, seq<string>> := [
    ("flat", []),
    ("atomic", []),
    ("guinier_porod", ["rg", "D"]),
    ("spherical", ["r"]),
    ("spherical_normal", ["r0", "sigma"])]

  const FormFactorSettings: OrderedDict<string, seq<string>> := [
    ("flat", []),
    ("atomic", ["symbol"]),
    ("guinier_porod", []),
    ("spherical", []),
    ("spherical_normal", [])]

  const DisorderedStructureParams: OrderedDict<string, seq<string>> := [("hard_spheres", ["r_hard", "v_fraction"])]

  const CrystallineStructureParams: OrderedDict<string, seq<string>> := [("fcc", ["a"]), ("hcp", ["a"])]

  const AllParams: seq<string> := ["I0", "a", "hwhm_g", "hwhm_l", "rg", "D", "r", "r0", "sigma", "r_hard", "v_fraction"]

  const RegressionParams: seq<string> :=
    ["I0_fraction", "a", "hwhm_g", "hwhm_l", "rg", "D", "r", "r0", "sigma", "r_hard", "v_fraction"]

  // ---------------------------------------------------------------------------
  // Parameter defaults

  /** A parameter record: value, fixed flag, bounds `[lo, hi]` with `None` for no upper
      bound, and a constraint expression (always `None` in the defaults). */
  datatype Param = Param(value: real, fixed: bool, lo: real, hi: Option<real>, constraintExpr: Option<string>)

  predicate WithinBounds(p: Param)
  {
    p.lo <= p.value && (p.hi.Some? ==> p.value <= p.hi.value)
  }

  function Free(value: real, lo: real, hi: Option<real>): Param
  {
    Param(value, false, lo, hi, None)
  }

  const ParamDefaults: OrderedDict<string, Param> := [
    ("I0", Free(1.0, 0.0, None)),
    ("rg", Free(10.0, 0.1, None)),
    ("D", Param(4.0, true, 0.0, Some(4.0), None)),
    ("r", Free(20.0, 0.1, None)),
    ("r0", Free(20.0, 0.1, None)),
    ("sigma", Free(0.05, 0.0, Some(2.0))),
    ("r_hard", Free(20.0, 0.1, None)),
    ("v_fraction", Free(0.5, 0.01, Some(0.7405))),
    ("hwhm_g", Free(0.001, 0.000000001, None)),
    ("hwhm_l", Free(0.001, 0.000000001, None)),
    ("a", Free(10.0, 0.1, None))]

  const NoiseParamDefaults: OrderedDict<string, Param> := [("I0", Free(0.0, 0.0, None))]

  const CoordDefault: Param := Param(0.0, true, -1.0, Some(1.0), None)

  // ---------------------------------------------------------------------------
  // Setting defaults, datatypes and selections

  datatype SettingType = Str | Float

  datatype Setting = StrSetting(s: string) | FloatSetting(x: real)

  function TypeOf(v: Setting): SettingType
  {
    match v
    case StrSetting(_) => Str
    case FloatSetting(_) => Float
  }

  const SettingDefaults: OrderedDict<string, Setting> := [
    ("lattice", StrSetting("fcc")),
    ("interaction", StrSetting("hard_spheres")),
    ("symbol", StrSetting("H")),
    ("q_min", FloatSetting(0.0)),
    ("q_max", FloatSetting(1.0)),
    ("profile", StrSetting("voigt")),
    ("structure_factor_mode", StrSetting("local"))]

  const SettingDatatypes: OrderedDict<string, SettingType> := [
    ("lattice", Str),
    ("interaction", Str),
    ("symbol", Str),
    ("q_min", Float),
    ("q_max", Float),
    ("profile", Str),
    ("structure_factor_mode", Str)]

  const SettingSelections: OrderedDict<string, seq<Setting>> := [
    ("lattice", [StrSetting("fcc")]),
    ("interaction", [StrSetting("hard_spheres")]),
    ("symbol", []),
    ("profile", [StrSetting("gaussian"), StrSetting("lorentzian"), StrSetting("voigt")]),
    ("structure_factor_mode", [StrSetting("local"), StrSetting("radial")])]

  const ParameterUnits: OrderedDict<string, string> := [
    ("I0", "arbitrary"),
    ("rg", "Angstrom"),
    ("D", "unitless"),
    ("r", "Angstrom"),
    ("r0", "Angstrom"),
    ("sigma", "unitless"),
    ("r_hard", "Angstrom"),
    ("v_fraction", "unitless"),
    ("hwhm_g", "1/Angstrom"),
    ("hwhm_l", "1/Angstrom"),
    ("a", "Angstrom")]

  // ---------------------------------------------------------------------------
  // Cross-consistency of the tables

  /** Every default parameter value lies within its bounds. */
  lemma DefaultsWithinBounds()
    ensures forall e :: e in ParamDefaults ==> WithinBounds(e.1)
    ensures forall e :: e in NoiseParamDefaults ==> WithinBounds(e.1)
    ensures WithinBounds(CoordDefault)
  {
  }

  /** Every parameter that a structure, a form factor, a noise model or a disordered or
      crystalline structure takes has a default. */
  lemma ListedParamsHaveDefaults()
    ensures Listed(StructureParams) <= Keys(ParamDefaults)
    ensures Listed(FormFactorParams) <= Keys(ParamDefaults)
    ensures Listed(NoiseParams) <= Keys(ParamDefaults)
    ensures Listed(DisorderedStructureParams) <= Keys(ParamDefaults)
    ensures Listed(CrystallineStructureParams) <= Keys(ParamDefaults)
  {
    assert KeysOf(ParamDefaults) == ["I0", "rg", "D", "r", "r0", "sigma", "r_hard", "v_fraction", "hwhm_g", "hwhm_l", "a"];
  }

  /** `all_params` lists exactly the parameters that have defaults (and units), each once. */
  lemma AllParamsAreTheDefaults()
    ensures (set p | p in AllParams) == Keys(ParamDefaults)
    ensures Keys(ParameterUnits) == Keys(ParamDefaults)
    ensures forall i, j :: 0 <= i < j < |AllParams| ==> AllParams[i] != AllParams[j]
    ensures DistinctKeys(ParamDefaults)
  {
    DefaultKeysListed();
    AllParamsDistinct();
    DistinctParamKeys(ParamDefaults);
  }

  const ParamKeys: seq<string> := ["I0", "rg", "D", "r", "r0", "sigma", "r_hard", "v_fraction", "hwhm_g", "hwhm_l", "a"]

  lemma DefaultKeysListed()
    ensures KeysOf(ParamDefaults) == ParamKeys && KeysOf(ParameterUnits) == ParamKeys
    ensures (set p | p in AllParams) == Keys(ParamDefaults)
    ensures Keys(ParameterUnits) == Keys(ParamDefaults)
  {
    assert KeysOf(ParamDefaults) == ParamKeys;
    assert KeysOf(ParameterUnits) == ParamKeys;
  }

  lemma AllParamsDistinct()
    ensures forall i, j :: 0 <= i < j < |AllParams| ==> AllParams[i] != AllParams[j]
  {
  }

  /** A table keyed by the parameter names in their default order has distinct keys. */
  lemma DistinctParamKeys<V>(d: OrderedDict<string, V>)
    requires KeysOf(d) == ParamKeys
    ensures DistinctKeys(d)
  {
    forall i, j | 0 <= i < j < |d| ensures d[i].0 != d[j].0 {
      assert d[i].0 == ParamKeys[i] && d[j].0 == ParamKeys[j];
    }
  }

  /** `regression_params` is `all_params` with `I0` replaced by `I0_fraction`. */
  lemma RegressionParamsReplaceI0()
    ensures AllParams[0] == "I0"
    ensures RegressionParams == AllParams[0 := "I0_fraction"]
  {
  }

  /** Every setting of a structure or a form factor has a default and a datatype, and the
      default has that datatype. */
  lemma SettingsHaveTypedDefaults()
    ensures Listed(StructureSettings) + Listed(FormFactorSettings) <= Keys(SettingDefaults)
    ensures Keys(SettingDefaults) == Keys(SettingDatatypes)
    ensures forall i :: 0 <= i < |SettingDefaults| ==>
      SettingDatatypes[i].0 == SettingDefaults[i].0 && TypeOf(SettingDefaults[i].1) == SettingDatatypes[i].1
  {
    assert KeysOf(SettingDefaults) == ["lattice", "interaction", "symbol", "q_min", "q_max", "profile", "structure_factor_mode"];
    assert KeysOf(SettingDatatypes) == ["lattice", "interaction", "symbol", "q_min", "q_max", "profile", "structure_factor_mode"];
  }

  /** A default setting with a non-empty list of selections is one of them. */
  lemma DefaultsAreSelectable()
    ensures forall e, d :: e in SettingSelections && d in SettingDefaults && d.0 == e.0 && e.1 != [] ==> d.1 in e.1
  {
    forall e, d | e in SettingSelections && d in SettingDefaults && d.0 == e.0 && e.1 != []
      ensures d.1 in e.1
    {
      var j :| 0 <= j < |SettingDefaults| && SettingDefaults[j] == d;
      assert d.0 in ["lattice", "interaction", "profile", "structure_factor_mode"];
    }
  }

  /** The form factors not supported for crystalline structures are form factors. */
  lemma NoncrystallineAreFormFactors()
    ensures forall f :: f in NoncrystallineFormFactors ==> f in FormFactorNames
  {
  }

  /** The per-structure and per-form-factor tables are keyed by exactly the names. */
  lemma TablesKeyedByNames()
    ensures Keys(StructureParams) == Keys(StructureSettings) == set s | s in StructureNames
    ensures Keys(FormFactorParams) == Keys(FormFactorSettings) == set f | f in FormFactorNames
    ensures Keys(NoiseParams) == set n | n in NoiseModelNames
    ensures Keys(DisorderedStructureParams) == set s | s in DisorderedStructures
    ensures Keys(CrystallineStructureParams) == set s | s in CrystallineStructures
  {
    assert KeysOf(StructureParams) == KeysOf(StructureSettings) == StructureNames;
    assert KeysOf(FormFactorParams) == KeysOf(FormFactorSettings) == FormFactorNames;
    assert KeysOf(NoiseParams) == NoiseModelNames;
    assert KeysOf(DisorderedStructureParams) == DisorderedStructures;
    assert KeysOf(CrystallineStructureParams) == CrystallineStructures;
  }
}
