/** The bookkeeping of xrsdkit/models/train.py around the training itself: which system
    classifiers are trained (one per non-null combination of structure flags, keyed by
    the flagged structure names joined with `__`), which samples each one sees, the
    system-class labels that get per-class models, the population ids of a system class,
    and the training summary that `collect_summary` assembles. */
module Train {
  import opened Common
  import opened Strings
  import Definitions

  // ---------------------------------------------------------------------------
  // Flag combinations

  function Pow2(n: nat): (p: nat)
    ensures p >= 1
  {
    if n == 0 then 1 else 2 * Pow2(n - 1)
  }

  function Prefixed(b: bool, ts: seq<seq<bool>>): (r: seq<seq<bool>>)
    ensures |r| == |ts|
  {
    seq(|ts|, i requires 0 <= i < |ts| => [b] + ts[i])
  }

  /** `itertools.product([True, False], repeat=n)`, in its order. */
  function FlagTuples(n: nat): (r: seq<seq<bool>>)
    ensures |r| == Pow2(n)
    ensures forall i :: 0 <= i < |r| ==> |r[i]| == n
  {
    if n == 0 then [[]] else Prefixed(true, FlagTuples(n - 1)) + Prefixed(false, FlagTuples(n - 1))
  }

  /** Tuple k of the product: the first half starts with True, the second with False,
      each followed by the tuples for one flag fewer. */
  lemma FlagTuplesAt(n: nat, k: nat)
    requires n > 0 && k < Pow2(n)
    ensures Pow2(n) == 2 * Pow2(n - 1)
    ensures FlagTuples(n)[k] ==
      if k < Pow2(n - 1) then [true] + FlagTuples(n - 1)[k] else [false] + FlagTuples(n - 1)[k - Pow2(n - 1)]
  {
  }

  /** Every flag tuple of length n is produced. */
  lemma {:induction false} FlagTuplesComplete(n: nat, t: seq<bool>)
    requires |t| == n
    ensures t in FlagTuples(n)
  {
    if n > 0 {
      FlagTuplesComplete(n - 1, t[1..]);
      var k :| 0 <= k < |FlagTuples(n - 1)| && FlagTuples(n - 1)[k] == t[1..];
      assert t == [t[0]] + t[1..];
      var h := Pow2(n - 1);
      var at := if t[0] then k else h + k;
      FlagTuplesAt(n, at);
      assert FlagTuples(n)[at] == t;
    }
  }

  /** No flag tuple is produced twice. */
  lemma {:induction false} FlagTuplesDistinct(n: nat)
    ensures forall i, j :: 0 <= i < j < |FlagTuples(n)| ==> FlagTuples(n)[i] != FlagTuples(n)[j]
  {
    if n > 0 {
      FlagTuplesDistinct(n - 1);
      var r, h := FlagTuples(n), Pow2(n - 1);
      forall i, j | 0 <= i < j < |r| ensures r[i] != r[j] {
        if j < h {
          assert r[i][1..] == FlagTuples(n - 1)[i] && r[j][1..] == FlagTuples(n - 1)[j];
        } else if i >= h {
          assert r[i][1..] == FlagTuples(n - 1)[i - h] && r[j][1..] == FlagTuples(n - 1)[j - h];
        } else {
          assert r[i][0] != r[j][0];
        }
      }
    }
  }

  /** `sum(flags)`: the number of True flags. */
  function CountTrue(flags: seq<bool>): (c: nat)
    ensures c <= |flags|
    ensures c > 0 <==> HasTrue(flags)
  {
    if flags == [] then 0
    else
      var front := flags[..|flags| - 1];
      assert forall k :: 0 <= k < |front| ==> front[k] == flags[k];
      assert HasTrue(front) ==> HasTrue(flags);
      CountTrue(front) + (if flags[|flags| - 1] then 1 else 0)
  }

  predicate HasTrue(t: seq<bool>)
  {
    exists k :: 0 <= k < |t| && t[k]
  }

  /** n False flags. */
  function Falses(n: nat): (t: seq<bool>)
    ensures |t| == n
  {
    if n == 0 then [] else [false] + Falses(n - 1)
  }

  /** The last tuple of the product is the all-False one. */
  lemma {:induction false} LastTupleIsFalses(n: nat)
    ensures FlagTuples(n)[Pow2(n) - 1] == Falses(n)
  {
    if n > 0 {
      LastTupleIsFalses(n - 1);
      LastOfFlagTuples(n);
      SameHead(FlagTuples(n)[Pow2(n) - 1], Falses(n), FlagTuples(n - 1)[Pow2(n - 1) - 1], Falses(n - 1));
    }
  }

  lemma LastOfFlagTuples(n: nat)
    requires n > 0
    ensures FlagTuples(n)[Pow2(n) - 1] == [false] + FlagTuples(n - 1)[Pow2(n - 1) - 1]
  {
    FlagTuplesAt(n, Pow2(n) - 1);
  }

  lemma SameHead(x: seq<bool>, y: seq<bool>, a: seq<bool>, b: seq<bool>)
    requires x == [false] + a && y == [false] + b && a == b
    ensures x == y
  {
  }

  lemma {:induction false} FalsesHaveNoTrue(n: nat)
    ensures !HasTrue(Falses(n))
  {
    if n > 0 {
      FalsesHaveNoTrue(n - 1);
      NoTrueCons(Falses(n - 1));
    }
  }

  /** The last tuple of the product is all False. */
  lemma LastTupleAllFalse(n: nat)
    ensures !HasTrue(FlagTuples(n)[Pow2(n) - 1])
  {
    LastTupleIsFalses(n);
    FalsesHaveNoTrue(n);
  }

  /** Putting a False flag in front adds no True flag. */
  lemma NoTrueCons(t: seq<bool>)
    requires !HasTrue(t)
    ensures !HasTrue([false] + t)
  {
    var s := [false] + t;
    forall k | 0 <= k < |s| ensures !s[k] {
      if k > 0 { assert s[k] == t[k - 1]; }
    }
  }

  /** Every other tuple has a True flag. */
  lemma {:induction false} EarlierTuplesHaveTrue(n: nat)
    ensures forall i :: 0 <= i < Pow2(n) - 1 ==> HasTrue(FlagTuples(n)[i])
  {
    if n > 0 {
      EarlierTuplesHaveTrue(n - 1);
      var r, h := FlagTuples(n), Pow2(n - 1);
      forall i | 0 <= i < Pow2(n) - 1 ensures HasTrue(r[i]) {
        if i < h {
          assert r[i][0];
        } else {
          var tail := FlagTuples(n - 1)[i - h];
          assert HasTrue(tail);
          var k :| 0 <= k < |tail| && tail[k];
          assert r[i] == [false] + tail;
          assert r[i][k + 1];
        }
      }
    }
  }

  /** Only the last tuple, all False, has no True flag. */
  lemma {:induction false} OnlyLastTupleIsNull(n: nat)
    ensures forall i :: 0 <= i < Pow2(n) - 1 ==> CountTrue(FlagTuples(n)[i]) > 0
    ensures CountTrue(FlagTuples(n)[Pow2(n) - 1]) == 0
  {
    var r := FlagTuples(n);
    EarlierTuplesHaveTrue(n);
    LastTupleAllFalse(n);
    forall i | 0 <= i < Pow2(n) - 1 ensures CountTrue(r[i]) > 0 {
      assert HasTrue(r[i]);
    }
  }

  /** The flag tuples with `sum(flags) > 0`, in product order. */
  function NonNull(ts: seq<seq<bool>>): seq<seq<bool>>
  {
    if ts == [] then []
    else NonNull(ts[..|ts| - 1]) + (if CountTrue(ts[|ts| - 1]) > 0 then [ts[|ts| - 1]] else [])
  }

  lemma {:induction false} NonNullAllKept(ts: seq<seq<bool>>)
    requires forall i :: 0 <= i < |ts| ==> CountTrue(ts[i]) > 0
    ensures NonNull(ts) == ts
  {
    if ts != [] {
      var front, last := ts[..|ts| - 1], ts[|ts| - 1];
      forall i | 0 <= i < |front| ensures CountTrue(front[i]) > 0 {
        assert front[i] == ts[i];
      }
      NonNullAllKept(front);
      assert NonNull(ts) == front + [last];
      assert ts == front + [last];
    }
  }

  /** System classifiers are considered for exactly the `2^n - 1` tuples that are not all
      False: every tuple but the last one of the product. */
  lemma {:induction false} NonNullCombinations(n: nat)
    ensures |NonNull(FlagTuples(n))| == Pow2(n) - 1
    ensures forall t :: t in NonNull(FlagTuples(n)) <==> |t| == n && HasTrue(t)
  {
    var r := FlagTuples(n);
    OnlyLastTupleIsNull(n);
    NonNullDropsLast(r);
    EarlierTuplesHaveTrue(n);
    LastTupleAllFalse(n);
    forall t | |t| == n ensures t in r {
      FlagTuplesComplete(n, t);
    }
    AllButLastHaveTrue(r, n);
  }

  /** Of a list holding every tuple of length n, with only its last one free of True
      flags, the others are exactly the tuples of length n with a True flag. */
  lemma AllButLastHaveTrue(r: seq<seq<bool>>, n: nat)
    requires |r| > 0 && forall i :: 0 <= i < |r| ==> |r[i]| == n
    requires forall i :: 0 <= i < |r| - 1 ==> HasTrue(r[i])
    requires !HasTrue(r[|r| - 1])
    requires forall t :: |t| == n ==> t in r
    ensures forall t :: t in r[..|r| - 1] <==> |t| == n && HasTrue(t)
  {
    var front := r[..|r| - 1];
    forall t ensures t in front <==> |t| == n && HasTrue(t) {
      if t in front {
        var i :| 0 <= i < |front| && front[i] == t;
        assert t == r[i];
      }
      if |t| == n && HasTrue(t) {
        var i :| 0 <= i < |r| && r[i] == t;
        assert front[i] == t;
      }
    }
  }

  lemma {:induction false} NonNullDropsLast(ts: seq<seq<bool>>)
    requires |ts| > 0 && CountTrue(ts[|ts| - 1]) == 0
    requires forall i :: 0 <= i < |ts| - 1 ==> CountTrue(ts[i]) > 0
    ensures NonNull(ts) == ts[..|ts| - 1]
    ensures |NonNull(ts)| == |ts| - 1
  {
    var front := ts[..|ts| - 1];
    assert forall i :: 0 <= i < |front| ==> CountTrue(front[i]) > 0;
    NonNullAllKept(front);
  }

  // ---------------------------------------------------------------------------
  // Model ids and sample selection

  /** The names whose flag is True, in order. */
  function Selected(names: seq<string>, flags: seq<bool>): (r: seq<string>)
    requires |flags| == |names|
    ensures |r| == CountTrue(flags)
    ensures forall x :: x in r ==> x in names
  {
    if names == [] then []
    else
      var n := |names| - 1;
      Selected(names[..n], flags[..n]) + (if flags[n] then [names[n]] else [])
  }

  /** The id that the loop builds: `model_id += '__'` when it is already non-empty, then
      `model_id += struct_nm`, for each flagged name. */
  function ModelIdOf(names: seq<string>, flags: seq<bool>): string
    requires |flags| == |names|
  {
    if names == [] then ""
    else
      var n := |names| - 1;
      var prev := ModelIdOf(names[..n], flags[..n]);
      if !flags[n] then prev else if prev != "" then prev + "__" + names[n] else names[n]
  }

  /** Lines 111-117: the model id of one flag combination. */
  method ModelId(names: seq<string>, flags: seq<bool>) returns (id: string)
    requires |flags| == |names|
    ensures id == ModelIdOf(names, flags)
  {
    id := "";
    for i := 0 to |names|
      invariant id == ModelIdOf(names[..i], flags[..i])
    {
      assert names[..i + 1][..i] == names[..i] && flags[..i + 1][..i] == flags[..i];
      if flags[i] {
        if id != "" {
          id := id + "__";
        }
        id := id + names[i];
      }
    }
    assert names[..|names|] == names && flags[..|flags|] == flags;
  }

  /** With non-empty names, the model id joins the flagged names with `__`. */
  lemma {:induction false} ModelIdIsJoin(names: seq<string>, flags: seq<bool>)
    requires |flags| == |names|
    requires forall k :: 0 <= k < |names| ==> names[k] != ""
    ensures ModelIdOf(names, flags) == Join(Selected(names, flags), "__")
    ensures ModelIdOf(names, flags) == "" <==> CountTrue(flags) == 0
  {
    if names != [] {
      var n := |names| - 1;
      ModelIdIsJoin(names[..n], flags[..n]);
      var front := Selected(names[..n], flags[..n]);
      assert front == [] <==> CountTrue(flags[..n]) == 0;
      assert Selected(names, flags) == front + (if flags[n] then [names[n]] else []);
      assert CountTrue(flags) == CountTrue(flags[..n]) + (if flags[n] then 1 else 0);
      if flags[n] {
        JoinAppend(front, names[n], "__");
      } else {
        assert Selected(names, flags) == front;
      }
    }
  }

  /** With names free of `_`, splitting a model id at `__` gives back the flagged names:
      a system class made of k structures has k populations. */
  lemma {:induction false} ModelIdSplits(names: seq<string>, flags: seq<bool>)
    requires |flags| == |names| && CountTrue(flags) > 0
    requires forall k, j :: 0 <= k < |names| && 0 <= j < |names[k]| ==> names[k][j] != '_'
    requires forall k :: 0 <= k < |names| ==> names[k] != ""
    ensures Split(ModelIdOf(names, flags), "__") == Selected(names, flags)
    ensures |Split(ModelIdOf(names, flags), "__")| == CountTrue(flags)
  {
    ModelIdIsJoin(names, flags);
    var parts := Selected(names, flags);
    forall k, j | 0 <= k < |parts| && 0 <= j < |parts[k]| ensures parts[k][j] != "__"[0] {
      assert parts[k] in names;
    }
    SplitJoin(parts, "__");
  }

  /** The structure names are non-empty and free of `_`, so the lemmas above apply. */
  lemma StructureNamesArePlain()
    ensures forall k :: 0 <= k < |Definitions.StructureNames| ==> Definitions.StructureNames[k] != ""
    ensures forall k, j :: 0 <= k < |Definitions.StructureNames| && 0 <= j < |Definitions.StructureNames[k]| ==>
      Definitions.StructureNames[k][j] != '_'
  {
  }

  /** A sample matches a flag combination when each structure name is a substring of its
      system class exactly when that structure's flag is True. */
  predicate Matches(sysCls: string, names: seq<string>, flags: seq<bool>, upTo: nat)
    requires upTo <= |names| == |flags|
  {
    forall k :: 0 <= k < upTo ==> (Contains(sysCls, names[k]) == flags[k])
  }

  /** Lines 110-114: `flag_idx`, narrowed structure by structure with `&=`. */
  method FlagMask(names: seq<string>, flags: seq<bool>, sysClasses: seq<string>) returns (mask: seq<bool>)
    requires |flags| == |names|
    ensures |mask| == |sysClasses|
    ensures forall j :: 0 <= j < |sysClasses| ==> (mask[j] <==> Matches(sysClasses[j], names, flags, |names|))
  {
    mask := seq(|sysClasses|, j => true);
    for s := 0 to |names|
      invariant |mask| == |sysClasses|
      invariant forall j :: 0 <= j < |sysClasses| ==> (mask[j] <==> Matches(sysClasses[j], names, flags, s))
    {
      mask := seq(|mask|, j requires 0 <= j < |mask| => mask[j] && (Contains(sysClasses[j], names[s]) == flags[s]));
    }
  }

  /** Some sample matches the combination (`flag_data.shape[0] > 0`). */
  predicate AnyMatch(sysClasses: seq<string>, names: seq<string>, flags: seq<bool>)
    requires |flags| == |names|
  {
    exists j :: 0 <= j < |sysClasses| && Matches(sysClasses[j], names, flags, |names|)
  }

  /** The keys under which system classifiers are stored, for the combinations given. */
  function SystemClassifierIds(names: seq<string>, sysClasses: seq<string>, combos: seq<seq<bool>>): seq<string>
    requires forall i :: 0 <= i < |combos| ==> |combos[i]| == |names|
  {
    if combos == [] then []
    else
      var flags := combos[|combos| - 1];
      SystemClassifierIds(names, sysClasses, combos[..|combos| - 1])
      + (if CountTrue(flags) > 0 && AnyMatch(sysClasses, names, flags) then [ModelIdOf(names, flags)] else [])
  }

  /** Lines 107-153: the loop over the flag product; a classifier is trained and stored for
      each non-null combination that some sample matches. */
  method SystemClassifiers(names: seq<string>, sysClasses: seq<string>) returns (ids: seq<string>)
    ensures ids == SystemClassifierIds(names, sysClasses, FlagTuples(|names|))
  {
    var combos := FlagTuples(|names|);
    ids := [];
    for c := 0 to |combos|
      invariant ids == SystemClassifierIds(names, sysClasses, combos[..c])
    {
      assert combos[..c + 1][..c] == combos[..c];
      var flags := combos[c];
      if CountTrue(flags) > 0 {
        var mask := FlagMask(names, flags, sysClasses);
        var id := ModelId(names, flags);
        if true in mask {
          var j :| 0 <= j < |mask| && mask[j];
          assert AnyMatch(sysClasses, names, flags);
          ids := ids + [id];
        } else {
          assert !AnyMatch(sysClasses, names, flags);
        }
      }
    }
    assert combos[..|combos|] == combos;
  }

  /** Every stored system classifier is keyed by the flagged names of a non-null
      combination that some sample matches. */
  lemma {:induction false} SystemClassifierIdsSound(names: seq<string>, sysClasses: seq<string>, combos: seq<seq<bool>>, id: string)
    requires forall i :: 0 <= i < |combos| ==> |combos[i]| == |names|
    requires id in SystemClassifierIds(names, sysClasses, combos)
    ensures exists i :: (0 <= i < |combos| && CountTrue(combos[i]) > 0 && AnyMatch(sysClasses, names, combos[i])
      && id == ModelIdOf(names, combos[i]))
  {
    var n := |combos| - 1;
    var front := combos[..n];
    if id in SystemClassifierIds(names, sysClasses, front) {
      SystemClassifierIdsSound(names, sysClasses, front, id);
      var i :| 0 <= i < |front| && CountTrue(front[i]) > 0 && AnyMatch(sysClasses, names, front[i])
        && id == ModelIdOf(names, front[i]);
      assert front[i] == combos[i];
    } else {
      assert CountTrue(combos[n]) > 0 && AnyMatch(sysClasses, names, combos[n]);
    }
  }

  // ---------------------------------------------------------------------------
  // System-class labels and population ids

  /** `data['system_class'].unique()`: each value once, in order of first appearance. */
  function Unique(xs: seq<string>): (r: seq<string>)
    ensures forall x :: x in r <==> x in xs
    ensures forall i, j :: 0 <= i < j < |r| ==> r[i] != r[j]
  {
    if xs == [] then []
    else
      var u := Unique(xs[..|xs| - 1]);
      assert xs == xs[..|xs| - 1] + [xs[|xs| - 1]];
      if xs[|xs| - 1] in u then u else u + [xs[|xs| - 1]]
  }

  /** The labels other than x, in order. */
  function Without(xs: seq<string>, x: string): (r: seq<string>)
    ensures forall y :: y in r <==> y in xs && y != x
  {
    if xs == [] then []
    else
      assert xs == [xs[0]] + xs[1..];
      (if xs[0] == x then [] else [xs[0]]) + Without(xs[1..], x)
  }

  lemma {:induction false} WithoutRemovesOne(xs: seq<string>, i: nat)
    requires i < |xs| && forall j :: 0 <= j < |xs| && j != i ==> xs[j] != xs[i]
    ensures Without(xs, xs[i]) == xs[..i] + xs[i + 1..]
  {
    if i > 0 {
      assert xs[1..][i - 1] == xs[i];
      WithoutRemovesOne(xs[1..], i - 1);
      assert xs[..i] == [xs[0]] + xs[1..][..i - 1];
      assert xs[i + 1..] == xs[1..][i..];
    } else {
      assert forall j :: 0 <= j < |xs| - 1 ==> xs[1..][j] != xs[0];
      WithoutAbsent(xs[1..], xs[0]);
    }
  }

  lemma {:induction false} WithoutAbsent(xs: seq<string>, x: string)
    requires x !in xs
    ensures Without(xs, x) == xs
  {
    if xs != [] {
      assert xs == [xs[0]] + xs[1..];
      WithoutAbsent(xs[1..], x);
    }
  }

  /** Lines 155-157 and 395-397: the distinct system classes, with `unidentified`
      removed (it gets no per-class models). */
  method SystemClassLabels(sysClasses: seq<string>) returns (labels: seq<string>)
    ensures labels == Without(Unique(sysClasses), "unidentified")
    ensures forall x :: x in labels <==> x in sysClasses && x != "unidentified"
    ensures forall i, j :: 0 <= i < j < |labels| ==> labels[i] != labels[j]
  {
    labels := Unique(sysClasses);
    if "unidentified" in labels {
      var i :| 0 <= i < |labels| && labels[i] == "unidentified";
      WithoutRemovesOne(labels, i);
      labels := labels[..i] + labels[i + 1..];
    } else {
      WithoutAbsent(labels, "unidentified");
    }
  }

  function PopId(i: nat): string
  {
    "pop" + NatToString(i)
  }

  /** Distinct populations get distinct ids. */
  lemma {:induction false} PopIdInjective(i: nat, j: nat)
    requires PopId(i) == PopId(j)
    ensures i == j
  {
    assert PopId(i)[3..] == NatToString(i) && PopId(j)[3..] == NatToString(j);
    NatToStringInjective(i, j);
  }

  /** Lines 196-197 and 436-437: one id `pop<i>` per `__`-separated component. */
  method PopIds(sysCls: string) returns (ids: seq<string>)
    ensures |ids| == |Split(sysCls, "__")|
    ensures forall i :: 0 <= i < |ids| ==> ids[i] == PopId(i)
  {
    var structs := Split(sysCls, "__");
    ids := [];
    for ipop := 0 to |structs|
      invariant |ids| == ipop
      invariant forall i :: 0 <= i < ipop ==> ids[i] == PopId(i)
    {
      ids := ids + [PopId(ipop)];
    }
  }

  /** The system class of a flag combination over the structure names has one population
      per flagged structure. */
  lemma {:induction false} PopulationsOfModelId(flags: seq<bool>)
    requires |flags| == |Definitions.StructureNames| && CountTrue(flags) > 0
    ensures |Split(ModelIdOf(Definitions.StructureNames, flags), "__")| == CountTrue(flags)
  {
    StructureNamesArePlain();
    ModelIdSplits(Definitions.StructureNames, flags);
  }

  // ---------------------------------------------------------------------------
  // collect_summary

  /** A model's cross-validation summary; `None` stands for a falsy (empty) summary. A
      score is `None` where the cross-validation report did not record it. */
  datatype ModelSummary = ModelSummary(modelType: string, scores: OrderedDict<string, Option<real>>)

  /** The previous summary as loaded: section, then model, then the model's field (its
      `scores`), then metric, to the stored `[value, delta]` list. */
  type OldSummary = OrderedDict<string, OrderedDict<string, OrderedDict<string, OrderedDict<string, seq<Option<real>>>>>>

  /** A model entry of the new summary: its type and, per metric, `[value, delta]`. */
  datatype Scored = Scored(modelType: string, scores: OrderedDict<string, (Option<real>, Option<real>)>)

  datatype SummaryField = Description(text: string) | Models(models: OrderedDict<string, Scored>)

  const DescriptionText: string :=
    "Each metric is reported with two values: The first value of each metric is the value of the metric, "
    + "and the second value is the delta relative to the currently loaded models"

  /** `old_summary[section][k]['scores'][metric]`, or None when a lookup raises. */
  function StoredPair(previous: OldSummary, section: string, k: string, metric: string): Option<seq<Option<real>>>
  {
    match Lookup(previous, section)
    case Failure(_) => None
    case Success(models) =>
      match Lookup(models, k)
      case Failure(_) => None
      case Success(entry) =>
        match Lookup(entry, "scores")
        case Failure(_) => None
        case Success(scores) =>
          match Lookup(scores, metric)
          case Failure(_) => None
          case Success(pair) => Some(pair)
  }

  /** `value - old_summary[section][k]['scores'][metric][0]`, or None when a lookup, the
      index or the subtraction (a `None` on either side) raises. */
  function Delta(previous: OldSummary, section: string, k: string, metric: string, value: Option<real>): (d: Option<real>)
    ensures var stored := StoredPair(previous, section, k, metric);
      && (d.Some? <==> value.Some? && stored.Some? && |stored.value| > 0 && stored.value[0].Some?)
      && (d.Some? ==> d.value == value.value - stored.value[0].value)
  {
    match StoredPair(previous, section, k, metric)
    case None => None
    case Some(pair) =>
      if value.Some? && |pair| > 0 && pair[0].Some? then Some(value.value - pair[0].value) else None
  }

  /** The `[value, delta]` rows of one model's scores, in metric order. */
  function ScoreRows(previous: OldSummary, section: string, k: string, scores: OrderedDict<string, Option<real>>): (rows: OrderedDict<string, (Option<real>, Option<real>)>)
    ensures |rows| == |scores|
    ensures forall i :: 0 <= i < |scores| ==> rows[i].0 == scores[i].0 && rows[i].1.0 == scores[i].1
    ensures forall i :: 0 <= i < |scores| ==> rows[i].1.1 == Delta(previous, section, k, scores[i].0, scores[i].1)
  {
    seq(|scores|, i requires 0 <= i < |scores| => (scores[i].0, (scores[i].1, Delta(previous, section, k, scores[i].0, scores[i].1))))
  }

  /** One section of the new summary: the models with a truthy summary, in order. */
  function Section(previous: OldSummary, section: string, sums: OrderedDict<string, Option<ModelSummary>>): (r: OrderedDict<string, Scored>)
    ensures |r| <= |sums|
    ensures forall e :: e in r ==> exists i :: 0 <= i < |sums| && sums[i].0 == e.0 && sums[i].1.Some?
  {
    if sums == [] then []
    else
      var n := |sums| - 1;
      var (k, v) := sums[n];
      var front := Section(previous, section, sums[..n]);
      assert forall e :: e in front ==> exists i :: 0 <= i < n && sums[..n][i].0 == e.0 && sums[..n][i].1.Some?;
      match v
      case None => front
      case Some(s) => front + [(k, Scored(s.modelType, ScoreRows(previous, section, k, s.scores)))]
  }

  /** The keys of the models with a truthy summary. */
  function TruthyKeys(sums: OrderedDict<string, Option<ModelSummary>>): seq<string>
  {
    if sums == [] then []
    else TruthyKeys(sums[..|sums| - 1]) + (if sums[|sums| - 1].1.Some? then [sums[|sums| - 1].0] else [])
  }

  /** A section holds exactly the models with a truthy summary, in their order. */
  lemma {:induction false} SectionKeys(previous: OldSummary, section: string, sums: OrderedDict<string, Option<ModelSummary>>)
    ensures |Section(previous, section, sums)| == |TruthyKeys(sums)|
    ensures forall i :: 0 <= i < |TruthyKeys(sums)| ==> Section(previous, section, sums)[i].0 == TruthyKeys(sums)[i]
  {
    if sums != [] {
      SectionKeys(previous, section, sums[..|sums| - 1]);
    }
  }

  /** Lines 683-688 and 695-701: the scores of one model. */
  method CollectScores(previous: OldSummary, section: string, k: string, scores: OrderedDict<string, Option<real>>)
    returns (rows: OrderedDict<string, (Option<real>, Option<real>)>)
    ensures rows == ScoreRows(previous, section, k, scores)
  {
    rows := [];
    for i := 0 to |scores|
      invariant rows == ScoreRows(previous, section, k, scores[..i])
    {
      var (metric, value) := scores[i];
      var diff := Delta(previous, section, k, metric, value);
      rows := rows + [(metric, (value, diff))];
    }
    assert scores[..|scores|] == scores;
  }

  /** Lines 678-688 (regressors) and 690-701 (classifiers): the loop over one summary. */
  method CollectSection(previous: OldSummary, section: string, sums: OrderedDict<string, Option<ModelSummary>>)
    returns (models: OrderedDict<string, Scored>)
    ensures models == Section(previous, section, sums)
  {
    models := [];
    for i := 0 to |sums|
      invariant models == Section(previous, section, sums[..i])
    {
      assert sums[..i + 1][..i] == sums[..i];
      var (k, v) := sums[i];
      if v.Some? {
        var rows := CollectScores(previous, section, k, v.value.scores);
        models := models + [(k, Scored(v.value.modelType, rows))];
      }
    }
    assert sums[..|sums|] == sums;
  }

  /** Lines 672-702: `collect_summary`. The keys are fixed first by
      `OrderedDict.fromkeys`, so later assignments keep the order DESCRIPTION,
      CLASSIFIERS, REGRESSORS. */
  method CollectSummary(previous: OldSummary, summaryReg: OrderedDict<string, Option<ModelSummary>>,
                        summaryCl: OrderedDict<string, Option<ModelSummary>>)
    returns (summary: OrderedDict<string, SummaryField>)
    ensures KeysOf(summary) == ["DESCRIPTION", "CLASSIFIERS", "REGRESSORS"]
    ensures summary[0].1 == Description(DescriptionText)
    ensures summary[1].1 == Models(Section(previous, "CLASSIFIERS", summaryCl))
    ensures summary[2].1 == Models(Section(previous, "REGRESSORS", summaryReg))
  {
    summary := [("DESCRIPTION", Description("")), ("CLASSIFIERS", Models([])), ("REGRESSORS", Models([]))];
    summary := summary[0 := ("DESCRIPTION", Description(DescriptionText))];
    var reg := CollectSection(previous, "REGRESSORS", summaryReg);
    summary := summary[2 := ("REGRESSORS", Models(reg))];
    var cl := CollectSection(previous, "CLASSIFIERS", summaryCl);
    summary := summary[1 := ("CLASSIFIERS", Models(cl))];
  }
}
