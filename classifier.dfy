/** The parts of xrsdkit/models/classifier.py that do not call into scikit-learn:
    the split of a labelled data frame into cross-validation groups along the first
    principal component (`group_by_pc1`), the choice of the score that cross-validation
    minimises (`cv_report`) and the summary of the cross-validation results
    (`get_cv_summary`). The principal-component projection, its argsort and the check
    `_diverse_groups_possible` come in as parameters. */
module Classifier {
  import opened Common
  import opened Strings

  // ---------------------------------------------------------------------------
  // Group sizes

  /** Sum of a list of natural numbers. */
  function SumNat(s: seq<nat>): nat
  {
    if s == [] then 0 else s[0] + SumNat(s[1..])
  }

  lemma {:induction false} SumNatAppend(s: seq<nat>, x: nat)
    ensures SumNat(s + [x]) == SumNat(s) + x
    decreases |s|
  {
    if s != [] {
      assert (s + [x])[1..] == s[1..] + [x];
      SumNatAppend(s[1..], x);
    }
  }

  /** `int(round(n / g))`: Python 3 rounds to the nearest integer, ties to even. */
  function RoundHalfEven(n: nat, g: nat): nat
    requires g >= 1
  {
    var q := n / g;
    var r := n % g;
    if 2 * r < g then q
    else if 2 * r > g then q + 1
    else if q % 2 == 0 then q
    else q + 1
  }

  /** The rounded quotient is nearest to n / g, and even on a tie. */
  lemma RoundIsNearest(n: nat, g: nat)
    requires g >= 1
    ensures var e: int := 2 * (g * RoundHalfEven(n, g) - n);
      && -(g as int) <= e <= g
      && (e == g || e == -(g as int) ==> RoundHalfEven(n, g) % 2 == 0)
  {
    var q, r := n / g, n % g;
    assert n == g * q + r;
    assert g * (q + 1) - n == g - r;
  }

  /** `q` for each of g groups, plus 1 for the first r of them. */
  function Sizes(q: nat, r: nat, g: nat): (sizes: seq<nat>)
  {
    seq(g, i requires 0 <= i < g => q + (if i < r then 1 else 0))
  }

  lemma {:induction false} SumSizes(q: nat, r: nat, g: nat)
    ensures SumNat(Sizes(q, r, g)) == g * q + (if r < g then r else g)
    decreases g
  {
    if g > 0 {
      var last := q + (if g - 1 < r then 1 else 0);
      SizesSnoc(q, r, g);
      SumNatAppend(Sizes(q, r, g - 1), last);
      SumSizes(q, r, g - 1);
      assert (g - 1) * q + q == g * q;
    }
  }

  lemma SizesSnoc(q: nat, r: nat, g: nat)
    requires g > 0
    ensures Sizes(q, r, g) == Sizes(q, r, g - 1) + [q + (if g - 1 < r then 1 else 0)]
  {
  }

  /** The sizes as `group_by_pc1` writes them: `round(n / g)` for each group, plus 1 for
      the first `n % g` groups. */
  method GroupSizesAsWritten(n: nat, g: nat) returns (gpSize: seq<nat>)
    requires g >= 1
    ensures gpSize == Sizes(RoundHalfEven(n, g), n % g, g)
  {
    var q := RoundHalfEven(n, g);
    gpSize := seq(g, _ => q);
    if n % g != 0 {
      for i := 0 to n % g
        invariant |gpSize| == g
        invariant forall k :: 0 <= k < g ==> gpSize[k] == q + (if k < i then 1 else 0)
      {
        gpSize := gpSize[i := gpSize[i] + 1];
      }
    }
  }

  /** The written sizes add up to more than n exactly when `round` rounds n / g up. */
  lemma AsWrittenSizesSum(n: nat, g: nat)
    requires g >= 1
    ensures SumNat(Sizes(RoundHalfEven(n, g), n % g, g)) == g * RoundHalfEven(n, g) + n % g
    ensures SumNat(Sizes(RoundHalfEven(n, g), n % g, g)) > n <==> RoundHalfEven(n, g) > n / g
  {
    SumSizes(RoundHalfEven(n, g), n % g, g);
    assert n == g * (n / g) + n % g;
    if RoundHalfEven(n, g) > n / g {
      assert g * RoundHalfEven(n, g) >= g * (n / g) + g;
    }
  }

  /** The sizes that spread n samples over g groups: `n // g` each, plus 1 for the first
      `n % g` groups. */
  method GroupSizes(n: nat, g: nat) returns (gpSize: seq<nat>)
    requires g >= 1
    ensures gpSize == Sizes(n / g, n % g, g)
  {
    var q := n / g;
    gpSize := seq(g, _ => q);
    if n % g != 0 {
      for i := 0 to n % g
        invariant |gpSize| == g
        invariant forall k :: 0 <= k < g ==> gpSize[k] == q + (if k < i then 1 else 0)
      {
        gpSize := gpSize[i := gpSize[i] + 1];
      }
    }
  }

  /** The corrected sizes add up to n, and each is n // g or one more. */
  lemma BalancedSizes(n: nat, g: nat)
    requires g >= 1
    ensures SumNat(Sizes(n / g, n % g, g)) == n
    ensures forall k :: 0 <= k < g ==> n / g <= Sizes(n / g, n % g, g)[k] <= n / g + 1
  {
    SumSizes(n / g, n % g, g);
  }

  /** Which group sizes the label loop uses: `round(n / g)` as `group_by_pc1` is written,
      or `n // g` as evidently intended. */
  datatype SizeRule = AsWritten | Corrected

  /** The sizes of the g groups for n samples of a label under a rule. */
  function RuleSizes(rule: SizeRule, n: nat, g: nat): (sizes: seq<nat>)
    requires g >= 1
    ensures |sizes| == g
    ensures rule.Corrected? ==> SumNat(sizes) == n
    ensures rule.AsWritten? ==> SumNat(sizes) >= n
  {
    BalancedSizes(n, g);
    AsWrittenSizesSum(n, g);
    RoundNotBelow(n, g);
    match rule
    case AsWritten => Sizes(RoundHalfEven(n, g), n % g, g)
    case Corrected => Sizes(n / g, n % g, g)
  }

  /** The `gp_size` list of one label under a rule. */
  method LabelSizes(rule: SizeRule, n: nat, g: nat) returns (gpSize: seq<nat>)
    requires g >= 1
    ensures gpSize == RuleSizes(rule, n, g)
  {
    if rule.AsWritten? {
      gpSize := GroupSizesAsWritten(n, g);
    } else {
      gpSize := GroupSizes(n, g);
    }
  }

  /** Rounding never goes below the floor quotient. */
  lemma RoundNotBelow(n: nat, g: nat)
    requires g >= 1
    ensures RoundHalfEven(n, g) >= n / g
  {
  }

  // ---------------------------------------------------------------------------
  // Slices of the ranking

  /** The group id that the slice loop gives to the sample of rank t: the slices of
      lengths `sizes` get ids 1, 2, ... in turn; a rank past every slice keeps 0. */
  function SliceId(sizes: seq<nat>, t: nat): nat
  {
    if sizes == [] then 0
    else if t < sizes[0] then 1
    else
      var id := SliceId(sizes[1..], t - sizes[0]);
      if id == 0 then 0 else id + 1
  }

  /** The ranks in slice k get id k + 1. */
  lemma {:induction false} SliceIdAt(sizes: seq<nat>, k: nat, t: nat)
    requires k < |sizes|
    requires SumNat(sizes[..k]) <= t < SumNat(sizes[..k + 1])
    ensures SliceId(sizes, t) == k + 1
    decreases k
  {
    if k > 0 {
      assert sizes[..k][1..] == sizes[1..][..k - 1];
      assert sizes[..k + 1][1..] == sizes[1..][..k];
      SliceIdAt(sizes[1..], k - 1, t - sizes[0]);
    } else {
      assert sizes[..1][1..] == [];
    }
  }

  /** A rank within the total size gets an id from 1 to |sizes|; a rank past it keeps 0. */
  lemma {:induction false} SliceIdRange(sizes: seq<nat>, t: nat)
    ensures t < SumNat(sizes) ==> 1 <= SliceId(sizes, t) <= |sizes|
    ensures t >= SumNat(sizes) ==> SliceId(sizes, t) == 0
    decreases |sizes|
  {
    if sizes != [] && t >= sizes[0] {
      SliceIdRange(sizes[1..], t - sizes[0]);
    }
  }

  lemma {:induction false} PrefixSumBound(sizes: seq<nat>, k: nat)
    requires k < |sizes|
    requires forall i :: 0 <= i < |sizes| ==> sizes[i] >= 1
    ensures SumNat(sizes[..k]) + |sizes| - k <= SumNat(sizes)
    ensures SumNat(sizes[..k]) < SumNat(sizes[..k + 1])
    decreases k
  {
    if k > 0 {
      assert sizes[..k][1..] == sizes[1..][..k - 1];
      assert sizes[..k + 1][1..] == sizes[1..][..k];
      PrefixSumBound(sizes[1..], k - 1);
    } else {
      assert sizes[..1][1..] == [];
      SumNatAtLeastLength(sizes);
    }
  }

  lemma {:induction false} SumNatAtLeastLength(sizes: seq<nat>)
    requires forall i :: 0 <= i < |sizes| ==> sizes[i] >= 1
    ensures SumNat(sizes) >= |sizes|
    decreases |sizes|
  {
    if sizes != [] {
      SumNatAtLeastLength(sizes[1..]);
    }
  }

  /** Some rank below n gets the id. */
  predicate SomeRankGets(sizes: seq<nat>, n: nat, id: nat)
  {
    exists t :: 0 <= t < n && SliceId(sizes, t) == id
  }

  /** With the corrected sizes, n >= g samples of a label are all given an id from 1 to g,
      and every id is given to at least one of them: the label is spread over all groups. */
  lemma EveryGroupGetsEachLabel(n: nat, g: nat)
    requires 1 <= g <= n
    ensures forall t :: 0 <= t < n ==> 1 <= SliceId(Sizes(n / g, n % g, g), t) <= g
    ensures forall id :: 1 <= id <= g ==> SomeRankGets(Sizes(n / g, n % g, g), n, id)
  {
    var sizes := Sizes(n / g, n % g, g);
    BalancedSizes(n, g);
    forall t | 0 <= t < n ensures 1 <= SliceId(sizes, t) <= g {
      SliceIdRange(sizes, t);
    }
    assert n / g >= 1;
    forall id | 1 <= id <= g ensures SomeRankGets(sizes, n, id) {
      PrefixSumBound(sizes, id - 1);
      var t := SumNat(sizes[..id - 1]);
      SliceIdAt(sizes, id - 1, t);
    }
  }

  /** Nine samples of a label and five groups: the written sizes are 3, 3, 3, 3, 2, which
      add up to 14, so the slices of the nine ranks give only ids 1 to 3 and groups 4 and 5
      get no sample of the label. */
  lemma AsWrittenLeavesGroupsEmpty()
    ensures Sizes(RoundHalfEven(9, 5), 9 % 5, 5) == [3, 3, 3, 3, 2]
    ensures forall t :: 0 <= t < 9 ==> 1 <= SliceId(Sizes(RoundHalfEven(9, 5), 9 % 5, 5), t) <= 3
    ensures Sizes(9 / 5, 9 % 5, 5) == [2, 2, 2, 2, 1]
  {
    var sizes := Sizes(RoundHalfEven(9, 5), 9 % 5, 5);
    assert sizes == [3, 3, 3, 3, 2];
    assert sizes[..0] == [] && sizes[..1] == [3] && sizes[..2] == [3, 3] && sizes[..3] == [3, 3, 3];
    assert SumNat([3]) == 3 && SumNat([3, 3]) == 6 && SumNat([3, 3, 3]) == 9;
    forall t | 0 <= t < 9 ensures 1 <= SliceId(sizes, t) <= 3 {
      SliceIdAt(sizes, t / 3, t);
    }
  }

  /** An argsort of n values: every rank 0..n-1 names a different sample. */
  predicate IsPermutation(p: seq<nat>, n: nat)
  {
    && |p| == n
    && (forall t :: 0 <= t < n ==> p[t] < n)
    && (forall t, u :: 0 <= t < u < n ==> p[t] != p[u])
  }

  /** The slice loop of `group_by_pc1` for one label: `lgroups` starts at zeros and the
      samples `pc_rank[s:s+gp_size[igid]]` get id `igid + 1`, numpy cutting each slice at
      the end of the ranking. */
  method AssignGroups(sizes: seq<nat>, rank: seq<nat>, n: nat) returns (lgroups: seq<nat>)
    requires IsPermutation(rank, n)
    ensures |lgroups| == n
    ensures forall t :: 0 <= t < n ==> lgroups[rank[t]] == SliceId(sizes, t)
  {
    var a := new nat[n](_ => 0);
    var s := 0;
    for igid := 0 to |sizes|
      invariant s == SumNat(sizes[..igid])
      invariant forall t :: 0 <= t < n ==> a[rank[t]] == (if t < s then SliceId(sizes, t) else 0)
    {
      var stop := if s + sizes[igid] < n then s + sizes[igid] else n;
      var t := s;
      while t < stop
        invariant s <= t && (t <= stop || stop < s)
        invariant forall u :: 0 <= u < n ==>
          a[rank[u]] == (if u < s then SliceId(sizes, u) else if u < t then igid + 1 else 0)
      {
        a[rank[t]] := igid + 1;
        t := t + 1;
      }
      assert sizes[..igid + 1] == sizes[..igid] + [sizes[igid]];
      SumNatAppend(sizes[..igid], sizes[igid]);
      forall u | s <= u < s + sizes[igid] ensures SliceId(sizes, u) == igid + 1 {
        SliceIdAt(sizes, igid, u);
      }
      s := s + sizes[igid];
    }
    forall t | 0 <= t < n && t >= s ensures SliceId(sizes, t) == 0 {
      assert sizes[..|sizes|] == sizes;
      SliceIdRange(sizes, t);
    }
    lgroups := a[..];
  }

  // ---------------------------------------------------------------------------
  // group_by_pc1

  /** A value of the target column: a boolean flag or a class name. */
  datatype Label = Flag(b: bool) | Name(s: string)

  /** The row indices of a label in the target column, in order (`dataframe.loc[lidx]`). */
  function RowsOf(column: seq<Label>, l: Label): (rows: seq<nat>)
    ensures |rows| == Count(column, l)
    ensures forall m :: 0 <= m < |rows| ==> rows[m] < |column| && column[rows[m]] == l
    ensures forall m, m' :: 0 <= m < m' < |rows| ==> rows[m] < rows[m']
    ensures forall k :: 0 <= k < |column| && column[k] == l ==> k in rows
  {
    if column == [] then []
    else
      var init := RowsOf(column[..|column| - 1], l);
      if column[|column| - 1] == l then init + [|column| - 1] else init
  }

  /** `label_cts[l]`: how many rows carry the label. */
  function Count(column: seq<Label>, l: Label): nat
  {
    if column == [] then 0
    else Count(column[..|column| - 1], l) + (if column[|column| - 1] == l then 1 else 0)
  }

  /** The distinct labels of the column, each once (the keys of `value_counts()`). */
  function Distinct(column: seq<Label>): (ls: seq<Label>)
    ensures forall l :: l in ls <==> l in column
    ensures forall i, j :: 0 <= i < j < |ls| ==> ls[i] != ls[j]
  {
    if column == [] then []
    else
      var init := Distinct(column[..|column| - 1]);
      assert forall l :: l in column <==> l in column[..|column| - 1] || l == column[|column| - 1];
      if column[|column| - 1] in init then init else init + [column[|column| - 1]]
  }

  /** The labels of `ls` with at least g rows, in order. */
  function Spreadable(column: seq<Label>, ls: seq<Label>, g: nat): (kept: seq<Label>)
    ensures |kept| <= |ls|
  {
    if ls == [] then []
    else
      var init := Spreadable(column, ls[..|ls| - 1], g);
      if Count(column, ls[|ls| - 1]) >= g then init + [ls[|ls| - 1]] else init
  }

  /** The kept labels are exactly the labels with at least g rows; with g = 0 all are kept. */
  lemma {:induction false} SpreadableMembers(column: seq<Label>, ls: seq<Label>, g: nat)
    ensures forall l :: l in Spreadable(column, ls, g) <==> l in ls && Count(column, l) >= g
    ensures g == 0 ==> Spreadable(column, ls, g) == ls
    decreases |ls|
  {
    if ls != [] {
      SpreadableMembers(column, ls[..|ls| - 1], g);
      assert ls == ls[..|ls| - 1] + [ls[|ls| - 1]];
    }
  }

  /** `pop(x)`: the list without x. */
  function Remove(s: seq<Label>, x: Label): (r: seq<Label>)
    ensures x !in s ==> r == s
  {
    if s == [] then [] else (if s[0] == x then [] else [s[0]]) + Remove(s[1..], x)
  }

  lemma {:induction false} RemoveAppend(s: seq<Label>, t: seq<Label>, x: Label)
    ensures Remove(s + t, x) == Remove(s, x) + Remove(t, x)
    decreases |s|
  {
    if s != [] {
      var rest := s[1..];
      assert s == [s[0]] + rest;
      assert s + t == [s[0]] + (rest + t);
      RemoveCons(s[0], rest + t, x);
      RemoveCons(s[0], rest, x);
      RemoveAppend(rest, t, x);
      Regroup(if s[0] == x then [] else [s[0]], Remove(rest, x), Remove(t, x));
    } else {
      assert s + t == t;
    }
  }

  lemma Regroup(h: seq<Label>, a: seq<Label>, b: seq<Label>)
    ensures h + (a + b) == (h + a) + b
  {
  }

  lemma RemoveCons(h: Label, rest: seq<Label>, x: Label)
    ensures Remove([h] + rest, x) == (if h == x then [] else [h]) + Remove(rest, x)
  {
    assert ([h] + rest)[1..] == rest;
  }

  /** Popping label i of a list of distinct labels during the scan leaves the kept labels
      before it and the labels after it. */
  lemma PopStep(column: seq<Label>, labels: seq<Label>, i: nat, g: nat)
    requires i < |labels|
    requires forall a, b :: 0 <= a < b < |labels| ==> labels[a] != labels[b]
    requires Count(column, labels[i]) < g
    ensures Remove(Spreadable(column, labels[..i], g) + labels[i..], labels[i]) ==
      Spreadable(column, labels[..i + 1], g) + labels[i + 1..]
  {
    var x := labels[i];
    var kept := Spreadable(column, labels[..i], g);
    SpreadablePrefix(column, labels, i, g);
    DistinctApart(labels, i);
    SpreadableOnlyFrom(column, labels[..i], g, x);
    assert labels[i..] == [x] + labels[i + 1..];
    RemoveBetween(kept, x, labels[i + 1..]);
  }

  /** A label outside the scanned list is not among its kept labels. */
  lemma SpreadableOnlyFrom(column: seq<Label>, ls: seq<Label>, g: nat, x: Label)
    requires x !in ls
    ensures x !in Spreadable(column, ls, g)
  {
    SpreadableMembers(column, ls, g);
  }

  /** Popping a label that occurs once, between two lists without it. */
  lemma RemoveBetween(kept: seq<Label>, x: Label, rest: seq<Label>)
    requires x !in kept && x !in rest
    ensures Remove(kept + ([x] + rest), x) == kept + rest
  {
    RemoveAppend(kept, [x] + rest, x);
    RemoveHead(x, rest);
  }

  /** Popping the head label leaves the pop of the tail. */
  lemma RemoveHead(x: Label, rest: seq<Label>)
    ensures Remove([x] + rest, x) == Remove(rest, x)
  {
    assert ([x] + rest)[1..] == rest;
  }

  /** Extending the scanned prefix by one label keeps it exactly when it has g rows. */
  lemma SpreadablePrefix(column: seq<Label>, labels: seq<Label>, i: nat, g: nat)
    requires i < |labels|
    ensures Spreadable(column, labels[..i + 1], g) ==
      Spreadable(column, labels[..i], g) + (if Count(column, labels[i]) >= g then [labels[i]] else [])
  {
    assert labels[..i + 1][..i] == labels[..i];
  }

  /** In a list of distinct labels, label i occurs neither before nor after position i. */
  lemma DistinctApart(labels: seq<Label>, i: nat)
    requires i < |labels|
    requires forall a, b :: 0 <= a < b < |labels| ==> labels[a] != labels[b]
    ensures labels[i] !in labels[..i] && labels[i] !in labels[i + 1..]
  {
  }

  /** The loop of `group_by_pc1` that pops from `label_cts` every label with fewer than
      g rows. */
  method PopSparseLabels(column: seq<Label>, labels: seq<Label>, g: nat) returns (labelCts: seq<Label>)
    requires forall a, b :: 0 <= a < b < |labels| ==> labels[a] != labels[b]
    ensures labelCts == Spreadable(column, labels, g)
  {
    labelCts := labels;
    for i := 0 to |labels|
      invariant labelCts == Spreadable(column, labels[..i], g) + labels[i..]
    {
      if Count(column, labels[i]) < g {
        PopStep(column, labels, i, g);
        labelCts := Remove(labelCts, labels[i]);
      } else {
        KeepStep(column, labels, i, g);
      }
    }
    ScanComplete(column, labels, g);
  }

  /** Keeping label i during the scan moves it from the unscanned part to the kept part. */
  lemma KeepStep(column: seq<Label>, labels: seq<Label>, i: nat, g: nat)
    requires i < |labels| && Count(column, labels[i]) >= g
    ensures Spreadable(column, labels[..i], g) + labels[i..] ==
      Spreadable(column, labels[..i + 1], g) + labels[i + 1..]
  {
    SpreadablePrefix(column, labels, i, g);
    assert labels[i..] == [labels[i]] + labels[i + 1..];
  }

  /** At the end of the scan nothing is left unscanned. */
  lemma ScanComplete(column: seq<Label>, labels: seq<Label>, g: nat)
    ensures Spreadable(column, labels[..|labels|], g) + labels[|labels|..] == Spreadable(column, labels, g)
  {
    assert labels[..|labels|] == labels;
  }

  /** The rows of label l carry the ids of their slices: the row of rank t gets the id
      of t's slice among the rule's sizes for g groups. */
  predicate LabelWritten(column: seq<Label>, ids: seq<nat>, l: Label, rank: seq<nat>, g: nat, rule: SizeRule)
    requires |ids| == |column| && g >= 1
    requires IsPermutation(rank, Count(column, l))
  {
    forall t :: 0 <= t < Count(column, l) ==>
      ids[RowOfRank(column, l, rank, t)] == SliceId(RuleSizes(rule, Count(column, l), g), t)
  }

  /** The row of the label's sample at rank t. */
  function RowOfRank(column: seq<Label>, l: Label, rank: seq<nat>, t: nat): (k: nat)
    requires IsPermutation(rank, Count(column, l)) && t < Count(column, l)
    ensures k < |column| && column[k] == l
  {
    RowsOf(column, l)[rank[t]]
  }

  /** Two id lists agree on every row whose label is not `current`. */
  predicate SameOutside(column: seq<Label>, a: seq<nat>, b: seq<nat>, current: Label)
  {
    |a| == |column| && |b| == |column| &&
    forall k :: 0 <= k < |column| && column[k] != current ==> a[k] == b[k]
  }

  /** Writing the rows of one label leaves another label's ids as they were. */
  lemma LabelWrittenKept(column: seq<Label>, a: seq<nat>, b: seq<nat>, current: Label, l: Label, rank: seq<nat>, g: nat,
                          rule: SizeRule)
    requires SameOutside(column, a, b, current) && l != current && g >= 1
    requires IsPermutation(rank, Count(column, l))
    requires LabelWritten(column, a, l, rank, g, rule)
    ensures LabelWritten(column, b, l, rank, g, rule)
  {
    forall t | 0 <= t < Count(column, l)
      ensures b[RowOfRank(column, l, rank, t)] == SliceId(RuleSizes(rule, Count(column, l), g), t)
    {
      var k := RowOfRank(column, l, rank, t);
      assert a[k] == b[k];
    }
  }

  /** One pass of the label loop of `group_by_pc1`: the rows of `current` get the ids of
      their ranks' slices (`group_ids.loc[lidx] = lgroups`); every other row keeps its id. */
  method WriteLabelGroups(groupIds: array<nat>, column: seq<Label>, current: Label, g: nat, rank: seq<nat>,
                           rule: SizeRule)
    requires groupIds.Length == |column| && g >= 1
    requires IsPermutation(rank, Count(column, current))
    modifies groupIds
    ensures SameOutside(column, old(groupIds[..]), groupIds[..], current)
    ensures LabelWritten(column, groupIds[..], current, rank, g, rule)
  {
    var rows := RowsOf(column, current);
    var n := |rows|;
    var gpSize := LabelSizes(rule, n, g);
    var lgroups := AssignGroups(gpSize, rank, n);
    CopyToRows(groupIds, rows, lgroups);
    SlicesWritten(column, groupIds[..], current, rank, g, rule, lgroups);
  }

  /** `group_ids.loc[lidx] = lgroups`: the m-th selected row gets `lgroups[m]`, and every
      row not selected keeps its id. */
  method CopyToRows(groupIds: array<nat>, rows: seq<nat>, lgroups: seq<nat>)
    requires |lgroups| == |rows|
    requires forall m :: 0 <= m < |rows| ==> rows[m] < groupIds.Length
    requires forall m, m' :: 0 <= m < m' < |rows| ==> rows[m] < rows[m']
    modifies groupIds
    ensures forall m :: 0 <= m < |rows| ==> groupIds[rows[m]] == lgroups[m]
    ensures forall k :: 0 <= k < groupIds.Length && k !in rows ==> groupIds[k] == old(groupIds[k])
  {
    for m := 0 to |rows|
      invariant forall m' :: 0 <= m' < m ==> groupIds[rows[m']] == lgroups[m']
      invariant forall k :: 0 <= k < groupIds.Length && k !in rows[..m] ==> groupIds[k] == old(groupIds[k])
    {
      groupIds[rows[m]] := lgroups[m];
      assert rows[..m + 1] == rows[..m] + [rows[m]];
    }
    assert rows[..|rows|] == rows;
  }

  /** Ids copied row by row from the slice assignment of a label's ranking write that
      label. */
  lemma SlicesWritten(column: seq<Label>, ids: seq<nat>, current: Label, rank: seq<nat>, g: nat, rule: SizeRule,
                      lgroups: seq<nat>)
    requires |ids| == |column| && g >= 1
    requires IsPermutation(rank, Count(column, current)) && |lgroups| == Count(column, current)
    requires forall t :: 0 <= t < Count(column, current) ==>
      lgroups[rank[t]] == SliceId(RuleSizes(rule, Count(column, current), g), t)
    requires forall m :: 0 <= m < Count(column, current) ==> ids[RowsOf(column, current)[m]] == lgroups[m]
    ensures LabelWritten(column, ids, current, rank, g, rule)
  {
  }

  /** Every label of the column has a ranking of its rows. */
  predicate RanksFit(column: seq<Label>, ranks: map<Label, seq<nat>>)
  {
    forall l :: l in column ==> l in ranks && IsPermutation(ranks[l], Count(column, l))
  }

  /** Some row of label l has group id `id`. */
  predicate LabelInGroup(column: seq<Label>, ids: seq<nat>, l: Label, id: nat)
    requires |ids| == |column|
  {
    exists k :: 0 <= k < |column| && column[k] == l && ids[k] == id
  }

  /** The group ids of a successful grouping into g groups: rows of labels with fewer than
      g rows keep 0, and the rows of every other label carry the ids of their slices. */
  predicate Grouped(column: seq<Label>, ids: seq<nat>, ranks: map<Label, seq<nat>>, g: nat, rule: SizeRule)
    requires RanksFit(column, ranks)
  {
    && |ids| == |column|
    && g >= 1
    && (forall k :: 0 <= k < |column| && Count(column, column[k]) < g ==> ids[k] == 0)
    && (forall l :: l in column && Count(column, l) >= g ==> LabelWritten(column, ids, l, ranks[l], g, rule))
  }

  /** In a grouping with the corrected sizes, every label with at least g rows has a row
      in each of the g groups. */
  lemma GroupedSpreadsLabels(column: seq<Label>, ids: seq<nat>, ranks: map<Label, seq<nat>>, g: nat)
    requires RanksFit(column, ranks) && Grouped(column, ids, ranks, g, Corrected)
    ensures forall l, id :: l in column && Count(column, l) >= g && 1 <= id <= g ==> LabelInGroup(column, ids, l, id)
  {
    forall l, id | l in column && Count(column, l) >= g && 1 <= id <= g
      ensures LabelInGroup(column, ids, l, id)
    {
      var n := Count(column, l);
      assert LabelWritten(column, ids, l, ranks[l], g, Corrected);
      EveryGroupGetsEachLabel(n, g);
      assert SomeRankGets(Sizes(n / g, n % g, g), n, id);
      var t :| 0 <= t < n && SliceId(Sizes(n / g, n % g, g), t) == id;
      var k := RowOfRank(column, l, ranks[l], t);
      assert column[k] == l && ids[k] == id;
    }
  }

  /** The label loop of `group_by_pc1`: `group_ids` starts at zeros and each label of
      `label_cts` writes the ids of its rows. */
  method WriteAllGroups(column: seq<Label>, labelCts: seq<Label>, g: nat, ranks: map<Label, seq<nat>>, rule: SizeRule)
    returns (ids: seq<nat>)
    requires RanksFit(column, ranks) && g >= 1
    requires forall l :: l in labelCts ==> l in column
    ensures |ids| == |column|
    ensures forall k :: 0 <= k < |column| && column[k] !in labelCts ==> ids[k] == 0
    ensures forall l :: l in labelCts ==> LabelWritten(column, ids, l, ranks[l], g, rule)
  {
    var groupIds := new nat[|column|](_ => 0);
    for li := 0 to |labelCts|
      invariant forall k :: 0 <= k < |column| && column[k] !in labelCts[..li] ==> groupIds[k] == 0
      invariant forall l :: l in labelCts[..li] ==> LabelWritten(column, groupIds[..], l, ranks[l], g, rule)
    {
      var current := labelCts[li];
      ghost var before := groupIds[..];
      WriteLabelGroups(groupIds, column, current, g, ranks[current], rule);
      assert labelCts[..li + 1] == labelCts[..li] + [current];
      forall k | 0 <= k < |column| && column[k] !in labelCts[..li + 1] ensures groupIds[k] == 0 {
        assert groupIds[..][k] == before[k];
      }
      forall l | l in labelCts[..li + 1] ensures LabelWritten(column, groupIds[..], l, ranks[l], g, rule) {
        if l != current {
          LabelWrittenKept(column, before, groupIds[..], current, l, ranks[l], g, rule);
        }
      }
    }
    assert labelCts[..|labelCts|] == labelCts;
    ids := groupIds[..];
  }

  /** `group_by_pc1` on the target column. `ranks[l]` is the argsort of the first
      principal component of label l's rows and `diverse` the answer of
      `_diverse_groups_possible`. `rule` chooses the group sizes: `AsWritten` is the
      source's `round(n / g)`, `Corrected` the intended `n // g`. The result is the group
      id of every row and whether grouping succeeded; with no groups (`n_groups == 0`) the
      division by the number of groups raises. Only the corrected sizes put every kept
      label into every group. */
  method GroupByPc1(column: seq<Label>, nGroups: nat, diverse: bool, ranks: map<Label, seq<nat>>, rule: SizeRule)
    returns (r: Result<(seq<nat>, bool)>)
    requires RanksFit(column, ranks)
    ensures r.Failure? <==> nGroups == 0 && |Distinct(column)| >= 2 && diverse
    ensures r.Failure? ==> r.error == ZeroDivisionError
    ensures r.Success? ==> |r.value.0| == |column|
    ensures r.Success? ==> (r.value.1 <==> |Spreadable(column, Distinct(column), nGroups)| >= 2 && diverse)
    ensures r.Success? && !r.value.1 ==> forall k :: 0 <= k < |column| ==> r.value.0[k] == 0
    ensures r.Success? && r.value.1 ==> Grouped(column, r.value.0, ranks, nGroups, rule)
    ensures r.Success? && r.value.1 && rule.Corrected? ==>
      forall l, id :: l in column && Count(column, l) >= nGroups && 1 <= id <= nGroups ==>
        LabelInGroup(column, r.value.0, l, id)
  {
    var zeros: seq<nat> := seq(|column|, _ => 0);
    var labels := Distinct(column);
    if |labels| < 2 {
      return Success((zeros, false));
    }
    var labelCts := PopSparseLabels(column, labels, nGroups);
    if |labelCts| < 2 {
      return Success((zeros, false));
    }
    if !diverse {
      return Success((zeros, false));
    }
    if nGroups == 0 {
      return Failure(ZeroDivisionError);
    }
    SpreadableMembers(column, labels, nGroups);
    var ids := WriteAllGroups(column, labelCts, nGroups, ranks, rule);
    assert Grouped(column, ids, ranks, nGroups, rule);
    if rule.Corrected? {
      GroupedSpreadsLabels(column, ids, ranks, nGroups);
    }
    return Success((ids, true));
  }

  // ---------------------------------------------------------------------------
  // Cross-validation report and summary

  /** The four scikit-learn scores that `cv_report` records; they come in as values. */
  datatype Scores = Scores(f1: real, precision: real, recall: real, accuracy: real)

  /** The score that cross-validation minimises for a metric name: minus the f1 score
      when the name mentions "f1", else minus precision for "prec", else minus recall for
      "rec", else minus accuracy. */
  function MinimizationScore(metric: string, s: Scores): (r: real)
    ensures r == -s.f1 || r == -s.precision || r == -s.recall || r == -s.accuracy
    ensures Contains(metric, "f1") ==> r == -s.f1
    ensures !Contains(metric, "f1") && Contains(metric, "prec") ==> r == -s.precision
    ensures !Contains(metric, "f1") && !Contains(metric, "prec") && Contains(metric, "rec") ==> r == -s.recall
    ensures !Contains(metric, "f1") && !Contains(metric, "prec") && !Contains(metric, "rec") ==> r == -s.accuracy
  {
    if Contains(metric, "f1") then -1.0 * s.f1
    else if Contains(metric, "prec") then -1.0 * s.precision
    else if Contains(metric, "rec") then -1.0 * s.recall
    else -1.0 * s.accuracy
  }

  /** The four scores by name. */
  datatype ScoreName = F1 | Precision | Recall | Accuracy

  function ScoreOf(s: Scores, name: ScoreName): real
  {
    match name
    case F1 => s.f1
    case Precision => s.precision
    case Recall => s.recall
    case Accuracy => s.accuracy
  }

  /** The metric fragments that `cv_report` tests, in the order it tests them. */
  function MetricTests(): seq<(string, ScoreName)>
  {
    [("f1", F1), ("prec", Precision), ("rec", Recall)]
  }

  /** The score named by the first fragment the metric contains, or accuracy when it
      contains none. */
  function SelectedScore(metric: string, tests: seq<(string, ScoreName)>): (name: ScoreName)
    ensures name == Accuracy || exists i :: 0 <= i < |tests| && tests[i].1 == name && Contains(metric, tests[i].0)
    ensures (forall i :: 0 <= i < |tests| ==> !Contains(metric, tests[i].0)) ==> name == Accuracy
  {
    if tests == [] then Accuracy
    else if Contains(metric, tests[0].0) then tests[0].1
    else
      var name := SelectedScore(metric, tests[1..]);
      assert forall i :: 0 <= i < |tests| - 1 ==> tests[1..][i] == tests[i + 1];
      name
  }

  /** The minimisation score is minus the score that the first matching fragment names. */
  lemma MinimizationScoreSelects(metric: string, s: Scores)
    ensures MinimizationScore(metric, s) == -ScoreOf(s, SelectedScore(metric, MetricTests()))
  {
    var t0 := MetricTests();
    var t1 := t0[1..];
    var t2 := t1[1..];
    assert t1 == [("prec", Precision), ("rec", Recall)] && t2 == [("rec", Recall)] && t2[1..] == [];
    assert SelectedScore(metric, t2) == if Contains(metric, "rec") then Recall else Accuracy;
    assert SelectedScore(metric, t1) == if Contains(metric, "prec") then Precision else SelectedScore(metric, t2);
    assert SelectedScore(metric, t0) == if Contains(metric, "f1") then F1 else SelectedScore(metric, t1);
  }

  /** "precision" contains "rec" as well as "prec"; the earlier test wins, so the
      precision metric minimises minus precision, not minus recall. */
  lemma PrecisionMetricMinimisesPrecision(s: Scores)
    ensures Contains("precision", "rec")
    ensures MinimizationScore("precision", s) == -s.precision
  {
    ContainsAt("precision", "rec", 1);
    ContainsAt("precision", "prec", 0);
    MissingFirstChar("precision", "f1");
  }

  /** The f1 metric that classifiers are trained with minimises minus the f1 score. */
  lemma F1MetricMinimisesF1(s: Scores)
    ensures MinimizationScore("f1_macro", s) == -s.f1
  {
    ContainsAt("f1_macro", "f1", 0);
  }

  /** The recall metric minimises minus recall. */
  lemma RecallMetricMinimisesRecall(s: Scores)
    ensures MinimizationScore("recall", s) == -s.recall
  {
    ContainsAt("recall", "rec", 0);
    MissingFirstChar("recall", "f1");
    MissingFirstChar("recall", "prec");
  }

  /** "accuracy" holds an 'r' but no "rec". */
  lemma AccuracyLacksRec()
    ensures !Contains("accuracy", "rec")
  {
    var m := "accuracy";
    forall i | 0 <= i <= |m| ensures !IsPrefix("rec", m[i..]) {
      if i + 3 <= |m| {
        if i == 4 {
          assert m[i..][1] == 'a';
        } else {
          assert m[i..][0] == m[i] != 'r';
        }
      }
    }
    StartsNowhere(m, "rec");
  }

  /** A metric that names none of the three, such as accuracy, falls back to accuracy. */
  lemma AccuracyMetricMinimisesAccuracy(s: Scores)
    ensures MinimizationScore("accuracy", s) == -s.accuracy
  {
    MissingFirstChar("accuracy", "f1");
    MissingFirstChar("accuracy", "prec");
    AccuracyLacksRec();
  }

  /** The averaging scikit-learn is asked for: "binary" exactly when the target has two
      labels and the first one seen is a boolean, "macro" otherwise. */
  function ScoreAverage(allLabels: seq<Label>): (avg: string)
    ensures avg == "binary" || avg == "macro"
    ensures avg == "binary" <==> |allLabels| == 2 && allLabels[0].Flag?
  {
    if |allLabels| == 2 && allLabels[0].Flag? then "binary" else "macro"
  }

  /** A value of the cross-validation results dictionary. */
  datatype CvValue = Labels(labels: seq<Label>) | Text(text: string) | Score(score: real)

  /** `cv_report`: the labels in order of first appearance (`unique()`), the printed
      confusion matrix, the four scores and the minimisation score, keyed as in the
      source. The confusion matrix text and the scores are scikit-learn's answers and come
      in as values. */
  function CvReport(column: seq<Label>, metric: string, confusion: string, s: Scores): (report: OrderedDict<string, CvValue>)
    ensures KeysOf(report) == ["all_labels", "confusion_matrix", "f1", "precision", "recall", "accuracy", "minimization_score"]
    ensures DistinctKeys(report)
    ensures Lookup(report, "all_labels") == Success(Labels(Distinct(column)))
    ensures Lookup(report, "minimization_score") == Success(Score(MinimizationScore(metric, s)))
  {
    var report :=
      [("all_labels", Labels(Distinct(column))),
       ("confusion_matrix", Text(confusion)),
       ("f1", Score(s.f1)),
       ("precision", Score(s.precision)),
       ("recall", Score(s.recall)),
       ("accuracy", Score(s.accuracy)),
       ("minimization_score", Score(MinimizationScore(metric, s)))];
    LookupAt(report, 0);
    LookupAt(report, 6);
    report
  }

  /** Python's `d.get(k, None)`. */
  function Get<V>(d: OrderedDict<string, V>, k: string): (r: Option<V>)
    ensures r.Some? <==> HasKey(d, k)
    ensures r.Some? ==> Lookup(d, k) == Success(r.value)
  {
    match Lookup(d, k)
    case Success(v) => Some(v)
    case Failure(_) => None
  }

  /** The keys of the summary scores, in the order the source lists them. */
  const SummaryKeys: seq<string> := ["f1", "accuracy", "precision", "recall"]

  datatype CvSummary = CvSummary(modelType: string, scores: OrderedDict<string, Option<CvValue>>)

  /** `get_cv_summary`: the model type and, for each of the four score names, the
      recorded result or None when cross-validation did not record it. */
  function GetCvSummary(modelType: string, results: OrderedDict<string, CvValue>): (summary: CvSummary)
    ensures summary.modelType == modelType
    ensures KeysOf(summary.scores) == SummaryKeys
    ensures forall i :: 0 <= i < |summary.scores| ==>
      (summary.scores[i].1.Some? <==> HasKey(results, SummaryKeys[i]))
    ensures forall i :: 0 <= i < |summary.scores| && summary.scores[i].1.Some? ==>
      Lookup(results, SummaryKeys[i]) == Success(summary.scores[i].1.value)
  {
    CvSummary(modelType, seq(|SummaryKeys|, i requires 0 <= i < |SummaryKeys| => (SummaryKeys[i], Get(results, SummaryKeys[i]))))
  }

  /** The summary of a report that `cv_report` produced records all four scores, each
      with its own value. */
  lemma SummaryOfReport(modelType: string, column: seq<Label>, metric: string, confusion: string, s: Scores)
    ensures GetCvSummary(modelType, CvReport(column, metric, confusion, s)).scores ==
      [("f1", Some(Score(s.f1))), ("accuracy", Some(Score(s.accuracy))),
       ("precision", Some(Score(s.precision))), ("recall", Some(Score(s.recall)))]
  {
    var report := CvReport(column, metric, confusion, s);
    ReportScores(column, metric, confusion, s);
    var scores := GetCvSummary(modelType, report).scores;
    assert scores[0] == ("f1", Get(report, "f1"));
    assert scores[1] == ("accuracy", Get(report, "accuracy"));
    assert scores[2] == ("precision", Get(report, "precision"));
    assert scores[3] == ("recall", Get(report, "recall"));
    FourElements(scores);
  }

  lemma FourElements<T>(xs: seq<T>)
    requires |xs| == 4
    ensures xs == [xs[0], xs[1], xs[2], xs[3]]
  {
  }

  /** The four scores of a report, looked up by name. */
  lemma ReportScores(column: seq<Label>, metric: string, confusion: string, s: Scores)
    ensures var report := CvReport(column, metric, confusion, s);
      && Get(report, "f1") == Some(Score(s.f1))
      && Get(report, "accuracy") == Some(Score(s.accuracy))
      && Get(report, "precision") == Some(Score(s.precision))
      && Get(report, "recall") == Some(Score(s.recall))
  {
    var report := CvReport(column, metric, confusion, s);
    LookupAt(report, 2);
    LookupAt(report, 3);
    LookupAt(report, 4);
    LookupAt(report, 5);
  }
}
