/** The table assembly and the distance-based sampling of
    xrsdkit/tools/citrination_tools.py. The records come already fetched and unpacked
    (the Citrination client and `piftools.unpack_pif` are not part of this model): each
    one gives an experiment id, its profile features, its system class and its
    regression outputs. A data frame is a list of column names and a list of rows. */
module CitrinationTools {
  import opened Common
  import opened Reals
  import opened Strings

  /** One cell of the data frame. */
  datatype Cell = Text(s: string) | Number(x: real) | Index(n: nat) | Missing

  /** What the assembly reads of one unpacked record. */
  datatype Record = Record(
    experimentId: string,
    features: OrderedDict<string, real>,
    systemClass: Cell,
    regressionOutputs: OrderedDict<string, real>)

  datatype Table = Table(columns: seq<string>, rows: seq<seq<Cell>>)

  // ---------------------------------------------------------------------------
  // OrderedDict.fromkeys(keys) followed by update(d)

  /** `d[k]` as a cell, `None` when d has no key k. */
  function CellFor(d: OrderedDict<string, real>, k: string): (c: Cell)
    ensures c == Missing <==> !HasKey(d, k)
    ensures c != Missing ==> exists i :: 0 <= i < |d| && d[i].0 == k && c == Number(d[i].1)
  {
    match Lookup(d, k)
    case Success(x) => Number(x)
    case Failure(_) => Missing
  }

  /** The values of the entries of d whose key is not among `keys`, in d's order: what
      `update` appends after the keys given to `fromkeys`. */
  function Extras(keys: seq<string>, d: OrderedDict<string, real>): seq<Cell>
  {
    if d == [] then []
    else (if d[0].0 in keys then [] else [Number(d[0].1)]) + Extras(keys, d[1..])
  }

  /** `list(lb.values())` for `lb = OrderedDict.fromkeys(keys)` updated with d. */
  function FilledValues(keys: seq<string>, d: OrderedDict<string, real>): seq<Cell>
  {
    seq(|keys|, k requires 0 <= k < |keys| => CellFor(d, keys[k])) + Extras(keys, d)
  }

  predicate KeysWithin(d: OrderedDict<string, real>, keys: seq<string>)
  {
    forall j :: 0 <= j < |d| ==> d[j].0 in keys
  }

  /** `update` appends nothing exactly when every key of d is already among `keys`. */
  lemma {:induction false} ExtrasEmpty(keys: seq<string>, d: OrderedDict<string, real>)
    ensures Extras(keys, d) == [] <==> KeysWithin(d, keys)
    decreases |d|
  {
    if d != [] {
      ExtrasEmpty(keys, d[1..]);
      if KeysWithin(d[1..], keys) && d[0].0 in keys {
        forall j | 0 <= j < |d| ensures d[j].0 in keys {
          if j > 0 { assert d[j] == d[1..][j - 1]; }
        }
      }
      if KeysWithin(d, keys) {
        forall j | 0 <= j < |d[1..]| ensures d[1..][j].0 in keys {
          assert d[1..][j] == d[j + 1];
        }
      }
    }
  }

  /** With every key of d among `keys`, the filled values are one per key, in key order. */
  lemma FilledValuesAligned(keys: seq<string>, d: OrderedDict<string, real>)
    requires KeysWithin(d, keys)
    ensures |FilledValues(keys, d)| == |keys|
    ensures forall k :: 0 <= k < |keys| ==> FilledValues(keys, d)[k] == CellFor(d, keys[k])
  {
    ExtrasEmpty(keys, d);
  }

  // ---------------------------------------------------------------------------
  // get_data_from_Citrination, after the fetch

  /** `[expt_id] + list(feats.values()) + [cl_model_outputs] + [i]`. */
  function BaseRow(rec: Record, profileKeys: seq<string>, i: nat): seq<Cell>
  {
    [Text(rec.experimentId)] + FilledValues(profileKeys, rec.features) + [rec.systemClass, Index(i)]
  }

  /** The base row followed by one value per label. */
  function FullRow(rec: Record, profileKeys: seq<string>, labels: seq<string>, i: nat): seq<Cell>
  {
    BaseRow(rec, profileKeys, i) + FilledValues(labels, rec.regressionOutputs)
  }

  /** Some of the first n records has a regression output named y. */
  predicate LabelOfAny(records: seq<Record>, n: nat, y: string)
    requires n <= |records|
  {
    exists k :: 0 <= k < n && HasKey(records[k].regressionOutputs, y)
  }

  /** One of the first j entries of d has key y. */
  predicate KeyAmongFirst(d: OrderedDict<string, real>, j: nat, y: string)
    requires j <= |d|
  {
    exists m :: 0 <= m < j && d[m].0 == y
  }

  /** Row k of the assembled table, with `labels` the sorted regression labels: the
      experiment id, one cell per profile key, the system class, the local id k, then one
      cell per label (`None` where the record has no such output). */
  predicate RowAligned(row: seq<Cell>, rec: Record, profileKeys: seq<string>, labels: seq<string>, k: nat)
  {
    var p := |profileKeys|;
    && |row| == 3 + p + |labels|
    && row[0] == Text(rec.experimentId)
    && (forall c :: 0 <= c < p ==> row[1 + c] == CellFor(rec.features, profileKeys[c]))
    && row[1 + p] == rec.systemClass
    && row[2 + p] == Index(k)
    && (forall c :: 0 <= c < |labels| ==> row[3 + p + c] == CellFor(rec.regressionOutputs, labels[c]))
  }

  /** The rows and column names of `get_data_from_Citrination`. The set of labels is kept
      as its sorted list of elements, so `list(...)` followed by `sort()` yields that
      list. `pd.DataFrame` raises ValueError when a row is longer than the column list,
      which happens exactly when some record has a feature that is not a profile key. */
  method GetData(records: seq<Record>, profileKeys: seq<string>) returns (r: Result<Table>)
    ensures r.Failure? <==> exists k :: 0 <= k < |records| && !KeysWithin(records[k].features, profileKeys)
    ensures r.Failure? ==> r.error == ValueError
    ensures r.Success? ==>
      var p := |profileKeys|;
      var t := r.value;
      && |t.columns| >= 3 + p
      && t.columns[..3 + p] == ["experiment_id"] + profileKeys + ["system_class", "local_id"]
      && StrictlySorted(t.columns[3 + p..])
      && (forall y :: y in t.columns[3 + p..] <==> LabelOfAny(records, |records|, y))
      && |t.rows| == |records|
      && (forall k :: 0 <= k < |records| ==> RowAligned(t.rows[k], records[k], profileKeys, t.columns[3 + p..], k))
  {
    var data, regLabels, labels := CollectRecords(records, profileKeys);
    var i := 0;
    while i < |data|
      invariant 0 <= i <= |data| == |records|
      invariant forall k :: 0 <= k < i ==> data[k] == FullRow(records[k], profileKeys, labels, k)
      invariant forall k :: i <= k < |data| ==> data[k] == BaseRow(records[k], profileKeys, k)
    {
      data := data[i := data[i] + FilledValues(labels, regLabels[i])];
      i := i + 1;
    }
    var columns := ["experiment_id"] + profileKeys + ["system_class"] + ["local_id"] + labels;
    if exists k :: 0 <= k < |data| && |data[k]| != |columns| {
      r := Failure(ValueError);
    } else {
      r := Success(Table(columns, data));
    }
    TableOfRows(records, profileKeys, labels, data, r);
  }

  /** The first pass of `get_data_from_Citrination`: one base row and one dictionary of
      regression outputs per record, and the sorted set of every output label. */
  method CollectRecords(records: seq<Record>, profileKeys: seq<string>)
    returns (data: seq<seq<Cell>>, regLabels: seq<OrderedDict<string, real>>, allLabels: seq<string>)
    ensures |data| == |records| && |regLabels| == |records|
    ensures forall k :: 0 <= k < |records| ==> data[k] == BaseRow(records[k], profileKeys, k)
    ensures forall k :: 0 <= k < |records| ==> regLabels[k] == records[k].regressionOutputs
    ensures StrictlySorted(allLabels)
    ensures forall y :: y in allLabels <==> LabelOfAny(records, |records|, y)
  {
    data := [];
    regLabels := [];
    allLabels := [];
    var i := 0;
    while i < |records|
      invariant 0 <= i <= |records|
      invariant |data| == i && |regLabels| == i
      invariant forall k :: 0 <= k < i ==> data[k] == BaseRow(records[k], profileKeys, k)
      invariant forall k :: 0 <= k < i ==> regLabels[k] == records[k].regressionOutputs
      invariant StrictlySorted(allLabels)
      invariant forall y :: y in allLabels <==> LabelOfAny(records, i, y)
    {
      var rec := records[i];
      data := data + [BaseRow(rec, profileKeys, i)];
      var outputs := rec.regressionOutputs;
      allLabels := AddLabels(allLabels, outputs);
      LabelOfAnyStep(records, i, allLabels);
      regLabels := regLabels + [outputs];
      i := i + 1;
    }
  }

  /** The inner loop of the first pass: each key of one record's outputs is added to the
      sorted label set. */
  method AddLabels(labels: seq<string>, outputs: OrderedDict<string, real>) returns (r: seq<string>)
    requires StrictlySorted(labels)
    ensures StrictlySorted(r)
    ensures forall y :: y in r <==> y in labels || KeyAmongFirst(outputs, |outputs|, y)
  {
    r := labels;
    var j := 0;
    while j < |outputs|
      invariant 0 <= j <= |outputs|
      invariant StrictlySorted(r)
      invariant forall y :: y in r <==> y in labels || KeyAmongFirst(outputs, j, y)
    {
      KeyAmongFirstStep(outputs, j);
      r := InsertSorted(r, outputs[j].0);
      j := j + 1;
    }
  }

  /** What the data frame constructor makes of the assembled rows: it fails exactly when
      some row is longer than the column list, and otherwise holds the rows under the
      fixed columns followed by the labels. */
  lemma TableOfRows(records: seq<Record>, profileKeys: seq<string>, labels: seq<string>,
                    data: seq<seq<Cell>>, r: Result<Table>)
    requires |data| == |records|
    requires StrictlySorted(labels)
    requires forall y :: y in labels <==> LabelOfAny(records, |records|, y)
    requires forall k :: 0 <= k < |data| ==> data[k] == FullRow(records[k], profileKeys, labels, k)
    requires var columns := ["experiment_id"] + profileKeys + ["system_class"] + ["local_id"] + labels;
      r == if exists k :: 0 <= k < |data| && |data[k]| != |columns| then Failure(ValueError)
           else Success(Table(columns, data))
    ensures r.Failure? <==> exists k :: 0 <= k < |records| && !KeysWithin(records[k].features, profileKeys)
    ensures r.Failure? ==> r.error == ValueError
    ensures r.Success? ==>
      var p := |profileKeys|;
      var t := r.value;
      && |t.columns| >= 3 + p
      && t.columns[..3 + p] == ["experiment_id"] + profileKeys + ["system_class", "local_id"]
      && StrictlySorted(t.columns[3 + p..])
      && (forall y :: y in t.columns[3 + p..] <==> LabelOfAny(records, |records|, y))
      && |t.rows| == |records|
      && (forall k :: 0 <= k < |records| ==> RowAligned(t.rows[k], records[k], profileKeys, t.columns[3 + p..], k))
  {
    ColumnsLayout(profileKeys, labels);
    AssembledRows(records, profileKeys, labels, data);
  }

  /** The keys among the first j + 1 entries are those among the first j and entry j's. */
  lemma KeyAmongFirstStep(d: OrderedDict<string, real>, j: nat)
    requires j < |d|
    ensures forall y :: KeyAmongFirst(d, j + 1, y) <==> KeyAmongFirst(d, j, y) || y == d[j].0
  {
    forall y ensures KeyAmongFirst(d, j + 1, y) <==> KeyAmongFirst(d, j, y) || y == d[j].0 {
      if y == d[j].0 {
        assert 0 <= j < j + 1 && d[j].0 == y;
      }
    }
  }

  /** The column list: the fixed columns, then the labels. */
  lemma ColumnsLayout(profileKeys: seq<string>, labels: seq<string>)
    ensures var columns := ["experiment_id"] + profileKeys + ["system_class"] + ["local_id"] + labels;
      && |columns| == 3 + |profileKeys| + |labels|
      && columns[3 + |profileKeys|..] == labels
      && columns[..3 + |profileKeys|] == ["experiment_id"] + profileKeys + ["system_class", "local_id"]
  {
    var columns := ["experiment_id"] + profileKeys + ["system_class"] + ["local_id"] + labels;
    assert columns[3 + |profileKeys|..] == labels;
    assert columns[..3 + |profileKeys|] == ["experiment_id"] + profileKeys + ["system_class", "local_id"];
  }

  /** The label set after the inner loop over record i's outputs is the set for the
      first i + 1 records. */
  lemma LabelOfAnyStep(records: seq<Record>, i: nat, labels: seq<string>)
    requires i < |records|
    requires forall y :: y in labels <==>
      LabelOfAny(records, i, y) || KeyAmongFirst(records[i].regressionOutputs, |records[i].regressionOutputs|, y)
    ensures forall y :: y in labels <==> LabelOfAny(records, i + 1, y)
  {
    forall y ensures y in labels <==> LabelOfAny(records, i + 1, y) {
      if LabelOfAny(records, i + 1, y) {
        var k :| 0 <= k < i + 1 && HasKey(records[k].regressionOutputs, y);
        if k == i {
          var m :| 0 <= m < |records[i].regressionOutputs| && records[i].regressionOutputs[m].0 == y;
          assert KeyAmongFirst(records[i].regressionOutputs, |records[i].regressionOutputs|, y);
        }
      }
      if KeyAmongFirst(records[i].regressionOutputs, |records[i].regressionOutputs|, y) {
        assert HasKey(records[i].regressionOutputs, y);
      }
    }
  }

  /** Every output key of a record is among the labels, so its row gets exactly one
      cell per label; the row fits the columns exactly when the record's features are
      all profile keys. */
  lemma AssembledRow(records: seq<Record>, profileKeys: seq<string>, labels: seq<string>, k: nat)
    requires k < |records|
    requires forall y :: y in labels <==> LabelOfAny(records, |records|, y)
    ensures var row := FullRow(records[k], profileKeys, labels, k);
      && (|row| == 3 + |profileKeys| + |labels| <==> KeysWithin(records[k].features, profileKeys))
      && (|row| == 3 + |profileKeys| + |labels| ==> RowAligned(row, records[k], profileKeys, labels, k))
  {
    var rec := records[k];
    OutputsWithinLabels(records, labels, k);
    FilledValuesAligned(labels, rec.regressionOutputs);
    FilledValuesLength(profileKeys, rec.features);
    ExtrasEmpty(profileKeys, rec.features);
    if KeysWithin(rec.features, profileKeys) {
      FilledValuesAligned(profileKeys, rec.features);
      assert FullRow(rec, profileKeys, labels, k) == BaseRow(rec, profileKeys, k) + FilledValues(labels, rec.regressionOutputs);
      RowAlignedWhenFilled(rec, profileKeys, labels, k,
        FilledValues(profileKeys, rec.features), FilledValues(labels, rec.regressionOutputs));
    }
  }

  /** All rows at once: each fits the columns exactly when its record's features are
      profile keys, and then it is aligned with them. */
  lemma AssembledRows(records: seq<Record>, profileKeys: seq<string>, labels: seq<string>, data: seq<seq<Cell>>)
    requires |data| == |records|
    requires forall y :: y in labels <==> LabelOfAny(records, |records|, y)
    requires forall k :: 0 <= k < |data| ==> data[k] == FullRow(records[k], profileKeys, labels, k)
    ensures forall k :: 0 <= k < |records| ==>
      (|data[k]| == 3 + |profileKeys| + |labels| <==> KeysWithin(records[k].features, profileKeys))
    ensures forall k :: 0 <= k < |records| && |data[k]| == 3 + |profileKeys| + |labels| ==>
      RowAligned(data[k], records[k], profileKeys, labels, k)
  {
    forall k | 0 <= k < |records|
      ensures |data[k]| == 3 + |profileKeys| + |labels| <==> KeysWithin(records[k].features, profileKeys)
      ensures |data[k]| == 3 + |profileKeys| + |labels| ==> RowAligned(data[k], records[k], profileKeys, labels, k)
    {
      AssembledRow(records, profileKeys, labels, k);
    }
  }

  /** Every regression output key of record k is one of the labels. */
  lemma OutputsWithinLabels(records: seq<Record>, labels: seq<string>, k: nat)
    requires k < |records|
    requires forall y :: y in labels <==> LabelOfAny(records, |records|, y)
    ensures KeysWithin(records[k].regressionOutputs, labels)
  {
    var d := records[k].regressionOutputs;
    forall j | 0 <= j < |d| ensures d[j].0 in labels {
      assert HasKey(d, d[j].0);
      assert LabelOfAny(records, |records|, d[j].0);
    }
  }

  lemma FilledValuesLength(keys: seq<string>, d: OrderedDict<string, real>)
    ensures |FilledValues(keys, d)| == |keys| + |Extras(keys, d)|
  {
  }

  /** A base row whose feature values are one per profile key, followed by one value
      per label, is aligned with the columns. */
  lemma RowAlignedWhenFilled(rec: Record, profileKeys: seq<string>, labels: seq<string>, k: nat,
                             a: seq<Cell>, b: seq<Cell>)
    requires |a| == |profileKeys|
    requires forall c :: 0 <= c < |a| ==> a[c] == CellFor(rec.features, profileKeys[c])
    requires |b| == |labels|
    requires forall c :: 0 <= c < |b| ==> b[c] == CellFor(rec.regressionOutputs, labels[c])
    ensures RowAligned([Text(rec.experimentId)] + a + [rec.systemClass, Index(k)] + b, rec, profileKeys, labels, k)
  {
    var row := [Text(rec.experimentId)] + a + [rec.systemClass, Index(k)] + b;
    var p := |profileKeys|;
    forall c | 0 <= c < p ensures row[1 + c] == CellFor(rec.features, profileKeys[c]) {
      assert row[1 + c] == a[c];
    }
    forall c | 0 <= c < |labels| ensures row[3 + p + c] == CellFor(rec.regressionOutputs, labels[c]) {
      assert row[3 + p + c] == b[c];
    }
  }

  // ---------------------------------------------------------------------------
  // make_sample_one_experiment

  /** A row of the (standardised) frame of one experiment, as the sampling reads it: its
      local id, its system class (`None` when absent) and its `profile_keys_1` features. */
  datatype SampleRow = SampleRow(localId: nat, systemClass: Option<string>, features: seq<real>)

  /** `sum((a - b).abs())` over the features the two rows share. */
  function L1(a: seq<real>, b: seq<real>): (s: real)
    ensures s >= 0.0
  {
    if a == [] || b == [] then 0.0 else Abs(a[0] - b[0]) + L1(a[1..], b[1..])
  }

  lemma {:induction false} L1Symmetric(a: seq<real>, b: seq<real>)
    ensures L1(a, b) == L1(b, a)
  {
    if a != [] && b != [] {
      L1Symmetric(a[1..], b[1..]);
    }
  }

  lemma {:induction false} L1Self(a: seq<real>)
    ensures L1(a, a) == 0.0
  {
    if a != [] {
      L1Self(a[1..]);
    }
  }

  /** Row i is at distance at least d from each of rows 0..m-1 of the group. */
  predicate FarFromFirst(g: seq<SampleRow>, i: nat, m: nat, d: real)
    requires i < |g| && m <= |g|
  {
    forall j :: 0 <= j < m ==> L1(g[i].features, g[j].features) >= d
  }

  predicate Increasing(idx: seq<nat>)
  {
    forall p, q :: 0 <= p < q < |idx| ==> idx[p] < idx[q]
  }

  /** Indices of the rows kept among the first n of a group, as the loop is written:
      row i is compared with rows 0..|kept|-1 of the group, not with the kept rows. */
  function KeptAsWritten(g: seq<SampleRow>, d: real, n: nat): (idx: seq<nat>)
    requires 1 <= n <= |g|
    ensures 1 <= |idx| <= n && idx[0] == 0 && Increasing(idx)
    ensures forall k :: 0 <= k < |idx| ==> idx[k] < n
  {
    if n == 1 then [0]
    else
      var prev := KeptAsWritten(g, d, n - 1);
      if FarFromFirst(g, n - 1, |prev|, d) then prev + [n - 1] else prev
  }

  /** The rows the indices name, in order. */
  function Pick(g: seq<SampleRow>, idx: seq<nat>): (rows: seq<SampleRow>)
    requires forall k :: 0 <= k < |idx| ==> idx[k] < |g|
    ensures |rows| == |idx| && forall k :: 0 <= k < |idx| ==> rows[k] == g[idx[k]]
  {
    seq(|idx|, k requires 0 <= k < |idx| => g[idx[k]])
  }

  /** The per-group loop of `make_sample_one_experiment` as written: `df` starts with
      the group's first row, and row i is appended when no row 0..|df|-1 of the group
      lies closer than `min_distance`. Groups of a `groupby` are never empty. */
  method SampleGroupAsWritten(g: seq<SampleRow>, d: real) returns (df: seq<SampleRow>)
    requires |g| >= 1
    ensures df == Pick(g, KeptAsWritten(g, d, |g|))
  {
    df := [g[0]];
    ghost var idx: seq<nat> := [0];
    for i := 1 to |g|
      invariant idx == KeptAsWritten(g, d, i)
      invariant df == Pick(g, idx)
    {
      var addRow := true;
      for j := 0 to |df|
        invariant addRow <==> FarFromFirst(g, i, j, d)
      {
        var s := L1(g[i].features, g[j].features);
        FarFromFirstStep(g, i, j, d);
        if s < d {
          addRow := false;
        }
      }
      KeptAsWrittenStep(g, d, i);
      if addRow {
        PickSnoc(g, idx, i);
        df := df + [g[i]];
        idx := idx + [i];
      }
    }
  }

  /** Extending the comparison to one more row of the group. */
  lemma FarFromFirstStep(g: seq<SampleRow>, i: nat, j: nat, d: real)
    requires i < |g| && j < |g|
    ensures FarFromFirst(g, i, j + 1, d) <==> FarFromFirst(g, i, j, d) && L1(g[i].features, g[j].features) >= d
  {
  }

  /** One step of the sampling as written. */
  lemma KeptAsWrittenStep(g: seq<SampleRow>, d: real, n: nat)
    requires 1 <= n < |g|
    ensures var prev := KeptAsWritten(g, d, n);
      KeptAsWritten(g, d, n + 1) == if FarFromFirst(g, n, |prev|, d) then prev + [n] else prev
  {
  }

  /** Picking one more index appends its row. */
  lemma PickSnoc(g: seq<SampleRow>, idx: seq<nat>, i: nat)
    requires forall k :: 0 <= k < |idx| ==> idx[k] < |g|
    requires i < |g|
    ensures Pick(g, idx + [i]) == Pick(g, idx) + [g[i]]
  {
    var a := Pick(g, idx + [i]);
    var b := Pick(g, idx) + [g[i]];
    assert |a| == |b|;
    forall k | 0 <= k < |a| ensures a[k] == b[k] {
      if k < |idx| {
        assert (idx + [i])[k] == idx[k];
      }
    }
  }

  /** Appending x leaves the membership of any other value unchanged. */
  lemma InSnoc(s: seq<nat>, x: nat, i: nat)
    requires i != x
    ensures i in s + [x] <==> i in s
  {
  }

  /** A value above every element is not one of them. */
  lemma NotInBelow(s: seq<nat>, n: nat)
    requires forall k :: 0 <= k < |s| ==> s[k] < n
    ensures n !in s && n in s + [n]
  {
  }

  /** Which rows the written loop keeps: the first, and row i exactly when it is at
      least d away from the first |kept| rows of the group, kept being the rows kept
      before it. */
  lemma {:induction false} KeptAsWrittenRule(g: seq<SampleRow>, d: real, n: nat, i: nat)
    requires 1 <= n <= |g| && i < n
    ensures i in KeptAsWritten(g, d, n) <==>
      i == 0 || (i >= 1 && FarFromFirst(g, i, |KeptAsWritten(g, d, i)|, d))
    decreases n
  {
    if n > 1 {
      var prev := KeptAsWritten(g, d, n - 1);
      KeptAsWrittenStep(g, d, n - 1);
      SnocMembership(prev, KeptAsWritten(g, d, n), n - 1, FarFromFirst(g, n - 1, |prev|, d), i);
      if i < n - 1 {
        KeptAsWrittenRule(g, d, n - 1, i);
      } else {
        assert KeptAsWritten(g, d, i) == prev;
      }
    }
  }

  /** Appending x, above every element, or not: smaller values keep their membership,
      and x is a member exactly when it was appended. */
  lemma SnocMembership(prev: seq<nat>, next: seq<nat>, x: nat, added: bool, i: nat)
    requires forall k :: 0 <= k < |prev| ==> prev[k] < x
    requires next == if added then prev + [x] else prev
    requires i <= x
    ensures i < x ==> (i in next <==> i in prev)
    ensures x in next <==> added
  {
    NotInBelow(prev, x);
    if added && i < x {
      InSnoc(prev, x, i);
    }
  }

  /** Row i is at distance at least d from the first m kept rows. */
  predicate FarFromKept(g: seq<SampleRow>, idx: seq<nat>, m: nat, i: nat, d: real)
    requires i < |g| && m <= |idx|
    requires forall k :: 0 <= k < |idx| ==> idx[k] < |g|
  {
    forall k :: 0 <= k < m ==> L1(g[i].features, g[idx[k]].features) >= d
  }

  /** Indices of the rows kept among the first n of a group, comparing each row with
      the rows already kept: the greedy sample the documented minimal distance asks for. */
  function Kept(g: seq<SampleRow>, d: real, n: nat): (idx: seq<nat>)
    requires 1 <= n <= |g|
    ensures 1 <= |idx| <= n && idx[0] == 0 && Increasing(idx)
    ensures forall k :: 0 <= k < |idx| ==> idx[k] < n
  {
    if n == 1 then [0]
    else
      var prev := Kept(g, d, n - 1);
      if FarFromKept(g, prev, |prev|, n - 1, d) then prev + [n - 1] else prev
  }

  /** The rows the indices name are pairwise at least d apart. */
  predicate Separated(g: seq<SampleRow>, idx: seq<nat>, d: real)
    requires forall k :: 0 <= k < |idx| ==> idx[k] < |g|
  {
    forall p, q :: 0 <= p < q < |idx| ==> L1(g[idx[q]].features, g[idx[p]].features) >= d
  }

  /** Any two rows of the corrected sample are at least d apart. */
  lemma {:induction false} KeptSeparated(g: seq<SampleRow>, d: real, n: nat)
    requires 1 <= n <= |g|
    ensures Separated(g, Kept(g, d, n), d)
    decreases n
  {
    if n > 1 {
      KeptSeparated(g, d, n - 1);
      KeptSeparatedStep(g, d, n);
    }
  }

  /** One more row of the corrected sampling keeps the kept rows separated. */
  lemma KeptSeparatedStep(g: seq<SampleRow>, d: real, n: nat)
    requires 2 <= n <= |g| && Separated(g, Kept(g, d, n - 1), d)
    ensures Separated(g, Kept(g, d, n), d)
  {
    var prev := Kept(g, d, n - 1);
    if FarFromKept(g, prev, |prev|, n - 1, d) {
      SeparatedExtend(g, prev, n - 1, d);
    }
  }

  /** A row far from every kept row can join them without breaking the separation. */
  lemma SeparatedExtend(g: seq<SampleRow>, prev: seq<nat>, i: nat, d: real)
    requires i < |g| && forall k :: 0 <= k < |prev| ==> prev[k] < |g|
    requires Separated(g, prev, d) && FarFromKept(g, prev, |prev|, i, d)
    ensures Separated(g, prev + [i], d)
  {
    var idx := prev + [i];
    forall p, q | 0 <= p < q < |idx| ensures L1(g[idx[q]].features, g[idx[p]].features) >= d {
      if q < |prev| {
        assert idx[q] == prev[q] && idx[p] == prev[p];
      } else {
        assert idx[q] == i && idx[p] == prev[p];
      }
    }
  }

  /** Extending the comparison to one more kept row. */
  lemma FarFromKeptStep(g: seq<SampleRow>, idx: seq<nat>, j: nat, i: nat, d: real)
    requires i < |g| && j < |idx|
    requires forall k :: 0 <= k < |idx| ==> idx[k] < |g|
    ensures FarFromKept(g, idx, j + 1, i, d) <==>
      FarFromKept(g, idx, j, i, d) && L1(g[i].features, g[idx[j]].features) >= d
  {
  }

  /** One step of the corrected sampling. */
  lemma KeptStep(g: seq<SampleRow>, d: real, n: nat)
    requires 1 <= n < |g|
    ensures var prev := Kept(g, d, n);
      Kept(g, d, n + 1) == if FarFromKept(g, prev, |prev|, n, d) then prev + [n] else prev
  {
  }

  /** Row i lies closer than d to some kept row before it. */
  predicate CloseToKept(g: seq<SampleRow>, idx: seq<nat>, i: nat, d: real)
    requires i < |g|
    requires forall k :: 0 <= k < |idx| ==> idx[k] < |g|
  {
    exists k :: 0 <= k < |idx| && idx[k] < i && L1(g[i].features, g[idx[k]].features) < d
  }

  /** Row n - 1, when dropped, lies closer than d to a row kept before it. */
  lemma KeptDropsLast(g: seq<SampleRow>, d: real, n: nat)
    requires 2 <= n <= |g|
    requires n - 1 !in Kept(g, d, n)
    ensures CloseToKept(g, Kept(g, d, n), n - 1, d)
  {
    var prev := Kept(g, d, n - 1);
    KeptStep(g, d, n - 1);
    assert !FarFromKept(g, prev, |prev|, n - 1, d);
    var k :| 0 <= k < |prev| && L1(g[n - 1].features, g[prev[k]].features) < d;
    assert prev[k] < n - 1;
  }

  /** Keeping row n - 1 or not, the earlier kept rows stay kept, in the same places. */
  lemma KeptExtends(g: seq<SampleRow>, d: real, n: nat)
    requires 2 <= n <= |g|
    ensures |Kept(g, d, n - 1)| <= |Kept(g, d, n)|
    ensures forall k :: 0 <= k < |Kept(g, d, n - 1)| ==> Kept(g, d, n)[k] == Kept(g, d, n - 1)[k]
  {
    KeptStep(g, d, n - 1);
  }

  lemma CloseToKeptExtends(g: seq<SampleRow>, prev: seq<nat>, idx: seq<nat>, i: nat, d: real)
    requires i < |g|
    requires forall k :: 0 <= k < |idx| ==> idx[k] < |g|
    requires |prev| <= |idx| && forall k :: 0 <= k < |prev| ==> idx[k] == prev[k]
    requires CloseToKept(g, prev, i, d)
    ensures CloseToKept(g, idx, i, d)
  {
    var k :| 0 <= k < |prev| && prev[k] < i && L1(g[i].features, g[prev[k]].features) < d;
    assert idx[k] == prev[k];
  }

  /** Every row the corrected sample leaves out lies closer than d to a kept row before it. */
  lemma {:induction false} KeptCovers(g: seq<SampleRow>, d: real, n: nat, i: nat)
    requires 1 <= n <= |g| && i < n
    requires i !in Kept(g, d, n)
    ensures CloseToKept(g, Kept(g, d, n), i, d)
    decreases n
  {
    assert Kept(g, d, n)[0] == 0;
    if i == n - 1 {
      KeptDropsLast(g, d, n);
    } else {
      KeptExtends(g, d, n);
      assert i !in Kept(g, d, n - 1);
      KeptCovers(g, d, n - 1, i);
      CloseToKeptExtends(g, Kept(g, d, n - 1), Kept(g, d, n), i, d);
    }
  }

  lemma L1Single(a: real, b: real)
    ensures L1([a], [b]) == Abs(a - b)
  {
    assert [a][1..] == [];
  }

  /** A four-row group with one feature and `min_distance` 1.0, on which the written
      loop keeps rows 2 and 3 although they are only 0.2 apart: row 1 is dropped, so
      row 3 is compared with rows 0 and 1 instead of the kept rows 0 and 2. */
  lemma AsWrittenKeepsCloseRows()
    ensures var g := CloseRows;
      && KeptAsWritten(g, 1.0, 4) == [0, 2, 3]
      && L1(g[3].features, g[2].features) < 1.0
      && Kept(g, 1.0, 4) == [0, 2]
  {
    CloseRowsAsWritten();
    CloseRowsKept();
    L1Single(3.2, 3.0);
  }

  const CloseRows: seq<SampleRow> :=
    [SampleRow(0, Some("c"), [0.0]), SampleRow(1, Some("c"), [0.5]),
     SampleRow(2, Some("c"), [3.0]), SampleRow(3, Some("c"), [3.2])]

  lemma CloseRowsAsWritten()
    ensures KeptAsWritten(CloseRows, 1.0, 4) == [0, 2, 3]
  {
    var g := CloseRows;
    L1Single(0.5, 0.0);
    L1Single(3.0, 0.0);
    L1Single(3.2, 0.0);
    L1Single(3.2, 0.5);
    assert L1(g[1].features, g[0].features) == 0.5;
    assert !FarFromFirst(g, 1, 1, 1.0);
    assert KeptAsWritten(g, 1.0, 2) == [0];
    assert FarFromFirst(g, 2, 1, 1.0);
    assert KeptAsWritten(g, 1.0, 3) == [0, 2];
    assert FarFromFirst(g, 3, 2, 1.0);
  }

  lemma CloseRowsKept()
    ensures Kept(CloseRows, 1.0, 4) == [0, 2]
  {
    var g := CloseRows;
    L1Single(0.5, 0.0);
    L1Single(3.0, 0.0);
    L1Single(3.2, 3.0);
    assert L1(g[1].features, g[[0][0]].features) == 0.5;
    assert !FarFromKept(g, [0], 1, 1, 1.0);
    assert Kept(g, 1.0, 2) == [0];
    assert FarFromKept(g, [0], 1, 2, 1.0);
    assert Kept(g, 1.0, 3) == [0, 2];
    assert L1(g[3].features, g[[0, 2][1]].features) < 1.0;
    assert !FarFromKept(g, [0, 2], 2, 3, 1.0);
  }

  /** The per-group loop comparing each row with the rows kept so far. */
  method SampleGroup(g: seq<SampleRow>, d: real) returns (df: seq<SampleRow>)
    requires |g| >= 1
    ensures df == Pick(g, Kept(g, d, |g|))
  {
    df := [g[0]];
    ghost var idx: seq<nat> := [0];
    for i := 1 to |g|
      invariant idx == Kept(g, d, i)
      invariant df == Pick(g, idx)
    {
      df, idx := KeepOrSkip(g, d, df, idx, i);
    }
  }

  /** One pass of the per-group loop: row i joins the sample when it is far from every
      row kept so far. */
  method KeepOrSkip(g: seq<SampleRow>, d: real, df: seq<SampleRow>, ghost idx: seq<nat>, i: nat)
    returns (df': seq<SampleRow>, ghost idx': seq<nat>)
    requires 1 <= i < |g| && idx == Kept(g, d, i) && df == Pick(g, idx)
    ensures idx' == Kept(g, d, i + 1) && df' == Pick(g, idx')
  {
    var addRow := FarFromRows(g, df, idx, i, d);
    KeptStep(g, d, i);
    if addRow {
      PickSnoc(g, idx, i);
      df', idx' := df + [g[i]], idx + [i];
    } else {
      df', idx' := df, idx;
    }
  }


  /** The inner loop: row i is added when no kept row lies closer than d. */
  method FarFromRows(g: seq<SampleRow>, df: seq<SampleRow>, ghost idx: seq<nat>, i: nat, d: real)
    returns (addRow: bool)
    requires i < |g| && forall k :: 0 <= k < |idx| ==> idx[k] < |g|
    requires df == Pick(g, idx)
    ensures addRow <==> FarFromKept(g, idx, |idx|, i, d)
  {
    addRow := true;
    for j := 0 to |df|
      invariant addRow <==> FarFromKept(g, idx, j, i, d)
    {
      var s := L1(g[i].features, df[j].features);
      FarFromKeptStep(g, idx, j, i, d);
      if s < d {
        addRow := false;
      }
    }
  }

  /** Which rows the per-group loop compares a candidate row with: rows 0..|df|-1 of the
      group, as `make_sample_one_experiment` is written, or the rows kept so far, as its
      minimal distance intends. */
  datatype Comparison = WithGroupRows | WithKeptRows

  /** The indices of the rows kept from a whole group under a comparison. */
  function KeptBy(cmp: Comparison, g: seq<SampleRow>, d: real): (idx: seq<nat>)
    requires |g| >= 1
    ensures 1 <= |idx| <= |g| && idx[0] == 0 && Increasing(idx)
    ensures forall k :: 0 <= k < |idx| ==> idx[k] < |g|
  {
    match cmp
    case WithGroupRows => KeptAsWritten(g, d, |g|)
    case WithKeptRows => Kept(g, d, |g|)
  }

  /** The per-group loop under a comparison. */
  method SampleGroupBy(cmp: Comparison, g: seq<SampleRow>, d: real) returns (df: seq<SampleRow>)
    requires |g| >= 1
    ensures df == Pick(g, KeptBy(cmp, g, d))
  {
    if cmp.WithGroupRows? {
      df := SampleGroupAsWritten(g, d);
    } else {
      df := SampleGroup(g, d);
    }
  }

  /** The distinct system classes of the rows, in sorted order, as `groupby` yields its
      groups; rows without a class form no group. */
  function GroupKeys(rows: seq<SampleRow>): (keys: seq<string>)
    ensures StrictlySorted(keys)
    ensures forall c :: c in keys <==> exists k :: 0 <= k < |rows| && rows[k].systemClass == Some(c)
  {
    if rows == [] then []
    else
      var init := GroupKeys(rows[..|rows| - 1]);
      assert forall k :: 0 <= k < |rows| - 1 ==> rows[..|rows| - 1][k] == rows[k];
      match rows[|rows| - 1].systemClass
      case None => init
      case Some(c) => InsertSorted(init, c)
  }

  /** The rows of class c, in their order. */
  function GroupOf(rows: seq<SampleRow>, c: string): (g: seq<SampleRow>)
    ensures forall x :: x in g <==> x in rows && x.systemClass == Some(c)
  {
    if rows == [] then []
    else (if rows[0].systemClass == Some(c) then [rows[0]] else []) + GroupOf(rows[1..], c)
  }

  /** The rows a group contributes to the sample (a group of a `groupby` is never empty). */
  function GroupSample(g: seq<SampleRow>, d: real, cmp: Comparison): seq<SampleRow>
  {
    if g == [] then [] else Pick(g, KeptBy(cmp, g, d))
  }

  /** The sample: each class's group sampled under the comparison, groups in key order. */
  function SampleOf(rows: seq<SampleRow>, keys: seq<string>, d: real, cmp: Comparison): seq<SampleRow>
  {
    if keys == [] then []
    else GroupSample(GroupOf(rows, keys[0]), d, cmp) + SampleOf(rows, keys[1..], d, cmp)
  }

  lemma GroupOfClassNonEmpty(rows: seq<SampleRow>, c: string)
    requires c in GroupKeys(rows)
    ensures GroupOf(rows, c) != []
  {
    var k :| 0 <= k < |rows| && rows[k].systemClass == Some(c);
    assert rows[k] in GroupOf(rows, c);
  }

  /** `make_sample_one_experiment`: the groups of the system classes in key order, each
      sampled by the per-group loop. `cmp` is `WithGroupRows` for the loop as written and
      `WithKeptRows` for the loop the minimal distance intends. */
  method MakeSampleOneExperiment(rows: seq<SampleRow>, d: real, cmp: Comparison) returns (sample: seq<SampleRow>)
    ensures forall c :: c in GroupKeys(rows) ==> GroupOf(rows, c) != []
    ensures sample == SampleOf(rows, GroupKeys(rows), d, cmp)
  {
    var keys := GroupKeys(rows);
    forall c | c in keys ensures GroupOf(rows, c) != [] {
      GroupOfClassNonEmpty(rows, c);
    }
    sample := [];
    for m := 0 to |keys|
      invariant sample == SampleOf(rows, keys[..m], d, cmp)
    {
      var g := GroupOf(rows, keys[m]);
      var df := SampleGroupBy(cmp, g, d);
      SampleOfPrefixStep(rows, keys, m, d, cmp);
      sample := sample + df;
    }
    assert keys[..|keys|] == keys;
  }

  /** Sampling one more group of the key list appends that group's sample. */
  lemma SampleOfPrefixStep(rows: seq<SampleRow>, keys: seq<string>, m: nat, d: real, cmp: Comparison)
    requires m < |keys|
    ensures SampleOf(rows, keys[..m + 1], d, cmp) == SampleOf(rows, keys[..m], d, cmp) + GroupSample(GroupOf(rows, keys[m]), d, cmp)
  {
    assert keys[..m + 1] == keys[..m] + [keys[m]];
    SampleOfAppend(rows, keys[..m], keys[m], d, cmp);
  }

  lemma {:induction false} SampleOfAppend(rows: seq<SampleRow>, keys: seq<string>, c: string, d: real, cmp: Comparison)
    ensures SampleOf(rows, keys + [c], d, cmp) == SampleOf(rows, keys, d, cmp) + GroupSample(GroupOf(rows, c), d, cmp)
    decreases |keys|
  {
    if keys == [] {
      assert [c][1..] == [];
    } else {
      var ext := keys + [c];
      assert ext[0] == keys[0] && ext[1..] == keys[1..] + [c];
      SampleOfAppend(rows, keys[1..], c, d, cmp);
      SeqAssoc(GroupSample(GroupOf(rows, keys[0]), d, cmp), SampleOf(rows, keys[1..], d, cmp), GroupSample(GroupOf(rows, c), d, cmp));
    }
  }

  lemma SeqAssoc(a: seq<SampleRow>, b: seq<SampleRow>, c: seq<SampleRow>)
    ensures a + (b + c) == (a + b) + c
  {
  }

  /** Every sampled row is a row of the experiment with a system class, and the first
      row of each class is sampled. */
  lemma {:induction false} SampleOfProperties(rows: seq<SampleRow>, keys: seq<string>, d: real, cmp: Comparison)
    requires forall c :: c in keys ==> GroupOf(rows, c) != []
    ensures forall x :: x in SampleOf(rows, keys, d, cmp) ==> x in rows && x.systemClass.Some?
    ensures forall c :: c in keys ==> GroupOf(rows, c)[0] in SampleOf(rows, keys, d, cmp)
    decreases |keys|
  {
    if keys != [] {
      SampleOfProperties(rows, keys[1..], d, cmp);
      var g := GroupOf(rows, keys[0]);
      var picked := GroupSample(g, d, cmp);
      assert picked[0] == g[0];
      forall x | x in picked ensures x in rows && x.systemClass.Some? {
        var k :| 0 <= k < |picked| && picked[k] == x;
        assert x in g;
      }
    }
  }
}
