/** The peak bookkeeping of `fcc_intensity` in xrsdkit/diffraction/__init__.py: the
    reciprocal-space limits of the q window, and the merging of reciprocal-lattice
    points into peaks with a multiplicity. The lattice points, their lengths |G| and
    their structure-factor intensities |F_hkl|^2 come from pymatgen and `fcc_sf` and are
    inputs here. */
module Diffraction {
  import opened Common
  import opened Reals

  type Hkl = (int, int, int)

  /** A reciprocal-lattice point: its Miller indices, its length g = |G_hkl| and the
      intensity `I_hkl = |F_hkl|^2` of its structure factor. */
  datatype Point = Point(hkl: Hkl, g: real, intensity: real)

  // ---------------------------------------------------------------------------
  // G_hkl limits

  /** `(G_min, G_max)`: `d_min = 2 pi / q_max`, `d_max = 2 pi / q_min` (infinite when
      `q_min <= 0`), and `G = 1/d`. A zero `q_max` makes the first division raise. */
  function GLimits(m: Transcendentals, qMin: real, qMax: real): (r: Result<(real, real)>)
    requires Lawful(m)
    ensures r.Failure? <==> qMax == 0.0
    ensures r.Failure? ==> r.error == ZeroDivisionError
  {
    if qMax == 0.0 then Failure(ZeroDivisionError)
    else
      var dMin := 2.0 * m.pi / qMax;
      assert dMin != 0.0;
      var gMin := if qMin > 0.0 then (var dMax := 2.0 * m.pi / qMin; assert dMax != 0.0; 1.0 / dMax) else 0.0;
      Success((gMin, 1.0 / dMin))
  }

  lemma ReciprocalOfQuotient(a: real, b: real)
    requires a != 0.0 && b != 0.0
    ensures a / b != 0.0 && 1.0 / (a / b) == b / a
  {
  }

  /** The limits are the q limits divided by 2 pi, with `G_min = 0` when `q_min <= 0`. */
  lemma GLimitsAreScaledQ(m: Transcendentals, qMin: real, qMax: real)
    requires Lawful(m) && qMax != 0.0
    ensures GLimits(m, qMin, qMax).value.1 == qMax / (2.0 * m.pi)
    ensures qMin > 0.0 ==> GLimits(m, qMin, qMax).value.0 == qMin / (2.0 * m.pi)
    ensures qMin <= 0.0 ==> GLimits(m, qMin, qMax).value.0 == 0.0
  {
    ReciprocalOfQuotient(2.0 * m.pi, qMax);
    if qMin > 0.0 {
      ReciprocalOfQuotient(2.0 * m.pi, qMin);
    }
  }

  /** `[pt for pt in r_pts if pt[1] >= G_min]`. */
  function AboveGMin(pts: seq<Point>, gMin: real): (r: seq<Point>)
    ensures forall p :: p in r <==> p in pts && p.g >= gMin
    ensures |r| <= |pts|
    ensures DistinctHkl(pts) ==> DistinctHkl(r)
  {
    if pts == [] then []
    else
      var front := pts[..|pts| - 1];
      var last := pts[|pts| - 1];
      var rest := AboveGMin(front, gMin);
      assert pts == front + [last];
      DistinctParts(pts);
      if last.g >= gMin then
        DistinctSnoc(rest, last);
        rest + [last]
      else rest
  }

  /** Without its last point, a list with distinct hkl still has them, and none of its
      points shares the last one's hkl. */
  lemma DistinctParts(pts: seq<Point>)
    requires pts != []
    ensures DistinctHkl(pts) ==>
      DistinctHkl(pts[..|pts| - 1]) && forall p :: p in pts[..|pts| - 1] ==> p.hkl != pts[|pts| - 1].hkl
  {
    var front := pts[..|pts| - 1];
    if DistinctHkl(pts) {
      forall p | p in front ensures p.hkl != pts[|pts| - 1].hkl {
        var i :| 0 <= i < |front| && front[i] == p;
        assert pts[i] == p;
      }
      forall i, j | 0 <= i < j < |front| ensures front[i].hkl != front[j].hkl {
        assert front[i] == pts[i] && front[j] == pts[j];
      }
    }
  }

  /** A point whose hkl no earlier point shares may go at the end. */
  lemma DistinctSnoc(rest: seq<Point>, last: Point)
    ensures (DistinctHkl(rest) && forall p :: p in rest ==> p.hkl != last.hkl) ==> DistinctHkl(rest + [last])
  {
    var r := rest + [last];
    if DistinctHkl(rest) && forall p :: p in rest ==> p.hkl != last.hkl {
      forall i, j | 0 <= i < j < |r| ensures r[i].hkl != r[j].hkl {
        assert r[i] == rest[i];
        if j < |rest| {
          assert r[j] == rest[j];
        } else {
          assert rest[i] in rest;
        }
      }
    }
  }

  /** The key of the `sorted` call: ascending g, then descending h, k and l. */
  predicate ProcessedBefore(a: Point, b: Point)
  {
    a.g < b.g
    || (a.g == b.g && (a.hkl.0 > b.hkl.0
        || (a.hkl.0 == b.hkl.0 && (a.hkl.1 > b.hkl.1
            || (a.hkl.1 == b.hkl.1 && a.hkl.2 >= b.hkl.2)))))
  }

  /** The points in the order of the `sorted` call: each is processed before the next. */
  predicate SortedForMerge(pts: seq<Point>)
  {
    forall i :: 0 <= i < |pts| - 1 ==> ProcessedBefore(pts[i], pts[i + 1])
  }

  /** The sort key orders any two points one way or the other. */
  lemma ProcessedBeforeTotal(a: Point, b: Point)
    ensures ProcessedBefore(a, b) || ProcessedBefore(b, a)
  {
  }

  /** Insertion of one point into points in key order. */
  function InsertPoint(p: Point, pts: seq<Point>): (r: seq<Point>)
    requires SortedForMerge(pts)
    ensures |r| > 0 && (r[0] == p || (pts != [] && r[0] == pts[0]))
    ensures SortedForMerge(r)
  {
    if pts == [] then [p]
    else if ProcessedBefore(p, pts[0]) then [p] + pts
    else
      ProcessedBeforeTotal(p, pts[0]);
      var rest := InsertPoint(p, pts[1..]);
      assert forall i :: 0 <= i < |rest| ==> ([pts[0]] + rest)[i + 1] == rest[i];
      [pts[0]] + rest
  }

  /** Insertion adds exactly the one point, and keeps the hkl distinct when it is new. */
  lemma InsertPointContents(p: Point, pts: seq<Point>)
    requires SortedForMerge(pts)
    ensures multiset(InsertPoint(p, pts)) == multiset(pts) + multiset{p}
    ensures forall x :: x in InsertPoint(p, pts) <==> x == p || x in pts
    ensures (DistinctHkl(pts) && forall x :: x in pts ==> x.hkl != p.hkl) ==> DistinctHkl(InsertPoint(p, pts))
  {
    InsertPointMultiset(p, pts);
    MembersOfMultiset(InsertPoint(p, pts), pts, p);
    if DistinctHkl(pts) && forall x :: x in pts ==> x.hkl != p.hkl {
      InsertPointDistinct(p, pts);
    }
  }

  lemma {:induction false} InsertPointMultiset(p: Point, pts: seq<Point>)
    requires SortedForMerge(pts)
    ensures multiset(InsertPoint(p, pts)) == multiset(pts) + multiset{p}
  {
    if pts != [] && !ProcessedBefore(p, pts[0]) {
      InsertPointMultiset(p, pts[1..]);
      assert InsertPoint(p, pts) == [pts[0]] + InsertPoint(p, pts[1..]);
      assert pts == [pts[0]] + pts[1..];
    }
  }

  /** Equal multisets have equal members. */
  lemma MembersOfMultiset(r: seq<Point>, pts: seq<Point>, p: Point)
    requires multiset(r) == multiset(pts) + multiset{p}
    ensures forall x :: x in r <==> x == p || x in pts
  {
    forall x ensures x in r <==> x == p || x in pts {
      assert x in r <==> x in multiset(r);
      assert x in pts <==> x in multiset(pts);
    }
  }

  lemma {:induction false} InsertPointDistinct(p: Point, pts: seq<Point>)
    requires SortedForMerge(pts)
    requires DistinctHkl(pts) && forall x :: x in pts ==> x.hkl != p.hkl
    ensures DistinctHkl(InsertPoint(p, pts))
  {
    if pts == [] || ProcessedBefore(p, pts[0]) {
      DistinctCons(p, pts);
    } else {
      var tail := pts[1..];
      assert DistinctHkl(tail) by {
        forall i, j | 0 <= i < j < |tail| ensures tail[i].hkl != tail[j].hkl {
          assert tail[i] == pts[i + 1] && tail[j] == pts[j + 1];
        }
      }
      InsertPointDistinct(p, tail);
      var rest := InsertPoint(p, tail);
      InsertPointMultiset(p, tail);
      MembersOfMultiset(rest, tail, p);
      forall x | x in rest ensures x.hkl != pts[0].hkl {
        if x != p {
          var j :| 0 <= j < |tail| && tail[j] == x;
          assert pts[j + 1] == x;
        }
      }
      DistinctCons(pts[0], rest);
      assert InsertPoint(p, pts) == [pts[0]] + rest;
    }
  }

  /** A point whose hkl no later point shares may go in front. */
  lemma DistinctCons(q: Point, rest: seq<Point>)
    requires DistinctHkl(rest) && forall x :: x in rest ==> x.hkl != q.hkl
    ensures DistinctHkl([q] + rest)
  {
    var r := [q] + rest;
    forall i, j | 0 <= i < j < |r| ensures r[i].hkl != r[j].hkl {
      assert r[j] == rest[j - 1];
      if i > 0 {
        assert r[i] == rest[i - 1];
      }
    }
  }

  /** Python's `sorted(r_pts, key=...)`: a permutation of the points in key order. */
  function SortForMerge(pts: seq<Point>): (r: seq<Point>)
    ensures SortedForMerge(r)
  {
    if pts == [] then [] else InsertPoint(pts[0], SortForMerge(pts[1..]))
  }

  /** The sort is a permutation, and keeps the hkl distinct. */
  lemma {:induction false} SortForMergeContents(pts: seq<Point>)
    ensures multiset(SortForMerge(pts)) == multiset(pts)
    ensures forall x :: x in SortForMerge(pts) <==> x in pts
    ensures DistinctHkl(pts) ==> DistinctHkl(SortForMerge(pts))
  {
    if pts != [] {
      assert pts == [pts[0]] + pts[1..];
      SortForMergeContents(pts[1..]);
      InsertPointContents(pts[0], SortForMerge(pts[1..]));
    }
  }

  // ---------------------------------------------------------------------------
  // Peak merging

  /** `q_hkl = 2 pi g_hkl`. */
  function QOf(m: Transcendentals, g: real): real
  {
    2.0 * m.pi * g
  }

  /** A point contributes to a peak when its g is positive and its intensity exceeds 1e-5. */
  predicate Accepted(p: Point)
  {
    p.g > 0.0 && p.intensity > 0.00001
  }

  function AcceptedCount(pts: seq<Point>): nat
  {
    if pts == [] then 0
    else AcceptedCount(pts[..|pts| - 1]) + (if Accepted(pts[|pts| - 1]) then 1 else 0)
  }

  function AcceptedIntensity(pts: seq<Point>): real
  {
    if pts == [] then 0.0
    else AcceptedIntensity(pts[..|pts| - 1]) + (if Accepted(pts[|pts| - 1]) then pts[|pts| - 1].intensity else 0.0)
  }

  predicate DistinctHkl(pts: seq<Point>)
  {
    forall i, j :: 0 <= i < j < |pts| ==> pts[i].hkl != pts[j].hkl
  }

  function Values<K>(d: OrderedDict<K, real>): (vs: seq<real>)
    ensures |vs| == |d|
    ensures forall i :: 0 <= i < |d| ==> vs[i] == d[i].1
  {
    seq(|d|, i requires 0 <= i < |d| => d[i].1)
  }

  function SumValues<K>(d: OrderedDict<K, real>): real
  {
    if d == [] then 0.0 else SumValues(d[..|d| - 1]) + d[|d| - 1].1
  }

  function SumCounts<K>(d: OrderedDict<K, nat>): nat
  {
    if d == [] then 0 else SumCounts(d[..|d| - 1]) + d[|d| - 1].1
  }

  lemma {:induction false} SumValuesAdd<K>(d: OrderedDict<K, real>, i: nat, x: real)
    requires i < |d|
    ensures SumValues(d[i := (d[i].0, d[i].1 + x)]) == SumValues(d) + x
    decreases |d|
  {
    var e := d[i := (d[i].0, d[i].1 + x)];
    if i < |d| - 1 {
      assert e[..|e| - 1] == d[..|d| - 1][i := (d[i].0, d[i].1 + x)];
      SumValuesAdd(d[..|d| - 1], i, x);
    } else {
      assert e[..|e| - 1] == d[..|d| - 1];
    }
  }

  lemma {:induction false} SumCountsIncrement<K>(d: OrderedDict<K, nat>, i: nat)
    requires i < |d|
    ensures SumCounts(d[i := (d[i].0, d[i].1 + 1)]) == SumCounts(d) + 1
    decreases |d|
  {
    var e := d[i := (d[i].0, d[i].1 + 1)];
    if i < |d| - 1 {
      assert e[..|e| - 1] == d[..|d| - 1][i := (d[i].0, d[i].1 + 1)];
      SumCountsIncrement(d[..|d| - 1], i);
    } else {
      assert e[..|e| - 1] == d[..|d| - 1];
    }
  }

  lemma SumValuesAppend<K>(d: OrderedDict<K, real>, k: K, x: real)
    ensures SumValues(d + [(k, x)]) == SumValues(d) + x
  {
    assert (d + [(k, x)])[..|d|] == d;
  }

  lemma SumCountsAppend<K>(d: OrderedDict<K, nat>, k: K, x: nat)
    ensures SumCounts(d + [(k, x)]) == SumCounts(d) + x
  {
    assert (d + [(k, x)])[..|d|] == d;
  }

  /** `np.argmin([abs(q_hkl-qq) for qq in q_pks.values()])`: the first stored peak nearest
      to x. */
  function Nearest(qs: seq<real>, x: real): (r: nat)
    requires |qs| > 0
    ensures r < |qs|
    ensures forall j :: 0 <= j < |qs| ==> Abs(x - qs[r]) <= Abs(x - qs[j])
    ensures forall j :: 0 <= j < r ==> Abs(x - qs[r]) < Abs(x - qs[j])
  {
    if |qs| == 1 then 0
    else
      var r := Nearest(qs[..|qs| - 1], x);
      assert forall j :: 0 <= j < |qs| - 1 ==> qs[..|qs| - 1][j] == qs[j];
      if Abs(x - qs[|qs| - 1]) < Abs(x - qs[r]) then |qs| - 1 else r
  }

  /** The four ordered dictionaries that `fcc_intensity` fills, keyed by hkl. */
  datatype PeakTables = PeakTables(
    gPks: OrderedDict<Hkl, real>,
    qPks: OrderedDict<Hkl, real>,
    IPks: OrderedDict<Hkl, real>,
    mult: OrderedDict<Hkl, nat>)

  /** The tables share one key sequence, each stored q is `2 pi g`, and keys are distinct. */
  predicate Aligned(m: Transcendentals, t: PeakTables)
  {
    && |t.gPks| == |t.qPks| == |t.IPks| == |t.mult|
    && (forall i :: 0 <= i < |t.qPks| ==>
          t.gPks[i].0 == t.qPks[i].0 && t.IPks[i].0 == t.qPks[i].0 && t.mult[i].0 == t.qPks[i].0)
    && (forall i :: 0 <= i < |t.qPks| ==> t.qPks[i].1 == QOf(m, t.gPks[i].1))
    && DistinctKeys(t.qPks)
  }

  /** Any two stored peaks are more than 1e-5 apart in q. */
  predicate Separated(qPks: OrderedDict<Hkl, real>)
  {
    forall i, j :: 0 <= i < |qPks| && 0 <= j < |qPks| && i != j ==> Abs(qPks[i].1 - qPks[j].1) > 0.00001
  }

  /** The four tables have one entry per stored peak. */
  predicate SameLength(t: PeakTables)
  {
    |t.gPks| == |t.qPks| == |t.IPks| == |t.mult|
  }

  /** The merge rule for one point: a point that is not accepted leaves the tables alone;
      an accepted point opens a new peak when no peak is stored or the nearest stored peak
      is more than 1e-5 away in q, and otherwise joins that nearest peak. */
  function MergeStep(m: Transcendentals, t: PeakTables, p: Point): (t': PeakTables)
    requires SameLength(t)
    ensures SameLength(t')
  {
    if !Accepted(p) then t
    else if |t.qPks| == 0 then OpenPeak(m, t, p)
    else
      var nearest := Nearest(Values(t.qPks), QOf(m, p.g));
      if Abs(QOf(m, p.g) - t.qPks[nearest].1) > 0.00001 then OpenPeak(m, t, p)
      else JoinPeak(t, nearest, p.intensity)
  }

  /** The tables after merging the first n points, in order, from empty tables. */
  function MergeAll(m: Transcendentals, pts: seq<Point>, n: nat): (t: PeakTables)
    requires n <= |pts|
    ensures SameLength(t)
  {
    if n == 0 then PeakTables([], [], [], []) else MergeStep(m, MergeAll(m, pts, n - 1), pts[n - 1])
  }

  /** The merge loop of `fcc_intensity`, over the points in the order given (the source
      passes them sorted by `ProcessedBefore`). */
  method MergePeaks(m: Transcendentals, pts: seq<Point>) returns (t: PeakTables)
    requires DistinctHkl(pts)
    ensures t == MergeAll(m, pts, |pts|)
    ensures Aligned(m, t)
    ensures Separated(t.qPks)
    ensures Counted(t.mult)
    ensures SumCounts(t.mult) == AcceptedCount(pts)
    ensures SumValues(t.IPks) == AcceptedIntensity(pts)
    ensures KeysFrom(t.qPks, pts, |pts|)
  {
    t := PeakTables([], [], [], []);
    for i := 0 to |pts|
      invariant t == MergeAll(m, pts, i)
      invariant MergedUpTo(m, t, pts, i)
    {
      MergeStepMerged(m, t, pts, i);
      t := MergePoint(m, t, pts[i]);
    }
    assert pts[..|pts|] == pts;
  }

  /** The invariants of the merge loop after the first n points: the tables are aligned,
      separated and counted, hold the accepted count and intensity of those points, and
      every key is the key of one of them. */
  predicate MergedUpTo(m: Transcendentals, t: PeakTables, pts: seq<Point>, n: nat)
    requires n <= |pts|
  {
    && Aligned(m, t) && Separated(t.qPks) && Counted(t.mult)
    && SumCounts(t.mult) == AcceptedCount(pts[..n])
    && SumValues(t.IPks) == AcceptedIntensity(pts[..n])
    && KeysFrom(t.qPks, pts, n)
  }

  /** Merging point i after the first i points keeps the loop invariants. */
  lemma MergeStepMerged(m: Transcendentals, t: PeakTables, pts: seq<Point>, i: nat)
    requires i < |pts| && DistinctHkl(pts)
    requires MergedUpTo(m, t, pts, i)
    ensures MergedUpTo(m, MergeStep(m, t, pts[i]), pts, i + 1)
  {
    MergeStepKeeps(m, t, pts, i);
    MergedOneMore(m, t, MergeStep(m, t, pts[i]), pts, i + 1);
  }

  /** The loop invariants after n - 1 points and the step invariants of point n - 1 give
      the loop invariants after n points. */
  lemma MergedOneMore(m: Transcendentals, t: PeakTables, t': PeakTables, pts: seq<Point>, n: nat)
    requires 0 < n <= |pts|
    requires MergedUpTo(m, t, pts, n - 1) && StepKept(m, t, t', pts, n - 1)
    ensures MergedUpTo(m, t', pts, n)
  {
    AcceptedPrefix(pts, n - 1);
  }

  /** One pass of the merge loop: the point either opens a new peak, joins the nearest
      stored peak, or is skipped. */
  method MergePoint(m: Transcendentals, t: PeakTables, p: Point) returns (t': PeakTables)
    requires SameLength(t)
    ensures t' == MergeStep(m, t, p)
  {
    t' := t;
    if p.g > 0.0 {
      var qHkl := QOf(m, p.g);
      if p.intensity > 0.00001 {
        var far := true;
        var nearest := 0;
        if |t.qPks| > 0 {
          nearest := Nearest(Values(t.qPks), qHkl);
          far := Abs(qHkl - t.qPks[nearest].1) > 0.00001;
        }
        if far {
          t' := OpenPeak(m, t, p);
        } else {
          t' := JoinPeak(t, nearest, p.intensity);
        }
      }
    }
  }

  /** Tables t' after point i keep the invariants of the merge loop: aligned, separated and
      counted, the point added to the sums when it is accepted, and every key the key of a
      point merged so far. */
  predicate StepKept(m: Transcendentals, t: PeakTables, t': PeakTables, pts: seq<Point>, i: nat)
    requires i < |pts|
  {
    && Aligned(m, t') && Separated(t'.qPks) && Counted(t'.mult)
    && SumCounts(t'.mult) == SumCounts(t.mult) + (if Accepted(pts[i]) then 1 else 0)
    && SumValues(t'.IPks) == SumValues(t.IPks) + (if Accepted(pts[i]) then pts[i].intensity else 0.0)
    && KeysFrom(t'.qPks, pts, i + 1)
  }

  /** The accepted count and intensity of a prefix grow by point i when it is accepted. */
  lemma AcceptedPrefix(pts: seq<Point>, i: nat)
    requires i < |pts|
    ensures AcceptedCount(pts[..i + 1]) == AcceptedCount(pts[..i]) + (if Accepted(pts[i]) then 1 else 0)
    ensures AcceptedIntensity(pts[..i + 1]) == AcceptedIntensity(pts[..i]) + (if Accepted(pts[i]) then pts[i].intensity else 0.0)
  {
    assert pts[..i + 1][..i] == pts[..i];
  }

  /** Merging point i keeps the invariants of the merge loop. */
  lemma MergeStepKeeps(m: Transcendentals, t: PeakTables, pts: seq<Point>, i: nat)
    requires i < |pts| && DistinctHkl(pts)
    requires MergedUpTo(m, t, pts, i)
    ensures StepKept(m, t, MergeStep(m, t, pts[i]), pts, i)
  {
    var p := pts[i];
    if !Accepted(p) {
      assert MergeStep(m, t, p) == t;
      KeysFromGrow(t.qPks, pts, i);
    } else if |t.qPks| == 0 {
      assert MergeStep(m, t, p) == OpenPeak(m, t, p);
      OpenPeakStep(m, t, pts, i);
    } else {
      var qHkl := QOf(m, p.g);
      var nearest := Nearest(Values(t.qPks), qHkl);
      if Abs(qHkl - t.qPks[nearest].1) > 0.00001 {
        assert MergeStep(m, t, p) == OpenPeak(m, t, p);
        FarFromAll(t.qPks, qHkl, nearest);
        OpenPeakStep(m, t, pts, i);
      } else {
        assert MergeStep(m, t, p) == JoinPeak(t, nearest, p.intensity);
        JoinPeakStep(m, t, pts, i, nearest);
      }
    }
  }

  /** Opening a new peak for an accepted point far from every stored peak keeps the
      tables aligned, separated and counted, and adds the point to the sums. */
  lemma OpenPeakStep(m: Transcendentals, t: PeakTables, pts: seq<Point>, i: nat)
    requires i < |pts| && DistinctHkl(pts) && Accepted(pts[i])
    requires Aligned(m, t) && Separated(t.qPks) && Counted(t.mult)
    requires KeysFrom(t.qPks, pts, i)
    requires forall k :: 0 <= k < |t.qPks| ==> Abs(QOf(m, pts[i].g) - t.qPks[k].1) > 0.00001
    ensures StepKept(m, t, OpenPeak(m, t, pts[i]), pts, i)
  {
    NewKey(t.qPks, pts, i);
    OpenPeakAligned(m, t, pts[i]);
    OpenPeakSeparated(m, t, pts[i]);
    OpenPeakCounts(m, t, pts, i);
  }

  /** Joining an accepted point to a stored peak keeps the keys and adds the point to
      the sums. */
  lemma JoinPeakStep(m: Transcendentals, t: PeakTables, pts: seq<Point>, i: nat, nearest: nat)
    requires i < |pts| && Accepted(pts[i]) && nearest < |t.qPks|
    requires Aligned(m, t) && Separated(t.qPks) && Counted(t.mult)
    requires KeysFrom(t.qPks, pts, i)
    ensures StepKept(m, t, JoinPeak(t, nearest, pts[i].intensity), pts, i)
  {
    JoinPeakKeeps(m, t, nearest, pts[i].intensity);
    KeysFromGrow(t.qPks, pts, i);
  }

  /** Every multiplicity is at least one. */
  predicate Counted(mult: OrderedDict<Hkl, nat>)
  {
    forall k :: 0 <= k < |mult| ==> mult[k].1 >= 1
  }

  /** Every key is the hkl of an accepted point among the first i. */
  predicate KeysFrom(qPks: OrderedDict<Hkl, real>, pts: seq<Point>, i: nat)
  {
    forall k :: 0 <= k < |qPks| ==> FromPoint(pts, i, qPks[k].0)
  }

  /** The key is the hkl of an accepted point among the first i. */
  predicate FromPoint(pts: seq<Point>, i: nat, key: Hkl)
  {
    exists j :: 0 <= j < i && j < |pts| && Accepted(pts[j]) && pts[j].hkl == key
  }

  lemma KeysFromGrow(qPks: OrderedDict<Hkl, real>, pts: seq<Point>, i: nat)
    requires KeysFrom(qPks, pts, i)
    ensures KeysFrom(qPks, pts, i + 1)
  {
    forall k | 0 <= k < |qPks| ensures FromPoint(pts, i + 1, qPks[k].0) {
      assert FromPoint(pts, i, qPks[k].0);
      var j :| 0 <= j < i && j < |pts| && Accepted(pts[j]) && pts[j].hkl == qPks[k].0;
      assert 0 <= j < i + 1;
    }
  }

  /** When the nearest stored peak is more than 1e-5 away, so is every stored peak. */
  lemma FarFromAll(qPks: OrderedDict<Hkl, real>, x: real, nearest: nat)
    requires |qPks| > 0 ==> nearest == Nearest(Values(qPks), x) && Abs(x - qPks[nearest].1) > 0.00001
    ensures forall k :: 0 <= k < |qPks| ==> Abs(x - qPks[k].1) > 0.00001
  {
    forall k | 0 <= k < |qPks| ensures Abs(x - qPks[k].1) > 0.00001 {
      assert Values(qPks)[k] == qPks[k].1;
    }
  }

  /** Opening a peak for accepted point i keeps the multiplicities at least one, adds
      one to them and the intensity to the intensities, and keys stay point hkls. */
  lemma OpenPeakCounts(m: Transcendentals, t: PeakTables, pts: seq<Point>, i: nat)
    requires i < |pts| && Accepted(pts[i])
    requires Counted(t.mult) && KeysFrom(t.qPks, pts, i)
    ensures var t' := OpenPeak(m, t, pts[i]);
      && Counted(t'.mult) && KeysFrom(t'.qPks, pts, i + 1)
      && SumCounts(t'.mult) == SumCounts(t.mult) + 1
      && SumValues(t'.IPks) == SumValues(t.IPks) + pts[i].intensity
  {
    var p := pts[i];
    var t' := OpenPeak(m, t, p);
    KeysFromGrow(t.qPks, pts, i);
    forall k | 0 <= k < |t'.qPks| ensures FromPoint(pts, i + 1, t'.qPks[k].0) {
      if k < |t.qPks| {
        assert t'.qPks[k] == t.qPks[k];
      } else {
        assert t'.qPks[k].0 == pts[i].hkl && 0 <= i < i + 1;
      }
    }
    SumCountsAppend(t.mult, p.hkl, 1);
    SumValuesAppend(t.IPks, p.hkl, p.intensity);
  }

  /** A new peak for point p: `mult`, `I_pks`, `q_pks` and `g_pks` each get the key hkl. */
  function OpenPeak(m: Transcendentals, t: PeakTables, p: Point): PeakTables
  {
    PeakTables(t.gPks + [(p.hkl, p.g)], t.qPks + [(p.hkl, QOf(m, p.g))],
               t.IPks + [(p.hkl, p.intensity)], t.mult + [(p.hkl, 1)])
  }

  /** Opening a peak for a point whose hkl is new keeps the tables aligned. */
  lemma OpenPeakAligned(m: Transcendentals, t: PeakTables, p: Point)
    requires Aligned(m, t)
    requires forall k :: 0 <= k < |t.qPks| ==> t.qPks[k].0 != p.hkl
    ensures Aligned(m, OpenPeak(m, t, p))
  {
    var t' := OpenPeak(m, t, p);
    var n := |t.qPks|;
    forall i | 0 <= i < |t'.qPks|
      ensures t'.gPks[i].0 == t'.qPks[i].0 && t'.IPks[i].0 == t'.qPks[i].0 && t'.mult[i].0 == t'.qPks[i].0
      ensures t'.qPks[i].1 == QOf(m, t'.gPks[i].1)
    {
      if i < n {
        assert t'.qPks[i] == t.qPks[i] && t'.gPks[i] == t.gPks[i];
        assert t'.IPks[i] == t.IPks[i] && t'.mult[i] == t.mult[i];
      }
    }
    forall i, j | 0 <= i < j < |t'.qPks| ensures t'.qPks[i].0 != t'.qPks[j].0 {
      assert t'.qPks[i] == t.qPks[i];
      if j < n {
        assert t'.qPks[j] == t.qPks[j];
      }
    }
  }

  /** Opening a peak whose q is more than 1e-5 from every stored peak keeps the
      peaks separated. */
  lemma OpenPeakSeparated(m: Transcendentals, t: PeakTables, p: Point)
    requires Separated(t.qPks)
    requires forall k :: 0 <= k < |t.qPks| ==> Abs(QOf(m, p.g) - t.qPks[k].1) > 0.00001
    ensures Separated(OpenPeak(m, t, p).qPks)
  {
    var qs := OpenPeak(m, t, p).qPks;
    var n := |t.qPks|;
    forall i, j | 0 <= i < |qs| && 0 <= j < |qs| && i != j
      ensures Abs(qs[i].1 - qs[j].1) > 0.00001
    {
      if i == n {
        assert qs[j] == t.qPks[j];
        assert Abs(QOf(m, p.g) - t.qPks[j].1) > 0.00001;
      } else if j == n {
        assert qs[i] == t.qPks[i];
        assert Abs(QOf(m, p.g) - t.qPks[i].1) > 0.00001;
      } else {
        assert qs[i] == t.qPks[i] && qs[j] == t.qPks[j];
      }
    }
  }

  /** Point joins stored peak `nearest`: its intensity is added and the multiplicity
      incremented, under the key of that peak. */
  function JoinPeak(t: PeakTables, nearest: nat, intensity: real): PeakTables
    requires nearest < |t.IPks| && nearest < |t.mult|
  {
    t.(IPks := t.IPks[nearest := (t.IPks[nearest].0, t.IPks[nearest].1 + intensity)],
       mult := t.mult[nearest := (t.mult[nearest].0, t.mult[nearest].1 + 1)])
  }

  /** Joining a peak keeps the keys and q values, adds one to the multiplicities and the
      point's intensity to the intensities. */
  lemma JoinPeakKeeps(m: Transcendentals, t: PeakTables, nearest: nat, intensity: real)
    requires Aligned(m, t) && Counted(t.mult) && nearest < |t.qPks|
    ensures var t' := JoinPeak(t, nearest, intensity);
      && Aligned(m, t') && t'.qPks == t.qPks && Counted(t'.mult)
      && SumCounts(t'.mult) == SumCounts(t.mult) + 1
      && SumValues(t'.IPks) == SumValues(t.IPks) + intensity
  {
    JoinPeakAligned(m, t, nearest, intensity);
    IncrementCounted(t.mult, nearest);
    JoinPeakSums(t, nearest, intensity);
  }

  lemma JoinPeakSums(t: PeakTables, nearest: nat, intensity: real)
    requires nearest < |t.IPks| && nearest < |t.mult|
    ensures SumCounts(JoinPeak(t, nearest, intensity).mult) == SumCounts(t.mult) + 1
    ensures SumValues(JoinPeak(t, nearest, intensity).IPks) == SumValues(t.IPks) + intensity
  {
    SumValuesAdd(t.IPks, nearest, intensity);
    SumCountsIncrement(t.mult, nearest);
  }

  lemma JoinPeakAligned(m: Transcendentals, t: PeakTables, nearest: nat, intensity: real)
    requires Aligned(m, t) && nearest < |t.qPks|
    ensures Aligned(m, JoinPeak(t, nearest, intensity)) && JoinPeak(t, nearest, intensity).qPks == t.qPks
  {
    var t' := JoinPeak(t, nearest, intensity);
    forall i | 0 <= i < |t'.qPks|
      ensures t'.IPks[i].0 == t.IPks[i].0 && t'.mult[i].0 == t.mult[i].0
    {
    }
  }

  lemma IncrementCounted(mult: OrderedDict<Hkl, nat>, nearest: nat)
    requires Counted(mult) && nearest < |mult|
    ensures Counted(mult[nearest := (mult[nearest].0, mult[nearest].1 + 1)])
  {
  }

  /** The hkl of point i is not yet a key: every key is the hkl of an earlier point. */
  lemma NewKey(qPks: OrderedDict<Hkl, real>, pts: seq<Point>, i: nat)
    requires i < |pts| && DistinctHkl(pts)
    requires KeysFrom(qPks, pts, i)
    ensures forall k :: 0 <= k < |qPks| ==> qPks[k].0 != pts[i].hkl
  {
  }

  /** Counting from the front agrees with the definition, which counts from the back. */
  lemma {:induction false} AcceptedCons(p: Point, pts: seq<Point>)
    ensures AcceptedCount([p] + pts) == (if Accepted(p) then 1 else 0) + AcceptedCount(pts)
    ensures AcceptedIntensity([p] + pts) == (if Accepted(p) then p.intensity else 0.0) + AcceptedIntensity(pts)
    decreases |pts|
  {
    if pts != [] {
      var front := pts[..|pts| - 1];
      assert ([p] + pts)[..|pts|] == [p] + front;
      AcceptedCons(p, front);
    }
  }

  lemma {:induction false} InsertPointAccepted(p: Point, pts: seq<Point>)
    requires SortedForMerge(pts)
    ensures AcceptedCount(InsertPoint(p, pts)) == AcceptedCount(pts) + (if Accepted(p) then 1 else 0)
    ensures AcceptedIntensity(InsertPoint(p, pts)) == AcceptedIntensity(pts) + (if Accepted(p) then p.intensity else 0.0)
  {
    if pts == [] {
      AcceptedCons(p, []);
    } else if ProcessedBefore(p, pts[0]) {
      AcceptedCons(p, pts);
    } else {
      assert pts == [pts[0]] + pts[1..];
      InsertPointAccepted(p, pts[1..]);
      AcceptedCons(pts[0], pts[1..]);
      AcceptedCons(pts[0], InsertPoint(p, pts[1..]));
    }
  }

  /** Sorting changes neither the number nor the total intensity of accepted points. */
  lemma {:induction false} SortKeepsAccepted(pts: seq<Point>)
    ensures AcceptedCount(SortForMerge(pts)) == AcceptedCount(pts)
    ensures AcceptedIntensity(SortForMerge(pts)) == AcceptedIntensity(pts)
  {
    if pts != [] {
      assert pts == [pts[0]] + pts[1..];
      SortKeepsAccepted(pts[1..]);
      InsertPointAccepted(pts[0], SortForMerge(pts[1..]));
      AcceptedCons(pts[0], pts[1..]);
    }
  }

  // ---------------------------------------------------------------------------
  // The peak tables of fcc_intensity

  /** Lines 51-97 of `fcc_intensity`: the G limits, the points at or above `G_min` (the
      lattice points inside the `G_max` sphere are given), sorted by the key, then merged. */
  method FccPeaks(m: Transcendentals, qMin: real, qMax: real, latticePts: seq<Point>) returns (r: Result<PeakTables>)
    requires Lawful(m) && DistinctHkl(latticePts)
    ensures r.Failure? <==> qMax == 0.0
    ensures r.Failure? ==> r.error == ZeroDivisionError
    ensures r.Success? ==> var above := AboveGMin(latticePts, GLimits(m, qMin, qMax).value.0);
      && r.value == MergeAll(m, SortForMerge(above), |SortForMerge(above)|)
      && Aligned(m, r.value) && Separated(r.value.qPks) && Counted(r.value.mult)
      && SumCounts(r.value.mult) == AcceptedCount(above)
      && SumValues(r.value.IPks) == AcceptedIntensity(above)
      && KeysFrom(r.value.qPks, SortForMerge(above), |SortForMerge(above)|)
  {
    var limits := GLimits(m, qMin, qMax);
    if limits.Failure? {
      return Failure(limits.error);
    }
    var above := AboveGMin(latticePts, limits.value.0);
    var sorted := SortForMerge(above);
    SortForMergeContents(above);
    SortKeepsAccepted(above);
    var t := MergePeaks(m, sorted);
    assert SumCounts(t.mult) == AcceptedCount(above);
    assert SumValues(t.IPks) == AcceptedIntensity(above);
    r := Success(t);
  }
}
