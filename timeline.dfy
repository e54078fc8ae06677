/**
 * The per-operation timeline of the histogram extractor: one pair of
 * histograms per logarithmically spaced time window ([0,1) s, [1,2) s,
 * [2,4) s, ...) and the latest interval end seen.
 */
module Timelines {
  import opened Histogram

  const NanosPerSec: nat := 1_000_000_000

  function Pow2(k: nat): (r: nat)
    ensures r >= 1
  {
    if k == 0 then 1 else 2 * Pow2(k - 1)
  }

  /** `(1 << k) >> 1`: the second at which window `k` opens. */
  function WindowStart(k: nat): nat {
    Pow2(k) / 2
  }

  /** `(1 << k) - start`: how many seconds window `k` spans. */
  function WindowLength(k: nat): nat {
    Pow2(k) - WindowStart(k)
  }

  /**
   * The windows are [0,1), [1,2), [2,4), [4,8), ...: each closes where the next
   * one opens, and from window 1 on each is as long as everything before it.
   */
  lemma {:induction false} WindowsTile(k: nat)
    ensures WindowStart(0) == 0 && WindowLength(0) == 1
    ensures WindowStart(k) + WindowLength(k) == WindowStart(k + 1) == Pow2(k)
    ensures k > 0 ==> WindowLength(k) == WindowStart(k) == Pow2(k - 1)
  {
  }

  /** Window starts strictly increase, so a start time names at most one window. */
  lemma {:induction false} WindowStartsIncrease(j: nat, k: nat)
    requires j < k
    ensures WindowStart(j) < WindowStart(k)
    decreases k
  {
    WindowsTile(k - 1);
    if j < k - 1 {
      WindowStartsIncrease(j, k - 1);
    }
  }

  datatype Metric = Processing | Sojourn

  function Pick(h: Histograms, m: Metric): Hist {
    match m
    case Processing => h.processing
    case Sojourn => h.sojourn
  }

  /** Add `x` into metric `m` of `h` and leave the other metric alone. */
  function AddTo(h: Histograms, m: Metric, x: Hist): (r: Histograms)
    ensures Pick(r, m) == Add(Pick(h, m), x)
    ensures forall n :: n != m ==> Pick(r, n) == Pick(h, n)
  {
    match m
    case Processing => h.(processing := Add(h.processing, x))
    case Sojourn => h.(sojourn := Add(h.sojourn, x))
  }

  /** The value of a timeline: its windows and the latest interval end, in nanoseconds. */
  datatype Snapshot = Snapshot(histograms: seq<Histograms>, lastEnd: nat)

  /** Window `k`, or an empty one where the vector has not been extended that far. */
  function WindowOr(ws: seq<Histograms>, k: nat): Histograms {
    if k < |ws| then ws[k] else NoSamples()
  }

  /**
   * Record histogram `h` of metric `m` into window `idx`, for an interval that
   * ends at `end`: the window vector grows to hold `idx`, padded with empty
   * windows, and nothing but that window's metric `m` changes.
   */
  function RecordSnap(s: Snapshot, idx: nat, end: nat, m: Metric, h: Hist): (r: Snapshot)
    ensures r.lastEnd == Larger(s.lastEnd, end)
    ensures |r.histograms| == Larger(|s.histograms|, idx + 1)
    ensures r.histograms[idx] == AddTo(WindowOr(s.histograms, idx), m, h)
    ensures forall k :: 0 <= k < |r.histograms| && k != idx ==> r.histograms[k] == WindowOr(s.histograms, k)
  {
    var padded :=
      if idx >= |s.histograms| then s.histograms + seq(idx + 1 - |s.histograms|, _ => NoSamples())
      else s.histograms;
    Snapshot(padded[idx := AddTo(padded[idx], m, h)], Larger(s.lastEnd, end))
  }

  /** `Timeline::merge` on the windows: window-by-window merge, windows only one side has are kept. */
  function MergedWindows(a: seq<Histograms>, b: seq<Histograms>): (r: seq<Histograms>)
    ensures |r| == Larger(|a|, |b|)
  {
    seq(Larger(|a|, |b|), k requires 0 <= k < Larger(|a|, |b|) =>
      if k < |a| && k < |b| then Merge(a[k], b[k]) else if k < |a| then a[k] else b[k])
  }

  /** Merging sums every count of every window, and the result is as long as the longer side. */
  lemma MergedCounts(a: seq<Histograms>, b: seq<Histograms>, k: nat, m: Metric, v: nat)
    ensures |MergedWindows(a, b)| == Larger(|a|, |b|)
    ensures Count(Pick(WindowOr(MergedWindows(a, b), k), m), v)
         == Count(Pick(WindowOr(a, k), m), v) + Count(Pick(WindowOr(b, k), m), v)
  {
  }

  lemma MergedCommutes(a: seq<Histograms>, b: seq<Histograms>)
    ensures MergedWindows(a, b) == MergedWindows(b, a)
  {
    forall k | 0 <= k < |a| && k < |b| {
      MergeCommutes(a[k], b[k]);
    }
  }

  lemma MergedAssociates(a: seq<Histograms>, b: seq<Histograms>, c: seq<Histograms>)
    ensures MergedWindows(MergedWindows(a, b), c) == MergedWindows(a, MergedWindows(b, c))
  {
    forall k | 0 <= k < |a| && k < |b| && k < |c| {
      MergeAssociates(a[k], b[k], c[k]);
    }
  }

  lemma MergedWithNothing(a: seq<Histograms>)
    ensures MergedWindows(a, []) == a && MergedWindows([], a) == a
  {
  }

  /** `Timeline::collapse`: all windows added together; no windows gives empty histograms. */
  function Collapsed(ws: seq<Histograms>): Histograms
    decreases |ws|
  {
    if |ws| == 0 then NoSamples()
    else if |ws| == 1 then ws[0]
    else Merge(Collapsed(ws[..|ws| - 1]), ws[|ws| - 1])
  }

  /** The sum of the counts of value `v` in metric `m` over all windows. */
  function TotalCount(ws: seq<Histograms>, m: Metric, v: nat): nat
    decreases |ws|
  {
    if |ws| == 0 then 0 else TotalCount(ws[..|ws| - 1], m, v) + Count(Pick(ws[|ws| - 1], m), v)
  }

  /** The collapsed histogram holds every sample of every window. */
  lemma {:induction false} CollapsedCounts(ws: seq<Histograms>, m: Metric, v: nat)
    ensures Count(Pick(Collapsed(ws), m), v) == TotalCount(ws, m, v)
    decreases |ws|
  {
    if |ws| == 1 {
      assert ws[..0] == [];
    } else if |ws| > 1 {
      CollapsedCounts(ws[..|ws| - 1], m, v);
    }
  }

  /** A window's count is part of the total. */
  lemma {:induction false} TotalCountAtLeast(ws: seq<Histograms>, m: Metric, v: nat, k: nat)
    requires k < |ws|
    ensures TotalCount(ws, m, v) >= Count(Pick(ws[k], m), v)
    decreases |ws|
  {
    if k < |ws| - 1 {
      assert ws[..|ws| - 1][k] == ws[k];
      TotalCountAtLeast(ws[..|ws| - 1], m, v, k);
    }
  }

  /** With no window counting value `v`, the total is 0. */
  lemma {:induction false} TotalCountZero(ws: seq<Histograms>, m: Metric, v: nat)
    requires forall k :: 0 <= k < |ws| ==> Count(Pick(ws[k], m), v) == 0
    ensures TotalCount(ws, m, v) == 0
    decreases |ws|
  {
    if |ws| > 0 {
      var p := ws[..|ws| - 1];
      assert forall k :: 0 <= k < |p| ==> p[k] == ws[k];
      TotalCountZero(p, m, v);
    }
  }

  /** With every window's metric empty, the collapsed metric is empty. */
  lemma CollapsedOfEmpty(ws: seq<Histograms>, m: Metric)
    requires forall k :: 0 <= k < |ws| ==> Max(Pick(ws[k], m)) == 0
    ensures Max(Pick(Collapsed(ws), m)) == 0
  {
    forall v | 0 < v
      ensures Count(Pick(Collapsed(ws), m), v) == 0
    {
      forall k | 0 <= k < |ws|
        ensures Count(Pick(ws[k], m), v) == 0
      {
        MaxZeroIff(Pick(ws[k], m));
      }
      TotalCountZero(ws, m, v);
      CollapsedCounts(ws, m, v);
    }
    MaxZeroIff(Pick(Collapsed(ws), m));
  }

  /** A window holding a sample above 0 in a metric makes the collapsed metric non-empty. */
  lemma CollapsedOfNonEmpty(ws: seq<Histograms>, m: Metric, k: nat)
    requires k < |ws| && Max(Pick(ws[k], m)) != 0
    ensures Max(Pick(Collapsed(ws), m)) != 0
  {
    var v := Max(Pick(ws[k], m));
    TotalCountAtLeast(ws, m, v, k);
    CollapsedCounts(ws, m, v);
    MaxZeroIff(Pick(Collapsed(ws), m));
  }

  /**
   * The collapsed metric is skipped as empty (`max() == 0`) exactly when the
   * same metric is skipped in every window of the timeline output.
   */
  lemma CollapsedEmptyIff(ws: seq<Histograms>, m: Metric)
    ensures Max(Pick(Collapsed(ws), m)) == 0 <==> forall k :: 0 <= k < |ws| ==> Max(Pick(ws[k], m)) == 0
  {
    if forall k :: 0 <= k < |ws| ==> Max(Pick(ws[k], m)) == 0 {
      CollapsedOfEmpty(ws, m);
    } else {
      var k :| 0 <= k < |ws| && Max(Pick(ws[k], m)) != 0;
      CollapsedOfNonEmpty(ws, m, k);
    }
  }

  /** A timeline, updated in place by the extractor and by `merge`. */
  class Timeline {
    var histograms: seq<Histograms>
    var lastEnd: nat

    function Snap(): Snapshot
      reads this
    {
      Snapshot(histograms, lastEnd)
    }

    /** `Timeline::default()`. */
    constructor ()
      ensures Snap() == Snapshot([], 0)
    {
      histograms := [];
      lastEnd := 0;
    }

    /** `clone()`. */
    constructor Clone(other: Timeline)
      ensures Snap() == other.Snap()
    {
      histograms := other.histograms;
      lastEnd := other.lastEnd;
    }

    /** The accepting branch of the extractor's decode loop, for one interval histogram. */
    method Record(idx: nat, end: nat, m: Metric, h: Hist)
      modifies this
      ensures Snap() == RecordSnap(old(Snap()), idx, end, m, h)
    {
      lastEnd := Larger(lastEnd, end);
      if idx >= |histograms| {
        histograms := histograms + seq(idx + 1 - |histograms|, _ => NoSamples());
      }
      histograms := histograms[idx := AddTo(histograms[idx], m, h)];
    }

    /** `Timeline::merge`: merge into present windows, push clones of the rest; `last_end` stays. */
    method Merge(other: Timeline)
      requires other != this
      modifies this
      ensures histograms == MergedWindows(old(histograms), other.histograms)
      ensures lastEnd == old(lastEnd)
    {
      ghost var a := histograms;
      var ti := 0;
      while ti < |other.histograms|
        invariant ti <= |other.histograms|
        invariant |histograms| == Larger(|a|, ti)
        invariant forall k :: 0 <= k < |histograms| ==>
          histograms[k] == (if k < ti then MergedWindows(a, other.histograms)[k] else a[k])
        invariant lastEnd == old(lastEnd)
      {
        if ti < |histograms| {
          histograms := histograms[ti := Histogram.Merge(histograms[ti], other.histograms[ti])];
        } else {
          histograms := histograms + [other.histograms[ti]];
        }
        ti := ti + 1;
      }
    }

    /** `Timeline::collapse`. */
    method Collapse() returns (r: Histograms)
      ensures r == Collapsed(histograms)
    {
      if |histograms| == 0 {
        return NoSamples();
      }
      var proc := histograms[0].processing;
      var sjrn := histograms[0].sojourn;
      var i := 1;
      while i < |histograms|
        invariant 1 <= i <= |histograms|
        invariant Histograms(proc, sjrn) == Collapsed(histograms[..i])
      {
        assert histograms[..i + 1][..i] == histograms[..i];
        proc := Add(proc, histograms[i].processing);
        sjrn := Add(sjrn, histograms[i].sojourn);
        i := i + 1;
      }
      assert histograms[..i] == histograms;
      r := Histograms(proc, sjrn);
    }
  }
}
