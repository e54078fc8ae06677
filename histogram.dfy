/**
 * An abstract HdrHistogram: the count recorded at each bucket value. Only the
 * operations the extractor relies on are modelled: adding one histogram into
 * another and the largest recorded value (`max()`, which is 0 for an empty one).
 * Bucket precision, value bounds and quantile statistics are not modelled.
 */
module Histogram {
  /** `h[b]` is the number of samples recorded at value `b`; values past the end have count 0. */
  type Hist = seq<nat>

  function Empty(): (h: Hist)
    ensures forall b :: Count(h, b) == 0
  {
    []
  }

  function Count(h: Hist, b: nat): nat {
    if b < |h| then h[b] else 0
  }

  function Larger(a: nat, b: nat): nat {
    if a < b then b else a
  }

  /** `a.add(b)`: bucket-wise sum. */
  function Add(a: Hist, b: Hist): (r: Hist)
    ensures |r| == Larger(|a|, |b|)
    ensures forall v :: Count(r, v) == Count(a, v) + Count(b, v)
  {
    seq(Larger(|a|, |b|), v requires 0 <= v => Count(a, v) + Count(b, v))
  }

  /** The largest value with a non-zero count, or 0 when there is none: `max()`. */
  function Max(h: Hist): (r: nat)
    ensures r == 0 || (r < |h| && h[r] > 0)
    ensures forall v :: r < v ==> Count(h, v) == 0
    decreases |h|
  {
    if |h| == 0 then 0
    else if h[|h| - 1] > 0 then |h| - 1
    else
      var p := h[..|h| - 1];
      assert forall v :: v != |h| - 1 ==> Count(h, v) == Count(p, v);
      Max(p)
  }

  /** `max() == 0` holds exactly when nothing was recorded above value 0. */
  lemma MaxZeroIff(h: Hist)
    ensures Max(h) == 0 <==> forall v :: 0 < v ==> Count(h, v) == 0
  {
    if Max(h) != 0 {
      assert Count(h, Max(h)) > 0;
    }
  }

  /** The largest value of a sum is the larger of the two largest values. */
  lemma MaxOfAdd(a: Hist, b: Hist)
    ensures Max(Add(a, b)) == Larger(Max(a), Max(b))
  {
    var s := Add(a, b);
    var m := Larger(Max(a), Max(b));
    if m > 0 {
      if m == Max(a) {
        assert Count(s, m) >= Count(a, m) > 0;
      } else {
        assert Count(s, m) >= Count(b, m) > 0;
      }
      assert Max(s) >= m;
    }
    if Max(s) > 0 {
      assert Count(a, Max(s)) > 0 || Count(b, Max(s)) > 0;
    }
  }

  lemma AddCommutes(a: Hist, b: Hist)
    ensures Add(a, b) == Add(b, a)
  {
  }

  lemma AddAssociates(a: Hist, b: Hist, c: Hist)
    ensures Add(Add(a, b), c) == Add(a, Add(b, c))
  {
  }

  /** Adding an empty histogram keeps all counts, padding with zeros at most. */
  lemma AddEmpty(a: Hist)
    ensures Add(a, Empty()) == a
  {
  }

  /** The pair of histograms kept per time window: processing time and sojourn time. */
  datatype Histograms = Histograms(processing: Hist, sojourn: Hist)

  /** `Histograms::default()`: both metrics empty. */
  function NoSamples(): (h: Histograms)
    ensures Max(h.processing) == 0 && Max(h.sojourn) == 0
  {
    Histograms(Empty(), Empty())
  }

  /** `Histograms::merge`: add each metric of `other` into the same metric. */
  function Merge(h: Histograms, other: Histograms): (r: Histograms)
    ensures forall v :: Count(r.processing, v) == Count(h.processing, v) + Count(other.processing, v)
    ensures forall v :: Count(r.sojourn, v) == Count(h.sojourn, v) + Count(other.sojourn, v)
  {
    Histograms(Add(h.processing, other.processing), Add(h.sojourn, other.sojourn))
  }

  lemma MergeCommutes(h: Histograms, other: Histograms)
    ensures Merge(h, other) == Merge(other, h)
  {
    AddCommutes(h.processing, other.processing);
    AddCommutes(h.sojourn, other.sojourn);
  }

  lemma MergeAssociates(a: Histograms, b: Histograms, c: Histograms)
    ensures Merge(Merge(a, b), c) == Merge(a, Merge(b, c))
  {
    AddAssociates(a.processing, b.processing, c.processing);
    AddAssociates(a.sojourn, b.sojourn, c.sojourn);
  }
}
