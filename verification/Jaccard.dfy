/** Jaccard overlap of member sets, and the drift test built on it. */
module Jaccard {
  import opened Prelude

  function Members(ids: seq<string>): set<string> { set x | x in ids }

  /** |A * B| / |A + B|, and one when both are empty. Arguments may repeat members. */
  function Overlap(a: seq<string>, b: seq<string>): real {
    var x, y := Members(a), Members(b);
    if x + y == {} then 1.0 else |x * y| as real / |x + y| as real
  }

  function Distance(a: seq<string>, b: seq<string>): real { 1.0 - Overlap(a, b) }

  /** The default threshold is 0.8. */
  predicate DriftOk(prior: seq<string>, current: seq<string>, threshold: real) {
    Overlap(prior, current) >= threshold
  }

  lemma UnionSize<T>(x: set<T>, y: set<T>)
    ensures |x + y| == |x - y| + |y - x| + |x * y|
  {
    assert x + y == (x - y) + (y - x) + (x * y);
  }

  /** How far two sets are apart, out of a larger total `u`: padding both by the same amount only adds. */
  function Apart(x: set<string>, y: set<string>): nat { |x - y| + |y - x| }

  lemma DistanceIsFraction(a: seq<string>, b: seq<string>)
    requires Members(a) + Members(b) != {}
    ensures |Members(a) + Members(b)| > 0
    ensures Distance(a, b) == Apart(Members(a), Members(b)) as real / |Members(a) + Members(b)| as real
  {
    var x, y := Members(a), Members(b);
    UnionSize(x, y);
    var i, n := |x * y| as real, |x + y| as real;
    assert n > 0.0 && Apart(x, y) as real == n - i;
    FractionComplement(i, n);
  }

  lemma FractionComplement(i: real, n: real)
    requires n > 0.0
    ensures 1.0 - i / n == (n - i) / n
  {
    assert (i / n) * n == i && ((n - i) / n) * n == n - i;
    assert (1.0 - i / n) * n == n - (i / n) * n;
    CancelFactor(1.0 - i / n, (n - i) / n, n);
  }

  lemma CancelFactor(x: real, y: real, n: real)
    requires n > 0.0 && x * n == y * n
    ensures x == y
  {
    if x < y { StrictProduct(x, y, n); }
    if y < x { StrictProduct(y, x, n); }
  }

  lemma StrictProduct(x: real, y: real, n: real)
    requires x < y && n > 0.0
    ensures x * n < y * n
  {}

  lemma ShrinkDenominator(p: real, n: real, u: real)
    requires 0.0 <= p && 0.0 < n <= u
    ensures p / u <= p / n
  {
    assert (p / n) * n == p && (p / u) * u == p;
    if p / n < p / u {
      ProductMonotone(p / n, p / u, n, u);
    }
  }

  lemma ProductMonotone(x: real, y: real, n: real, u: real)
    requires 0.0 <= x < y && 0.0 < n <= u
    ensures x * n < y * u
  {
    assert x * n <= x * u && x * u < y * u;
  }

  lemma GrowBoth(p: real, n: real, c: real)
    requires 0.0 <= p <= n && 0.0 < n && 0.0 <= c
    ensures p / n <= (p + c) / (n + c)
  {
    var f := p / n;
    assert f * n == p && f <= 1.0;
    assert f * (n + c) <= p + c;
    DivideOut(f, p + c, n + c);
  }

  lemma DivideOut(f: real, p: real, n: real)
    requires n > 0.0 && f * n <= p
    ensures f <= p / n
  {
    assert (p / n) * n == p;
    if p / n < f { StrictProduct(p / n, f, n); }
  }

  lemma SumOverCommon(p: real, q: real, r: real, u: real)
    requires u > 0.0 && p <= q + r
    ensures p / u <= q / u + r / u
  {
    assert q / u + r / u == (q + r) / u;
    assert (p / u) * u == p && ((q + r) / u) * u == q + r;
  }

  /** Members separating a from c, or lying in b only, separate a from b or b from c. */
  lemma ApartTriangle(x: set<string>, y: set<string>, z: set<string>)
    ensures Apart(x, z) + (|x + y + z| - |x + z|) <= Apart(x, y) + Apart(y, z)
  {
    var u := x + y + z;
    assert u == (x + z) + (y - (x + z));
    var left := (x - z) + (z - x) + (y - (x + z));
    var ab, bc := (x - y) + (y - x), (y - z) + (z - y);
    assert |left| == Apart(x, z) + |y - (x + z)|;
    assert left <= ab + bc;
    SubsetSize(left, ab + bc);
    UnionSize(ab, bc);
    assert |ab| == Apart(x, y) && |bc| == Apart(y, z);
    SubsetSize(ab - bc, ab);
    assert ab == (ab - bc) + (ab * bc);
    assert bc == (bc - ab) + (ab * bc);
  }

  /** A distance never shrinks below its numerator over the three-way union. */
  lemma DistanceAtLeast(a: seq<string>, b: seq<string>, u: set<string>)
    requires Members(a) + Members(b) <= u && u != {}
    ensures Apart(Members(a), Members(b)) as real / |u| as real <= Distance(a, b)
  {
    var x, y := Members(a), Members(b);
    if x + y == {} {
      assert x == {} && y == {} && x * y == {};
    } else {
      DistanceIsFraction(a, b);
      SubsetSize(x + y, u);
      ShrinkDenominator(Apart(x, y) as real, |x + y| as real, |u| as real);
    }
  }

  lemma OverlapBounds(a: seq<string>, b: seq<string>)
    ensures 0.0 <= Overlap(a, b) <= 1.0
  {
    var x, y := Members(a), Members(b);
    if x + y != {} {
      SubsetSize(x * y, x + y);
      DivideOut(0.0, |x * y| as real, |x + y| as real);
      GrowBoth(0.0, |x + y| as real, 0.0);
      DistanceIsFraction(a, b);
      DivideOut(0.0, Apart(x, y) as real, |x + y| as real);
    }
  }

  lemma FractionAtLeast(p: real, n: real, t: real)
    requires n > 0.0
    ensures p / n >= t <==> p >= t * n
  {
    assert (p / n) * n == p;
    if p / n >= t {
      if p / n > t { StrictProduct(t, p / n, n); }
    } else {
      StrictProduct(p / n, t, n);
    }
  }

  /** A drift is accepted exactly when the shared members make up the threshold's part of all members of either set. */
  lemma DriftMeaning(prior: seq<string>, current: seq<string>, threshold: real)
    ensures var shared := set x | x in prior && x in current;
            var all := (set x | x in prior) + (set x | x in current);
            && (all != {} ==> (DriftOk(prior, current, threshold) <==> |shared| as real >= threshold * |all| as real))
            && (all == {} ==> (DriftOk(prior, current, threshold) <==> threshold <= 1.0))
            && (all != {} ==> (DriftOk(prior, current, 0.8) <==> 5 * |shared| >= 4 * |all|))
  {
    var shared := set x | x in prior && x in current;
    var all := Members(prior) + Members(current);
    assert shared == Members(prior) * Members(current);
    if all != {} {
      FractionAtLeast(|shared| as real, |all| as real, threshold);
      FractionAtLeast(|shared| as real, |all| as real, 0.8);
    }
  }

  lemma Symmetric(a: seq<string>, b: seq<string>)
    ensures Distance(a, b) == Distance(b, a)
  {
    assert Members(a) + Members(b) == Members(b) + Members(a);
    assert Members(a) * Members(b) == Members(b) * Members(a);
  }

  /** Distance zero exactly on equal member sets, whatever the order and repetition of the lists. */
  lemma ZeroIffEqual(a: seq<string>, b: seq<string>)
    ensures Distance(a, b) == 0.0 <==> Members(a) == Members(b)
  {
    var x, y := Members(a), Members(b);
    if x + y != {} {
      DistanceIsFraction(a, b);
      if x == y {
        assert x - y == {} && y - x == {};
      } else {
        assert x - y != {} || y - x != {};
        assert Apart(x, y) > 0;
        PositiveFraction(Apart(x, y) as real, |x + y| as real);
      }
    } else {
      assert x == {} && y == {};
    }
  }

  lemma PositiveFraction(p: real, n: real)
    requires p > 0.0 && n > 0.0
    ensures p / n > 0.0
  {}

  /** With symmetry and zero exactly on equality, this makes the distance a metric. */
  lemma Triangle(a: seq<string>, b: seq<string>, c: seq<string>)
    ensures Distance(a, c) <= Distance(a, b) + Distance(b, c)
  {
    var x, y, z := Members(a), Members(b), Members(c);
    var u := x + y + z;
    if x + z == {} {
      OverlapBounds(a, b);
      OverlapBounds(b, c);
    } else {
      var n, extra := |x + z| as real, (|u| - |x + z|) as real;
      SubsetSize(x + z, u);
      assert u != {};
      DistanceIsFraction(a, c);
      UnionSize(x, z);
      GrowBoth(Apart(x, z) as real, n, extra);
      ApartTriangle(x, y, z);
      SumOverCommon(Apart(x, z) as real + extra, Apart(x, y) as real, Apart(y, z) as real, |u| as real);
      DistanceAtLeast(a, b, u);
      DistanceAtLeast(b, c, u);
    }
  }

  /** Two accepted drifts in a row keep at least 1 - (1 - s) - (1 - t) of overlap: 0.6 at the default 0.8. */
  lemma DriftsCompose(a: seq<string>, b: seq<string>, c: seq<string>, s: real, t: real)
    requires DriftOk(a, b, s) && DriftOk(b, c, t)
    ensures DriftOk(a, c, s + t - 1.0)
    ensures s == t == 0.8 ==> Overlap(a, c) >= 0.6
  {
    Triangle(a, b, c);
  }

  /** Each set passes the drift test against the one before it. */
  predicate Chain(sets: seq<seq<string>>, threshold: real) {
    var n := |sets| - 1;
    n < 1 || (DriftOk(sets[n - 1], sets[n], threshold) && Chain(sets[..n], threshold))
  }

  /** `steps` times the largest loss one accepted drift allows. */
  function Loss(steps: nat, threshold: real): (r: real)
    ensures r == steps as real * (1.0 - threshold)
  {
    if steps == 0 then 0.0 else Loss(steps - 1, threshold) + (1.0 - threshold)
  }

  /** Over any number of accepted drifts the losses add up at worst. */
  lemma {:induction false} DriftChain(sets: seq<seq<string>>, threshold: real)
    requires sets != [] && Chain(sets, threshold)
    ensures Distance(sets[0], sets[|sets| - 1]) <= Loss(|sets| - 1, threshold)
  {
    var n := |sets| - 1;
    if n == 0 {
      ZeroIffEqual(sets[0], sets[0]);
    } else {
      DriftChain(sets[..n], threshold);
      Triangle(sets[0], sets[n - 1], sets[n]);
    }
  }
}
