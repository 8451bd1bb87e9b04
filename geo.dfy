/** Coordinates and the arithmetic mean used for map centres. Latitudes and
    longitudes are exact reals; binary floating-point rounding is not modelled. */
module Geo {

  datatype Coord = Coord(lat: real, lon: real)

  function LatOf(c: Coord): real { c.lat }
  function LonOf(c: Coord): real { c.lon }

  /** Python's `sum` over the values `f(c)` for the coordinates in order. */
  function SumBy(cs: seq<Coord>, f: Coord -> real): real
  {
    if cs == [] then 0.0 else f(cs[0]) + SumBy(cs[1..], f)
  }

  /** The coordinates of the named entries of a catalog, in the order named. */
  function Resolve(catalog: map<string, Coord>, names: seq<string>): (cs: seq<Coord>)
    requires forall n :: n in names ==> n in catalog
    ensures |cs| == |names|
    ensures forall i :: 0 <= i < |names| ==> cs[i] == catalog[names[i]]
  {
    seq(|names|, i requires 0 <= i < |names| => catalog[names[i]])
  }

  /** The arithmetic mean of the latitudes and of the longitudes. */
  function Centroid(cs: seq<Coord>): Coord
    requires |cs| > 0
  {
    Coord(SumBy(cs, LatOf) / |cs| as real, SumBy(cs, LonOf) / |cs| as real)
  }

  function MinBy(cs: seq<Coord>, f: Coord -> real): (m: real)
    requires |cs| > 0
    ensures exists i :: 0 <= i < |cs| && f(cs[i]) == m
    ensures forall i :: 0 <= i < |cs| ==> m <= f(cs[i])
  {
    if |cs| == 1 then f(cs[0])
    else
      var rest := MinBy(cs[1..], f);
      assert forall i :: 1 <= i < |cs| ==> cs[1..][i - 1] == cs[i];
      if f(cs[0]) <= rest then f(cs[0]) else rest
  }

  function MaxBy(cs: seq<Coord>, f: Coord -> real): (m: real)
    requires |cs| > 0
    ensures exists i :: 0 <= i < |cs| && f(cs[i]) == m
    ensures forall i :: 0 <= i < |cs| ==> f(cs[i]) <= m
  {
    if |cs| == 1 then f(cs[0])
    else
      var rest := MaxBy(cs[1..], f);
      assert forall i :: 1 <= i < |cs| ==> cs[1..][i - 1] == cs[i];
      if f(cs[0]) >= rest then f(cs[0]) else rest
  }

  lemma {:induction false} SumByLowerBound(cs: seq<Coord>, f: Coord -> real, m: real)
    requires forall i :: 0 <= i < |cs| ==> m <= f(cs[i])
    ensures |cs| as real * m <= SumBy(cs, f)
  {
    if cs != [] {
      assert forall i :: 0 <= i < |cs[1..]| ==> cs[1..][i] == cs[i + 1];
      SumByLowerBound(cs[1..], f, m);
    }
  }

  lemma {:induction false} SumByUpperBound(cs: seq<Coord>, f: Coord -> real, m: real)
    requires forall i :: 0 <= i < |cs| ==> f(cs[i]) <= m
    ensures SumBy(cs, f) <= |cs| as real * m
  {
    if cs != [] {
      assert forall i :: 0 <= i < |cs[1..]| ==> cs[1..][i] == cs[i + 1];
      SumByUpperBound(cs[1..], f, m);
    }
  }

  lemma MeanAtLeast(cs: seq<Coord>, f: Coord -> real, lo: real)
    requires |cs| > 0
    requires forall i :: 0 <= i < |cs| ==> lo <= f(cs[i])
    ensures lo <= SumBy(cs, f) / |cs| as real
  {
    SumByLowerBound(cs, f, lo);
    DivideAtLeast(SumBy(cs, f), |cs| as real, lo);
  }

  lemma MeanAtMost(cs: seq<Coord>, f: Coord -> real, hi: real)
    requires |cs| > 0
    requires forall i :: 0 <= i < |cs| ==> f(cs[i]) <= hi
    ensures SumBy(cs, f) / |cs| as real <= hi
  {
    SumByUpperBound(cs, f, hi);
    DivideAtMost(SumBy(cs, f), |cs| as real, hi);
  }

  lemma DivideAtLeast(s: real, n: real, lo: real)
    requires n > 0.0 && n * lo <= s
    ensures lo <= s / n
  {
    var q := s / n;
    assert s == n * q;
  }

  lemma DivideAtMost(s: real, n: real, hi: real)
    requires n > 0.0 && s <= n * hi
    ensures s / n <= hi
  {
    var q := s / n;
    assert s == n * q;
  }

  /** Each component of the centroid lies between the smallest and the largest
      value of that component over the listed coordinates. */
  lemma CentroidWithin(cs: seq<Coord>)
    requires |cs| > 0
    ensures MinBy(cs, LatOf) <= Centroid(cs).lat <= MaxBy(cs, LatOf)
    ensures MinBy(cs, LonOf) <= Centroid(cs).lon <= MaxBy(cs, LonOf)
  {
    MeanAtLeast(cs, LatOf, MinBy(cs, LatOf));
    MeanAtMost(cs, LatOf, MaxBy(cs, LatOf));
    MeanAtLeast(cs, LonOf, MinBy(cs, LonOf));
    MeanAtMost(cs, LonOf, MaxBy(cs, LonOf));
  }

  lemma {:induction false} SumByAppend(a: seq<Coord>, b: seq<Coord>, f: Coord -> real)
    ensures SumBy(a + b, f) == SumBy(a, f) + SumBy(b, f)
  {
    if a == [] {
      assert a + b == b;
    } else {
      assert (a + b)[0] == a[0];
      assert (a + b)[1..] == a[1..] + b;
      SumByAppend(a[1..], b, f);
    }
  }

  /** Taking one term out of a sum. */
  lemma SumByRemove(b: seq<Coord>, j: nat, f: Coord -> real)
    requires j < |b|
    ensures SumBy(b, f) == f(b[j]) + SumBy(b[..j] + b[j + 1..], f)
  {
    assert b == b[..j] + ([b[j]] + b[j + 1..]);
    SumByAppend(b[..j], [b[j]] + b[j + 1..], f);
    assert ([b[j]] + b[j + 1..])[1..] == b[j + 1..];
    SumByAppend(b[..j], b[j + 1..], f);
  }

  /** Removing the first element of `a` and a matching element of its permutation `b`
      leaves permutations of each other. */
  lemma MultisetRemove<T>(a: seq<T>, b: seq<T>, j: nat)
    requires multiset(a) == multiset(b) && a != [] && j < |b| && b[j] == a[0]
    ensures multiset(a[1..]) == multiset(b[..j] + b[j + 1..])
  {
    var x := a[0];
    assert a == [x] + a[1..];
    assert b == b[..j] + [x] + b[j + 1..];
    calc {
      multiset(a[1..]);
      multiset(a) - multiset{x};
      multiset(b) - multiset{x};
      multiset(b[..j] + b[j + 1..]);
    }
  }

  /** A sum does not depend on the order of its terms. */
  lemma {:induction false} SumByPermutation(a: seq<Coord>, b: seq<Coord>, f: Coord -> real)
    requires multiset(a) == multiset(b)
    ensures SumBy(a, f) == SumBy(b, f)
    decreases |a|
  {
    if a == [] {
      assert |b| == |multiset(b)| == 0;
    } else {
      assert a[0] in multiset(b);
      var j :| 0 <= j < |b| && b[j] == a[0];
      MultisetRemove(a, b, j);
      SumByPermutation(a[1..], b[..j] + b[j + 1..], f);
      SumByRemove(b, j, f);
    }
  }

  /** The centroid does not depend on the order in which the coordinates are listed. */
  lemma CentroidOrderIndependent(a: seq<Coord>, b: seq<Coord>)
    requires |a| > 0 && multiset(a) == multiset(b)
    ensures |b| == |a| && Centroid(a) == Centroid(b)
  {
    assert |a| == |multiset(a)| == |multiset(b)| == |b|;
    SumByPermutation(a, b, LatOf);
    SumByPermutation(a, b, LonOf);
  }
}
