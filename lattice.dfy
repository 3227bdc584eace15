/**
 * The whole-array operations the spot generators are written with
 * (arange, linspace, meshgrid, column stacking, boolean masks, sums),
 * stated over sequences of exact reals.
 *
 * Floating-point rounding is not modelled: every sample is the exact
 * real `start + k * step`.
 */
module Lattice {

  /** A position in the plane, in centimetres unless stated otherwise. */
  datatype Point = Point(x: real, y: real)

  // ---------------------------------------------------------------------
  // Rounding of reals to integers
  // ---------------------------------------------------------------------

  /** The least integer that is not below `q`. */
  function Ceil(q: real): (c: int)
    ensures c as real - 1.0 < q <= c as real
  {
    -((-q).Floor)
  }

  /** Conversion of a float to an integer by truncation toward zero. */
  function Trunc(q: real): (t: int)
    ensures 0.0 <= q ==> 0 <= t && t as real <= q < t as real + 1.0
    ensures q < 0.0 ==> t <= 0 && t as real - 1.0 < q <= t as real
  {
    if q >= 0.0 then q.Floor else -((-q).Floor)
  }

  // ---------------------------------------------------------------------
  // Evenly stepped samples
  // ---------------------------------------------------------------------

  /** Sample number `k` of a lattice that starts at `start` and advances by `step`. */
  function Sample(start: real, step: real, k: nat): real
  {
    start + (k as real) * step
  }

  /** How many samples arange(start, stop, step) yields: ceil((stop - start) / step), never negative. */
  function ArangeCount(start: real, stop: real, step: real): nat
    requires step != 0.0
  {
    var c := Ceil((stop - start) / step);
    if c < 0 then 0 else c
  }

  /** arange(start, stop, step): the samples start + k * step, for k = 0 .. ArangeCount - 1. */
  function Arange(start: real, stop: real, step: real): (r: seq<real>)
    requires step != 0.0
    ensures r == [] <==> if step > 0.0 then stop <= start else start <= stop
  {
    seq(ArangeCount(start, stop, step), k requires 0 <= k => Sample(start, step, k))
  }

  lemma StrictMulMono(a: real, b: real, s: real)
    requires a < b && 0.0 < s
    ensures a * s < b * s
  {
  }

  /**
   * With a positive step, arange covers exactly the half-open range [start, stop):
   * sample k is present precisely when start + k * step < stop.
   */
  lemma ArangeHalfOpen(start: real, stop: real, step: real)
    requires step > 0.0
    ensures forall k: nat {:trigger Sample(start, step, k)} ::
      k < |Arange(start, stop, step)| <==> Sample(start, step, k) < stop
    ensures forall k :: 0 <= k < |Arange(start, stop, step)| ==>
      Arange(start, stop, step)[k] == Sample(start, step, k)
  {
    var q := (stop - start) / step;
    assert q * step == stop - start;
    forall k: nat
      ensures k < |Arange(start, stop, step)| <==> Sample(start, step, k) < stop
    {
      if k < |Arange(start, stop, step)| {
        assert (k as real) < q;
        StrictMulMono(k as real, q, step);
      } else {
        assert q <= k as real;
        if q < k as real {
          StrictMulMono(q, k as real, step);
        }
      }
    }
  }

  /** With a negative step, arange covers exactly the samples that lie above `stop`. */
  lemma ArangeDescending(start: real, stop: real, step: real)
    requires step < 0.0
    ensures forall k: nat {:trigger Sample(start, step, k)} ::
      k < |Arange(start, stop, step)| <==> Sample(start, step, k) > stop
  {
    var q := (stop - start) / step;
    assert q * step == stop - start;
    forall k: nat
      ensures k < |Arange(start, stop, step)| <==> Sample(start, step, k) > stop
    {
      if k < |Arange(start, stop, step)| {
        assert (k as real) < q;
        StrictMulMono(k as real, q, -step);
      } else {
        assert q <= k as real;
        if q < k as real {
          StrictMulMono(q, k as real, -step);
        }
      }
    }
  }

  /** Strictly increasing sequences of reals. */
  ghost predicate StrictlyIncreasing(s: seq<real>)
  {
    forall i, j :: 0 <= i < j < |s| ==> s[i] < s[j]
  }

  lemma {:induction false} ArangeIncreasing(start: real, stop: real, step: real)
    requires step > 0.0
    ensures StrictlyIncreasing(Arange(start, stop, step))
  {
    var r := Arange(start, stop, step);
    forall i, j | 0 <= i < j < |r|
      ensures r[i] < r[j]
    {
      StrictMulMono(i as real, j as real, step);
    }
  }

  /**
   * linspace(a, b, n): n evenly spaced samples whose extremes are exactly a and b
   * (a single sample is a itself, no sample at all when n is 0).
   */
  function Linspace(a: real, b: real, n: nat): (r: seq<real>)
    ensures |r| == n
    ensures n > 0 ==> r[0] == a
  {
    if n == 0 then []
    else if n == 1 then [a]
    else
      var step := (b - a) / ((n - 1) as real);
      seq(n, k requires 0 <= k < n => a + (k as real) * step)
  }

  lemma LinspaceAt(a: real, b: real, n: nat, k: nat)
    requires n >= 2 && k < n
    ensures |Linspace(a, b, n)| == n
    ensures Linspace(a, b, n)[k] == a + (k as real) * ((b - a) / ((n - 1) as real))
  {
  }

  lemma LinspaceLast(a: real, b: real, n: nat)
    requires n >= 2
    ensures Linspace(a, b, n)[n - 1] == b
  {
    var d := (n - 1) as real;
    var step := (b - a) / d;
    assert d * step == b - a;
    LinspaceAt(a, b, n, n - 1);
  }

  lemma LinspaceEnds(a: real, b: real, n: nat)
    requires n >= 2
    ensures |Linspace(a, b, n)| == n
    ensures Linspace(a, b, n)[0] == a && Linspace(a, b, n)[n - 1] == b
    ensures forall k :: 0 <= k < n - 1 ==>
      Linspace(a, b, n)[k + 1] - Linspace(a, b, n)[k] == (b - a) / ((n - 1) as real)
  {
    var r := Linspace(a, b, n);
    var step := (b - a) / ((n - 1) as real);
    LinspaceAt(a, b, n, 0);
    LinspaceLast(a, b, n);
    forall k | 0 <= k < n - 1
      ensures r[k + 1] - r[k] == step
    {
      var x := k as real;
      assert (x + 1.0) * step == x * step + step;
      LinspaceAt(a, b, n, k);
      LinspaceAt(a, b, n, k + 1);
    }
  }

  // ---------------------------------------------------------------------
  // Elementwise operations
  // ---------------------------------------------------------------------

  /** s + d, elementwise. */
  function Shifted(s: seq<real>, d: real): seq<real>
  {
    seq(|s|, i requires 0 <= i < |s| => s[i] + d)
  }

  /** f * s, elementwise. */
  function Scaled(s: seq<real>, f: real): seq<real>
  {
    seq(|s|, i requires 0 <= i < |s| => f * s[i])
  }

  /** A vector of n zeros. */
  function Zeros(n: nat): seq<real>
  {
    seq(n, _ => 0.0)
  }

  /** A vector of n ones. */
  function Ones(n: nat): seq<real>
  {
    seq(n, _ => 1.0)
  }

  /** The sum of the entries, added from the front. */
  function Sum(s: seq<real>): real
  {
    if s == [] then 0.0 else s[0] + Sum(s[1..])
  }

  lemma {:induction false} SumScaled(s: seq<real>, f: real)
    ensures Sum(Scaled(s, f)) == f * Sum(s)
  {
    if s != [] {
      assert forall i :: 0 <= i < |s| - 1 ==> Scaled(s, f)[1..][i] == Scaled(s[1..], f)[i];
      assert Scaled(s, f)[1..] == Scaled(s[1..], f);
      SumScaled(s[1..], f);
    }
  }

  lemma {:induction false} SumZeros(n: nat)
    ensures Sum(Zeros(n)) == 0.0
  {
    if n > 0 {
      assert Zeros(n)[1..] == Zeros(n - 1);
      SumZeros(n - 1);
    }
  }

  lemma {:induction false} SumOnes(n: nat)
    ensures Sum(Ones(n)) == n as real
  {
    if n > 0 {
      assert Ones(n)[1..] == Ones(n - 1);
      SumOnes(n - 1);
    }
  }

  lemma {:induction false} SumNonNegative(s: seq<real>)
    requires forall i :: 0 <= i < |s| ==> s[i] >= 0.0
    ensures Sum(s) >= 0.0
  {
    if s != [] {
      assert forall i :: 0 <= i < |s[1..]| ==> s[1..][i] == s[i + 1];
      SumNonNegative(s[1..]);
    }
  }

  /** The rows of a grid in reverse order (a vertical flip). */
  function Reverse<T>(s: seq<T>): (r: seq<T>)
  {
    seq(|s|, i requires 0 <= i < |s| => s[|s| - 1 - i])
  }

  // ---------------------------------------------------------------------
  // Cartesian products and the flat coordinate layout
  // ---------------------------------------------------------------------

  /** The points (x, ys[0]), (x, ys[1]), ... */
  function Row(x: real, ys: seq<real>): seq<Point>
  {
    seq(|ys|, j requires 0 <= j < |ys| => Point(x, ys[j]))
  }

  /**
   * meshgrid(xs, ys, indexing='ij') raveled and paired: every (xs[i], ys[j]),
   * with xs as the outer index and ys as the inner one.
   */
  function Mesh(xs: seq<real>, ys: seq<real>): (r: seq<Point>)
    ensures |r| == |xs| * |ys|
    decreases |xs|
  {
    if xs == [] then [] else Row(xs[0], ys) + Mesh(xs[1..], ys)
  }

  /** Point number i * |ys| + j of the product is (xs[i], ys[j]). */
  lemma {:induction false} MeshAt(xs: seq<real>, ys: seq<real>, i: nat, j: nat)
    requires i < |xs| && j < |ys|
    ensures i * |ys| + j < |Mesh(xs, ys)|
    ensures Mesh(xs, ys)[i * |ys| + j] == Point(xs[i], ys[j])
    decreases i
  {
    if i > 0 {
      MeshAt(xs[1..], ys, i - 1, j);
      assert i * |ys| + j == |ys| + ((i - 1) * |ys| + j);
    }
  }

  /** The product holds a point exactly when its x is one of xs and its y one of ys. */
  lemma {:induction false} MeshMember(xs: seq<real>, ys: seq<real>, p: Point)
    ensures p in Mesh(xs, ys) <==> p.x in xs && p.y in ys
    decreases |xs|
  {
    if xs != [] {
      MeshMember(xs[1..], ys, p);
      assert xs == [xs[0]] + xs[1..];
      if p.x in xs && p.y in ys {
        var i :| 0 <= i < |xs| && xs[i] == p.x;
        var j :| 0 <= j < |ys| && ys[j] == p.y;
        MeshAt(xs, ys, i, j);
      }
    }
  }

  /** Lexicographic order on points: by x first, then by y. */
  predicate LexLess(p: Point, q: Point)
  {
    p.x < q.x || (p.x == q.x && p.y < q.y)
  }

  /** Every earlier element is `less` than every later one. */
  ghost predicate Increasing<T>(s: seq<T>, less: (T, T) -> bool)
  {
    forall i, j :: 0 <= i < j < |s| ==> less(s[i], s[j])
  }

  lemma IncreasingConcat<T>(a: seq<T>, b: seq<T>, less: (T, T) -> bool)
    requires Increasing(a, less) && Increasing(b, less)
    requires forall i, j :: 0 <= i < |a| && 0 <= j < |b| ==> less(a[i], b[j])
    ensures Increasing(a + b, less)
  {
    forall i, j | 0 <= i < j < |a + b|
      ensures less((a + b)[i], (a + b)[j])
    {
      if j < |a| {
        assert less(a[i], a[j]);
      } else if i < |a| {
        assert less(a[i], b[j - |a|]);
      } else {
        assert less(b[i - |a|], b[j - |a|]);
      }
    }
  }

  /** Strictly increasing axes give a product in strictly increasing lexicographic order. */
  lemma {:induction false} MeshIncreasing(xs: seq<real>, ys: seq<real>)
    requires StrictlyIncreasing(xs) && StrictlyIncreasing(ys)
    ensures Increasing(Mesh(xs, ys), LexLess)
    decreases |xs|
  {
    if xs != [] {
      var row, rest := Row(xs[0], ys), Mesh(xs[1..], ys);
      MeshIncreasing(xs[1..], ys);
      forall i, j | 0 <= i < |row| && 0 <= j < |rest|
        ensures LexLess(row[i], rest[j])
      {
        assert rest[j] in rest;
        MeshMember(xs[1..], ys, rest[j]);
        var k :| 0 <= k < |xs[1..]| && xs[1..][k] == rest[j].x;
        assert xs[0] < xs[k + 1];
      }
      IncreasingConcat(row, rest, LexLess);
    }
  }

  /**
   * column_stack((X, Y)).ravel() for the points' coordinates: the flat layout
   * [x0, y0, x1, y1, ...] with two numbers per point.
   */
  function Flatten(ps: seq<Point>): (r: seq<real>)
    ensures |r| == 2 * |ps|
    ensures forall i :: 0 <= i < |ps| ==> r[2 * i] == ps[i].x && r[2 * i + 1] == ps[i].y
  {
    if ps == [] then []
    else
      var rest := Flatten(ps[1..]);
      assert forall i :: 1 <= i < |ps| ==> ps[1..][i - 1] == ps[i];
      [ps[0].x, ps[0].y] + rest
  }

  /** Reads a flat coordinate array back as points: pair number i is (c[2i], c[2i+1]). */
  function Positions(c: seq<real>): seq<Point>
  {
    seq(|c| / 2, i requires 0 <= i < |c| / 2 => Point(c[2 * i], c[2 * i + 1]))
  }

  lemma PositionsOfFlatten(ps: seq<Point>)
    ensures Positions(Flatten(ps)) == ps
  {
  }

  lemma FlattenOfPositions(c: seq<real>)
    requires |c| % 2 == 0
    ensures Flatten(Positions(c)) == c
  {
    var f := Flatten(Positions(c));
    forall k | 0 <= k < |c|
      ensures f[k] == c[k]
    {
      var i := k / 2;
      var p := Positions(c);
      assert i < |p| && p[i] == Point(c[2 * i], c[2 * i + 1]);
      assert f[2 * i] == p[i].x && f[2 * i + 1] == p[i].y;
      if k % 2 == 0 {
        assert k == 2 * i;
      } else {
        assert k == 2 * i + 1;
      }
    }
  }

  /** _flat_grid(xs, ys): the product of two axes in the flat x-outer, y-inner layout. */
  function FlatGrid(xs: seq<real>, ys: seq<real>): seq<real>
  {
    Flatten(Mesh(xs, ys))
  }

  /** _flat_grid returns 2 * |xs| * |ys| numbers, which read back as the product of the axes. */
  lemma FlatGridLayout(xs: seq<real>, ys: seq<real>)
    ensures |FlatGrid(xs, ys)| == 2 * (|xs| * |ys|)
    ensures Positions(FlatGrid(xs, ys)) == Mesh(xs, ys)
  {
    PositionsOfFlatten(Mesh(xs, ys));
  }

  /** Pair number i * |ys| + j of _flat_grid(xs, ys) is (xs[i], ys[j]): x is the outer index. */
  lemma FlatGridAt(xs: seq<real>, ys: seq<real>, i: nat, j: nat)
    requires i < |xs| && j < |ys|
    ensures i * |ys| + j < |Positions(FlatGrid(xs, ys))|
    ensures Positions(FlatGrid(xs, ys))[i * |ys| + j] == Point(xs[i], ys[j])
  {
    FlatGridLayout(xs, ys);
    MeshAt(xs, ys, i, j);
  }

  /** First coordinates of the points (the raveled X array of a meshgrid). */
  function Xs(ps: seq<Point>): seq<real>
  {
    seq(|ps|, i requires 0 <= i < |ps| => ps[i].x)
  }

  /** Second coordinates of the points (the raveled Y array of a meshgrid). */
  function Ys(ps: seq<Point>): seq<real>
  {
    seq(|ps|, i requires 0 <= i < |ps| => ps[i].y)
  }

  // ---------------------------------------------------------------------
  // Boolean masks
  // ---------------------------------------------------------------------

  /** s[mask]: the elements that satisfy `keep`, in their original order. */
  function Filter<T(!new)>(keep: T -> bool, s: seq<T>): (r: seq<T>)
    ensures |r| <= |s|
    ensures forall x :: x in r <==> x in s && keep(x)
  {
    if s == [] then []
    else
      var rest := Filter(keep, s[1..]);
      assert s == [s[0]] + s[1..];
      (if keep(s[0]) then [s[0]] else []) + rest
  }

  /** Masking a concatenation masks each part. */
  lemma {:induction false} FilterConcat<T(!new)>(keep: T -> bool, a: seq<T>, b: seq<T>)
    ensures Filter(keep, a + b) == Filter(keep, a) + Filter(keep, b)
  {
    if a == [] {
      assert a + b == b;
      assert Filter(keep, a) == [];
    } else {
      var head := if keep(a[0]) then [a[0]] else [];
      var fa, fb := Filter(keep, a[1..]), Filter(keep, b);
      assert Filter(keep, a + b) == head + (fa + fb) by {
        assert (a + b)[0] == a[0];
        assert (a + b)[1..] == a[1..] + b;
        FilterConcat(keep, a[1..], b);
      }
      assert head + (fa + fb) == (head + fa) + fb;
    }
  }

  /** Masking three elements. */
  lemma FilterThree<T(!new)>(keep: T -> bool, a: T, b: T, c: T)
    ensures Filter(keep, [a, b, c])
              == (if keep(a) then [a] else []) + (if keep(b) then [b] else []) + (if keep(c) then [c] else [])
  {
    assert [c][1..] == [];
    assert Filter(keep, [c]) == (if keep(c) then [c] else []) + Filter(keep, []);
    assert [b, c][1..] == [c];
    assert Filter(keep, [b, c]) == (if keep(b) then [b] else []) + Filter(keep, [c]);
    assert [a, b, c][1..] == [b, c];
    assert Filter(keep, [a, b, c]) == (if keep(a) then [a] else []) + Filter(keep, [b, c]);
  }

  /** Masking keeps the order of what it keeps. */
  lemma {:induction false} FilterIncreasing<T(!new)>(keep: T -> bool, s: seq<T>, less: (T, T) -> bool)
    requires Increasing(s, less)
    ensures Increasing(Filter(keep, s), less)
  {
    if s != [] {
      assert Increasing(s[1..], less);
      FilterIncreasing(keep, s[1..], less);
      var rest := Filter(keep, s[1..]);
      if keep(s[0]) {
        forall j | 0 <= j < |rest|
          ensures less(s[0], rest[j])
        {
          assert rest[j] in rest;
          var k :| 0 <= k < |s[1..]| && s[1..][k] == rest[j];
          assert less(s[0], s[k + 1]);
        }
        IncreasingConcat([s[0]], rest, less);
      } else {
        assert Filter(keep, s) == rest;
      }
    }
  }
}
