/**
 * The spot-pattern generators: a field description becomes a flat coordinate
 * array [x0, y0, x1, y1, ...] in centimetres and one relative weight per spot.
 *
 * Three strategies are chosen by the shape tag: a square or hexagonal lattice
 * over a rectangle, a closed disc cut out of a bounding-box lattice, and a mask
 * taken from a grayscale image that has already been resampled to one pixel per
 * spot. Errors the generators raise are returned as `Err` values.
 */
module Spots {
  import opened Lattice

  /** An 8-bit grayscale intensity. */
  type Pixel = p: int | 0 <= p <= 255

  /** The coordinates (two numbers per spot) and the relative weights of a pattern. */
  datatype SpotSet = SpotSet(coords: seq<real>, weights: seq<real>)

  datatype SpotError =
    | UnknownSpotShape(shape: string)
    | ZeroSpacing
    | NegativeSampleCount(count: int)

  datatype Result<T> = Ok(value: T) | Err(error: SpotError)

  /**
   * The pattern fields of the plan input: which generator, the lattice kind,
   * the spacing (cm), the rectangle, the disc, and the image after resampling
   * (rows listed top-down, as an image is stored).
   */
  datatype PatternInput = PatternInput(
    shape: string,
    patternType: string,
    spacing: real,
    xyMin: Point,
    xyMax: Point,
    diameter: real,
    center: Point,
    image: seq<seq<Pixel>>)

  /** The open interval of inverted image weights that are kept. */
  const ThresholdLower: real := 0.01
  const ThresholdUpper: real := 1.0

  /** The intensity of a white pixel. */
  const FullIntensity: real := 255.0

  /** Two coordinates per weight. */
  predicate WellFormed(s: SpotSet)
  {
    |s.coords| == 2 * |s.weights|
  }

  /** All spots with weight 1.0. */
  predicate UniformWeights(s: SpotSet)
  {
    forall i :: 0 <= i < |s.weights| ==> s.weights[i] == 1.0
  }

  /** The given coordinates, each pair with weight 1.0 (ones(len(coords) // 2)). */
  function Uniform(coords: seq<real>): (r: SpotSet)
    ensures r.coords == coords && |r.weights| == |coords| / 2
    ensures |coords| % 2 == 0 ==> WellFormed(r)
    ensures UniformWeights(r)
  {
    SpotSet(coords, Ones(|coords| / 2))
  }

  // ---------------------------------------------------------------------
  // Dispatch on the shape tag
  // ---------------------------------------------------------------------

  /** Chooses the generator by the shape tag; any other tag is an error. */
  function GenerateSpotPattern(input: PatternInput): (r: Result<SpotSet>)
    ensures input.shape == "square" ==> r == SquarePattern(input)
    ensures input.shape == "circle" ==> r == CircularPattern(input)
    ensures input.shape == "image" ==> r == ImagePattern(input)
    ensures (r.Err? && r.error.UnknownSpotShape?) <==> input.shape !in {"square", "circle", "image"}
    ensures r.Err? && r.error.UnknownSpotShape? ==> r.error.shape == input.shape
    ensures r.Ok? ==> WellFormed(r.value)
  {
    if input.shape == "square" then SquarePattern(input)
    else if input.shape == "circle" then CircularPattern(input)
    else if input.shape == "image" then ImagePattern(input)
    else Err(UnknownSpotShape(input.shape))
  }

  // ---------------------------------------------------------------------
  // Square and hexagonal lattices
  // ---------------------------------------------------------------------

  /** Samples of one axis of the square lattice: arange(lo, hi + spacing / 2, spacing). */
  function SquareAxis(lo: real, hi: real, spacing: real): seq<real>
    requires spacing != 0.0
  {
    Arange(lo, hi + spacing * 0.5, spacing)
  }

  /**
   * The hexagonal coordinates as the generator computes them: base samples on
   * [min, max) for both axes, the y samples shifted by half a step, a first
   * meshgrid of the base axes, a second meshgrid of the first one's (2-D) x
   * array with the shifted y samples, the two raveled results concatenated,
   * and the concatenation crossed once more by _flat_grid.
   */
  function HexagonalCoords(xyMin: Point, xyMax: Point, spacing: real): (r: seq<real>)
    requires spacing != 0.0
    ensures |r| % 2 == 0
  {
    var xs := Arange(xyMin.x, xyMax.x, spacing);
    var ys := Arange(xyMin.y, xyMax.y, spacing);
    var ysShifted := Shifted(ys, spacing / 2.0);
    // meshgrid(a, b) with its default indexing runs b outer and a inner
    var first := Mesh(ys, xs);
    var second := Mesh(ysShifted, Ys(first));
    FlatGrid(Ys(first) + Ys(second), Xs(first) + Xs(second))
  }

  /**
   * generate_square_pattern. A zero spacing fails on the division that sizes the
   * fallback (or, for the hexagonal lattice, inside arange); a negative spacing
   * falls back to linspace with truncated sample counts, which fails when a
   * count is negative.
   */
  function SquarePattern(input: PatternInput): (r: Result<SpotSet>)
    ensures r.Ok? ==> WellFormed(r.value) && UniformWeights(r.value)
    ensures r.Err? ==> !r.error.UnknownSpotShape?
    ensures input.spacing == 0.0 ==> r == Err(ZeroSpacing)
  {
    var s := input.spacing;
    var lo, hi := input.xyMin, input.xyMax;
    if s == 0.0 then Err(ZeroSpacing)
    else if input.patternType == "hexagonal" then
      Ok(Uniform(HexagonalCoords(lo, hi, s)))
    else if s > 0.0 then
      Ok(Uniform(FlatGrid(SquareAxis(lo.x, hi.x, s), SquareAxis(lo.y, hi.y, s))))
    else
      match LinspaceGrid(lo, hi, s)
      case Ok(coords) => Ok(Uniform(coords))
      case Err(e) => Err(e)
  }

  /**
   * The fallback of generate_square_pattern for a negative spacing: truncated
   * sample counts, which fail when negative, and the crossed linspace axes.
   */
  function LinspaceGrid(lo: Point, hi: Point, s: real): (r: Result<seq<real>>)
    requires s < 0.0
    ensures r.Ok? ==> |r.value| % 2 == 0
    ensures r.Err? ==> r.error.NegativeSampleCount?
  {
    var nx := Trunc((hi.x - lo.x) / s);
    var ny := Trunc((hi.y - lo.y) / s);
    if nx < 0 then Err(NegativeSampleCount(nx))
    else if ny < 0 then Err(NegativeSampleCount(ny))
    else Ok(FlatGrid(Linspace(lo.x, hi.x, nx), Linspace(lo.y, hi.y, ny)))
  }

  /**
   * With a positive spacing the square-lattice axis is min + k * spacing for every
   * k with min + k * spacing < max + spacing / 2: it starts at min, strictly
   * increases, and its last sample lies within half a step of max.
   */
  lemma SquareAxisSamples(lo: real, hi: real, s: real)
    requires s > 0.0
    ensures forall k: nat {:trigger Sample(lo, s, k)} ::
      k < |SquareAxis(lo, hi, s)| <==> Sample(lo, s, k) < hi + s * 0.5
    ensures forall k :: 0 <= k < |SquareAxis(lo, hi, s)| ==> SquareAxis(lo, hi, s)[k] == Sample(lo, s, k)
    ensures StrictlyIncreasing(SquareAxis(lo, hi, s))
    ensures |SquareAxis(lo, hi, s)| > 0 <==> lo < hi + s * 0.5
    ensures |SquareAxis(lo, hi, s)| > 0 ==>
      SquareAxis(lo, hi, s)[0] == lo &&
      hi - s * 0.5 <= SquareAxis(lo, hi, s)[|SquareAxis(lo, hi, s)| - 1] < hi + s * 0.5
  {
    var xs := SquareAxis(lo, hi, s);
    ArangeHalfOpen(lo, hi + s * 0.5, s);
    ArangeIncreasing(lo, hi + s * 0.5, s);
    assert Sample(lo, s, 0) == lo;
    if |xs| > 0 {
      var n := |xs|;
      assert !(Sample(lo, s, n) < hi + s * 0.5);
      assert xs[n - 1] == Sample(lo, s, n - 1);
      assert Sample(lo, s, n) == Sample(lo, s, n - 1) + s;
    }
  }

  /**
   * Square mode with a positive spacing: the spots are the product of the two
   * axes in x-outer, y-inner order (hence in strictly increasing lexicographic
   * order), one weight of 1.0 per spot.
   */
  lemma SquareLattice(input: PatternInput)
    requires input.patternType != "hexagonal" && input.spacing > 0.0
    ensures var xs := SquareAxis(input.xyMin.x, input.xyMax.x, input.spacing);
            var ys := SquareAxis(input.xyMin.y, input.xyMax.y, input.spacing);
            var r := SquarePattern(input);
            && r.Ok?
            && Positions(r.value.coords) == Mesh(xs, ys)
            && |r.value.weights| == |xs| * |ys|
            && UniformWeights(r.value)
            && Increasing(Positions(r.value.coords), LexLess)
  {
    var s := input.spacing;
    var xs := SquareAxis(input.xyMin.x, input.xyMax.x, s);
    var ys := SquareAxis(input.xyMin.y, input.xyMax.y, s);
    FlatGridLayout(xs, ys);
    SquareAxisSamples(input.xyMin.x, input.xyMax.x, s);
    SquareAxisSamples(input.xyMin.y, input.xyMax.y, s);
    MeshIncreasing(xs, ys);
  }

  /**
   * A negative spacing selects the linspace fallback: it fails exactly when a
   * truncated sample count is negative, and otherwise crosses the two
   * linspace axes with weight 1.0 per spot.
   */
  lemma LinspaceFallback(input: PatternInput)
    requires input.patternType != "hexagonal" && input.spacing < 0.0
    ensures var nx := Trunc((input.xyMax.x - input.xyMin.x) / input.spacing);
            var ny := Trunc((input.xyMax.y - input.xyMin.y) / input.spacing);
            var r := SquarePattern(input);
            && (r.Err? <==> nx < 0 || ny < 0)
            && (r.Err? ==> r.error == NegativeSampleCount(if nx < 0 then nx else ny))
            && (r.Ok? ==>
                  Positions(r.value.coords) ==
                    Mesh(Linspace(input.xyMin.x, input.xyMax.x, nx), Linspace(input.xyMin.y, input.xyMax.y, ny)))
  {
    var nx := Trunc((input.xyMax.x - input.xyMin.x) / input.spacing);
    var ny := Trunc((input.xyMax.y - input.xyMin.y) / input.spacing);
    if nx >= 0 && ny >= 0 {
      FlatGridLayout(Linspace(input.xyMin.x, input.xyMax.x, nx), Linspace(input.xyMin.y, input.xyMax.y, ny));
    }
  }

  /**
   * The hexagonal base samples cover [min, max) with a positive spacing, and the
   * shifted y samples are the base y samples plus half a step.
   */
  lemma HexagonalAxes(lo: real, hi: real, s: real)
    requires s > 0.0
    ensures forall k: nat {:trigger Sample(lo, s, k)} :: k < |Arange(lo, hi, s)| <==> Sample(lo, s, k) < hi
    ensures forall y :: y in Arange(lo, hi, s) ==> lo <= y < hi
    ensures |Shifted(Arange(lo, hi, s), s / 2.0)| == |Arange(lo, hi, s)|
    ensures forall k :: 0 <= k < |Arange(lo, hi, s)| ==>
      Shifted(Arange(lo, hi, s), s / 2.0)[k] == Arange(lo, hi, s)[k] + s / 2.0
  {
    var a := Arange(lo, hi, s);
    ArangeHalfOpen(lo, hi, s);
    forall y | y in a
      ensures lo <= y < hi
    {
      var k :| 0 <= k < |a| && a[k] == y;
      assert Sample(lo, s, k) < hi;
    }
  }

  lemma XsMember(ps: seq<Point>, v: real)
    requires v in Xs(ps)
    ensures exists p :: p in ps && p.x == v
  {
    var i :| 0 <= i < |ps| && Xs(ps)[i] == v;
    assert ps[i] in ps;
  }

  lemma YsMember(ps: seq<Point>, v: real)
    requires v in Ys(ps)
    ensures exists p :: p in ps && p.y == v
  {
    var i :| 0 <= i < |ps| && Ys(ps)[i] == v;
    assert ps[i] in ps;
  }

  /** A point of the doubly meshed hexagonal product: x from the base x axis, y from a base or a shifted y axis. */
  lemma HexagonalMeshMember(xs: seq<real>, ys: seq<real>, ysShifted: seq<real>, p: Point)
    requires p in Mesh(Ys(Mesh(ys, xs)) + Ys(Mesh(ysShifted, Ys(Mesh(ys, xs)))),
                       Xs(Mesh(ys, xs)) + Xs(Mesh(ysShifted, Ys(Mesh(ys, xs)))))
    ensures p.x in xs && (p.y in ys || p.y in ysShifted)
  {
    var first := Mesh(ys, xs);
    var second := Mesh(ysShifted, Ys(first));
    MeshMember(Ys(first) + Ys(second), Xs(first) + Xs(second), p);
    if p.x !in Ys(first) {
      YsMember(second, p.x);
      var q :| q in second && q.y == p.x;
      MeshMember(ysShifted, Ys(first), q);
      assert false;
    }
    YsMember(first, p.x);
    var q :| q in first && q.y == p.x;
    MeshMember(ys, xs, q);
    if p.y in Xs(first) {
      XsMember(first, p.y);
      var q :| q in first && q.x == p.y;
      MeshMember(ys, xs, q);
    } else {
      XsMember(second, p.y);
      var q :| q in second && q.x == p.y;
      MeshMember(ysShifted, Ys(first), q);
    }
  }

  /**
   * Every hexagonal spot has its x among the base x samples and its y among the
   * base or the shifted y samples; with a positive spacing it lies in
   * [xmin, xmax) x [ymin, ymax + spacing / 2). All weights are 1.0.
   */
  lemma HexagonalBounds(input: PatternInput)
    requires input.patternType == "hexagonal" && input.spacing > 0.0
    ensures var s := input.spacing;
            var xs := Arange(input.xyMin.x, input.xyMax.x, s);
            var ys := Arange(input.xyMin.y, input.xyMax.y, s);
            var r := SquarePattern(input);
            && r.Ok?
            && UniformWeights(r.value)
            && (forall p :: p in Positions(r.value.coords) ==>
                  p.x in xs && (p.y in ys || p.y in Shifted(ys, s / 2.0)))
            && (forall p :: p in Positions(r.value.coords) ==>
                  input.xyMin.x <= p.x < input.xyMax.x && input.xyMin.y <= p.y < input.xyMax.y + s / 2.0)
  {
    assert SquarePattern(input) == Ok(Uniform(HexagonalCoords(input.xyMin, input.xyMax, input.spacing)));
    HexagonalPoints(input.xyMin, input.xyMax, input.spacing);
  }

  /** The points the hexagonal coordinates encode, as HexagonalBounds states them. */
  lemma HexagonalPoints(lo: Point, hi: Point, s: real)
    requires s > 0.0
    ensures var xs := Arange(lo.x, hi.x, s);
            var ys := Arange(lo.y, hi.y, s);
            var coords := HexagonalCoords(lo, hi, s);
            && (forall p :: p in Positions(coords) ==>
                  p.x in xs && (p.y in ys || p.y in Shifted(ys, s / 2.0)))
            && (forall p :: p in Positions(coords) ==>
                  lo.x <= p.x < hi.x && lo.y <= p.y < hi.y + s / 2.0)
  {
    var xs := Arange(lo.x, hi.x, s);
    var ys := Arange(lo.y, hi.y, s);
    var ysShifted := Shifted(ys, s / 2.0);
    var first := Mesh(ys, xs);
    var second := Mesh(ysShifted, Ys(first));
    var xc, yc := Ys(first) + Ys(second), Xs(first) + Xs(second);
    assert Positions(HexagonalCoords(lo, hi, s)) == Mesh(xc, yc) by {
      FlatGridLayout(xc, yc);
    }
    forall p | p in Mesh(xc, yc)
      ensures p.x in xs && (p.y in ys || p.y in ysShifted)
      ensures lo.x <= p.x < hi.x && lo.y <= p.y < hi.y + s / 2.0
    {
      HexagonalMeshMember(xs, ys, ysShifted, p);
      HalfShiftedBounds(lo.x, hi.x, s, p.x);
      HalfShiftedBounds(lo.y, hi.y, s, p.y);
    }
  }

  /** A base sample lies in [lo, hi); a base or half-shifted sample lies in [lo, hi + s / 2). */
  lemma HalfShiftedBounds(lo: real, hi: real, s: real, y: real)
    requires s > 0.0
    requires y in Arange(lo, hi, s) || y in Shifted(Arange(lo, hi, s), s / 2.0)
    ensures lo <= y < hi + s / 2.0
    ensures y in Arange(lo, hi, s) ==> y < hi
  {
    HexagonalAxes(lo, hi, s);
    if y !in Arange(lo, hi, s) {
      var k :| 0 <= k < |Shifted(Arange(lo, hi, s), s / 2.0)| && Shifted(Arange(lo, hi, s), s / 2.0)[k] == y;
      assert Arange(lo, hi, s)[k] in Arange(lo, hi, s);
    }
  }

  /**
   * The number of hexagonal spots as the generator computes them: with m base
   * points and ny shifted rows, the concatenation has l = m + ny * m entries per
   * axis and _flat_grid crosses it with itself, giving l * l spots.
   */
  lemma HexagonalCount(input: PatternInput)
    requires input.patternType == "hexagonal" && input.spacing != 0.0
    ensures var s := input.spacing;
            var nx := |Arange(input.xyMin.x, input.xyMax.x, s)|;
            var ny := |Arange(input.xyMin.y, input.xyMax.y, s)|;
            var m := ny * nx;
            var l := m + ny * m;
            var r := SquarePattern(input);
            r.Ok? && |r.value.weights| == l * l && |Positions(r.value.coords)| == l * l
  {
    var s := input.spacing;
    var xs := Arange(input.xyMin.x, input.xyMax.x, s);
    var ys := Arange(input.xyMin.y, input.xyMax.y, s);
    var first := Mesh(ys, xs);
    var second := Mesh(Shifted(ys, s / 2.0), Ys(first));
    var xc, yc := Ys(first) + Ys(second), Xs(first) + Xs(second);
    FlatGridLayout(xc, yc);
  }

  /**
   * On the 2 x 2 cm square with 1 cm spacing both base axes hold two samples,
   * and the hexagonal generator returns 144 spots (the base lattice has 4).
   */
  lemma HexagonalExample()
    ensures var r := SquarePattern(PatternInput("square", "hexagonal", 1.0, Point(0.0, 0.0), Point(2.0, 2.0), 0.0, Point(0.0, 0.0), []));
            r.Ok? && |r.value.weights| == 144
  {
    var input := PatternInput("square", "hexagonal", 1.0, Point(0.0, 0.0), Point(2.0, 2.0), 0.0, Point(0.0, 0.0), []);
    assert |Arange(0.0, 2.0, 1.0)| == 2;
    HexagonalCount(input);
  }

  /**
   * On the square from (-1, -1) to (1, 1) with 1 cm spacing each axis is
   * -1, 0, 1; the nine spots run with x outer: (-1, -1), (-1, 0), (-1, 1), (0, -1), ...
   */
  lemma SquareExample(input: PatternInput)
    requires input == PatternInput("square", "square", 1.0, Point(-1.0, -1.0), Point(1.0, 1.0), 0.0, Point(0.0, 0.0), [])
    ensures var r := SquarePattern(input);
            && r.Ok? && r.value.weights == Ones(9)
            && Positions(r.value.coords) == [
                 Point(-1.0, -1.0), Point(-1.0, 0.0), Point(-1.0, 1.0),
                 Point(0.0, -1.0), Point(0.0, 0.0), Point(0.0, 1.0),
                 Point(1.0, -1.0), Point(1.0, 0.0), Point(1.0, 1.0)]
  {
    var axis := [-1.0, 0.0, 1.0];
    assert SquareAxis(-1.0, 1.0, 1.0) == axis by {
      assert |SquareAxis(-1.0, 1.0, 1.0)| == 3;
    }
    assert SquarePattern(input) == Ok(Uniform(FlatGrid(axis, axis)));
    assert Positions(FlatGrid(axis, axis)) == Mesh(axis, axis) && |FlatGrid(axis, axis)| == 18 by {
      FlatGridLayout(axis, axis);
    }
    UnitLattice();
  }



  // ---------------------------------------------------------------------
  // Closed disc
  // ---------------------------------------------------------------------

  /** (x - cx)^2 + (y - cy)^2 <= r^2: the closed disc, boundary included. */
  predicate InDisc(p: Point, c: Point, r: real)
  {
    (p.x - c.x) * (p.x - c.x) + (p.y - c.y) * (p.y - c.y) <= r * r
  }

  /** The mask generate_circular_pattern applies: the closed disc about c of radius r. */
  function DiscMask(c: Point, r: real): Point -> bool
  {
    p => InDisc(p, c, r)
  }

  /** One axis of the disc's bounding-box lattice: arange(c - r, c + r + spacing, spacing). */
  function DiscAxis(c: real, r: real, spacing: real): seq<real>
    requires spacing != 0.0
  {
    Arange(c - r, c + r + spacing, spacing)
  }

  /** The lattice points of the bounding box, x outer and y inner. */
  function DiscLattice(input: PatternInput): (r: seq<Point>)
    requires input.spacing != 0.0
    ensures var radius := input.diameter / 2.0;
            |r| == |DiscAxis(input.center.x, radius, input.spacing)| * |DiscAxis(input.center.y, radius, input.spacing)|
  {
    var r := input.diameter / 2.0;
    Mesh(DiscAxis(input.center.x, r, input.spacing), DiscAxis(input.center.y, r, input.spacing))
  }

  /** generate_circular_pattern: the lattice points inside the closed disc, weight 1.0 each. */
  function CircularPattern(input: PatternInput): (r: Result<SpotSet>)
    ensures r.Ok? ==> WellFormed(r.value) && UniformWeights(r.value)
    ensures r.Err? <==> input.spacing == 0.0
    ensures r.Err? ==> r.error == ZeroSpacing
  {
    if input.spacing == 0.0 then Err(ZeroSpacing)
    else
      var c, radius := input.center, input.diameter / 2.0;
      Ok(Uniform(Flatten(Filter(DiscMask(c, radius), DiscLattice(input)))))
  }

  /**
   * A point is a disc spot exactly when it is a point of the bounding-box
   * lattice that lies in the closed disc of radius diameter / 2.
   */
  lemma DiscSpots(input: PatternInput, p: Point)
    requires input.spacing != 0.0
    ensures var r := CircularPattern(input);
            var radius := input.diameter / 2.0;
            && r.Ok?
            && (p in Positions(r.value.coords) <==>
                  && p.x in DiscAxis(input.center.x, radius, input.spacing)
                  && p.y in DiscAxis(input.center.y, radius, input.spacing)
                  && InDisc(p, input.center, radius))
  {
    var c, radius := input.center, input.diameter / 2.0;
    var kept := Filter(DiscMask(c, radius), DiscLattice(input));
    PositionsOfFlatten(kept);
    MeshMember(DiscAxis(c.x, radius, input.spacing), DiscAxis(c.y, radius, input.spacing), p);
  }

  /**
   * A disc of diameter 2 cm about the origin with 1 cm spacing: the lattice
   * points on the boundary circle are spots, the corners of the bounding box are not.
   */
  lemma DiscExample()
    ensures var r := CircularPattern(PatternInput("circle", "square", 1.0, Point(0.0, 0.0), Point(0.0, 0.0), 2.0, Point(0.0, 0.0), []));
            && r.Ok? && r.value.weights == Ones(5)
            && Positions(r.value.coords) == [Point(-1.0, 0.0), Point(0.0, -1.0), Point(0.0, 0.0), Point(0.0, 1.0), Point(1.0, 0.0)]
  {
    var input := PatternInput("circle", "square", 1.0, Point(0.0, 0.0), Point(0.0, 0.0), 2.0, Point(0.0, 0.0), []);
    var keep := DiscMask(input.center, input.diameter / 2.0);
    assert DiscLattice(input) == Mesh([-1.0, 0.0, 1.0], [-1.0, 0.0, 1.0]) by {
      var axis := DiscAxis(0.0, 1.0, 1.0);
      assert |axis| == 3;
      assert axis == [-1.0, 0.0, 1.0];
    }
    assert Filter(keep, DiscLattice(input))
             == [Point(-1.0, 0.0), Point(0.0, -1.0), Point(0.0, 0.0), Point(0.0, 1.0), Point(1.0, 0.0)] by {
      assert !keep(Point(-1.0, -1.0)) && keep(Point(-1.0, 0.0)) && !keep(Point(-1.0, 1.0));
      assert keep(Point(0.0, -1.0)) && keep(Point(0.0, 0.0)) && keep(Point(0.0, 1.0));
      assert !keep(Point(1.0, -1.0)) && keep(Point(1.0, 0.0)) && !keep(Point(1.0, 1.0));
      CrossMask(keep);
    }
    PositionsOfFlatten(Filter(keep, DiscLattice(input)));
  }

  /** The lattice -1, 0, 1 squared, x outer, as three rows of three points. */
  lemma UnitLattice()
    ensures Mesh([-1.0, 0.0, 1.0], [-1.0, 0.0, 1.0])
              == [Point(-1.0, -1.0), Point(-1.0, 0.0), Point(-1.0, 1.0)]
                 + ([Point(0.0, -1.0), Point(0.0, 0.0), Point(0.0, 1.0)]
                 + ([Point(1.0, -1.0), Point(1.0, 0.0), Point(1.0, 1.0)] + []))
    ensures Mesh([-1.0, 0.0, 1.0], [-1.0, 0.0, 1.0])
              == [Point(-1.0, -1.0), Point(-1.0, 0.0), Point(-1.0, 1.0),
                  Point(0.0, -1.0), Point(0.0, 0.0), Point(0.0, 1.0),
                  Point(1.0, -1.0), Point(1.0, 0.0), Point(1.0, 1.0)]
  {
    var ys := [-1.0, 0.0, 1.0];
    assert Row(-1.0, ys) == [Point(-1.0, -1.0), Point(-1.0, 0.0), Point(-1.0, 1.0)];
    assert Row(0.0, ys) == [Point(0.0, -1.0), Point(0.0, 0.0), Point(0.0, 1.0)];
    assert Row(1.0, ys) == [Point(1.0, -1.0), Point(1.0, 0.0), Point(1.0, 1.0)];
    assert Mesh([1.0], ys) == Row(1.0, ys) + [];
    assert Mesh([0.0, 1.0], ys) == Row(0.0, ys) + Mesh([1.0], ys);
    assert Mesh(ys, ys) == Row(-1.0, ys) + Mesh([0.0, 1.0], ys);
  }

  /** Masking that lattice masks each of its rows. */
  lemma UnitLatticeRows(keep: Point -> bool)
    ensures Filter(keep, Mesh([-1.0, 0.0, 1.0], [-1.0, 0.0, 1.0]))
              == Filter(keep, [Point(-1.0, -1.0), Point(-1.0, 0.0), Point(-1.0, 1.0)])
                 + (Filter(keep, [Point(0.0, -1.0), Point(0.0, 0.0), Point(0.0, 1.0)])
                 + (Filter(keep, [Point(1.0, -1.0), Point(1.0, 0.0), Point(1.0, 1.0)]) + Filter(keep, [])))
  {
    var left := [Point(-1.0, -1.0), Point(-1.0, 0.0), Point(-1.0, 1.0)];
    var centre := [Point(0.0, -1.0), Point(0.0, 0.0), Point(0.0, 1.0)];
    var right := [Point(1.0, -1.0), Point(1.0, 0.0), Point(1.0, 1.0)];
    UnitLattice();
    FilterConcat(keep, left, centre + (right + []));
    FilterConcat(keep, centre, right + []);
    FilterConcat(keep, right, []);
  }

  /** A mask that drops the corners of a row of three and keeps its middle keeps only the middle. */
  lemma MiddleOfThree(keep: Point -> bool, a: Point, b: Point, c: Point)
    requires !keep(a) && keep(b) && !keep(c)
    ensures Filter(keep, [a, b, c]) == [b]
  {
    FilterThree(keep, a, b, c);
  }

  /** A mask that keeps exactly the centre and the four edge midpoints of that lattice keeps them in lattice order. */
  lemma CrossMask(keep: Point -> bool)
    requires !keep(Point(-1.0, -1.0)) && keep(Point(-1.0, 0.0)) && !keep(Point(-1.0, 1.0))
    requires keep(Point(0.0, -1.0)) && keep(Point(0.0, 0.0)) && keep(Point(0.0, 1.0))
    requires !keep(Point(1.0, -1.0)) && keep(Point(1.0, 0.0)) && !keep(Point(1.0, 1.0))
    ensures Filter(keep, Mesh([-1.0, 0.0, 1.0], [-1.0, 0.0, 1.0]))
              == [Point(-1.0, 0.0), Point(0.0, -1.0), Point(0.0, 0.0), Point(0.0, 1.0), Point(1.0, 0.0)]
  {
    var centre := [Point(0.0, -1.0), Point(0.0, 0.0), Point(0.0, 1.0)];
    assert [Point(-1.0, 0.0)] + (centre + ([Point(1.0, 0.0)] + []))
             == [Point(-1.0, 0.0), Point(0.0, -1.0), Point(0.0, 0.0), Point(0.0, 1.0), Point(1.0, 0.0)];
    assert Filter(keep, [Point(-1.0, -1.0), Point(-1.0, 0.0), Point(-1.0, 1.0)]) == [Point(-1.0, 0.0)] by {
      MiddleOfThree(keep, Point(-1.0, -1.0), Point(-1.0, 0.0), Point(-1.0, 1.0));
    }
    assert Filter(keep, centre) == centre by {
      FilterThree(keep, Point(0.0, -1.0), Point(0.0, 0.0), Point(0.0, 1.0));
    }
    assert Filter(keep, [Point(1.0, -1.0), Point(1.0, 0.0), Point(1.0, 1.0)]) == [Point(1.0, 0.0)] by {
      MiddleOfThree(keep, Point(1.0, -1.0), Point(1.0, 0.0), Point(1.0, 1.0));
    }
    assert Filter(keep, []) == [];
    UnitLatticeRows(keep);
  }

  /** With a positive spacing the disc spots keep the lattice's x-outer, y-inner order. */
  lemma DiscOrder(input: PatternInput)
    requires input.spacing > 0.0
    ensures var r := CircularPattern(input);
            r.Ok? && Increasing(Positions(r.value.coords), LexLess)
  {
    var c, radius := input.center, input.diameter / 2.0;
    ArangeIncreasing(c.x - radius, c.x + radius + input.spacing, input.spacing);
    ArangeIncreasing(c.y - radius, c.y + radius + input.spacing, input.spacing);
    MeshIncreasing(DiscAxis(c.x, radius, input.spacing), DiscAxis(c.y, radius, input.spacing));
    FilterIncreasing(DiscMask(c, radius), DiscLattice(input), LexLess);
    PositionsOfFlatten(Filter(DiscMask(c, radius), DiscLattice(input)));
  }

  lemma PositiveSquareBound(e: real, r: real)
    requires r >= 0.0 && e > r
    ensures r * r < e * e
  {
    var k := e - r;
    assert e * e == r * r + 2.0 * r * k + k * k;
    assert k * k > 0.0;
    assert r * k >= 0.0;
  }

  lemma SquareBound(d: real, r: real)
    requires r >= 0.0 && d * d <= r * r
    ensures -r <= d <= r
  {
    if d > r {
      PositiveSquareBound(d, r);
    } else if d < -r {
      PositiveSquareBound(-d, r);
    }
  }

  /** A point of the closed disc of non-negative radius r lies within r of the centre on each axis. */
  lemma DiscPointBounds(p: Point, c: Point, r: real)
    requires r >= 0.0 && InDisc(p, c, r)
    ensures c.x - r <= p.x <= c.x + r && c.y - r <= p.y <= c.y + r
  {
    var dx, dy := p.x - c.x, p.y - c.y;
    assert dx * dx >= 0.0 && dy * dy >= 0.0;
    SquareBound(dx, r);
    SquareBound(dy, r);
  }

  /** No disc spot lies outside the square [cx - r, cx + r] x [cy - r, cy + r]. */
  lemma DiscInsideBoundingBox(input: PatternInput)
    requires input.spacing != 0.0 && input.diameter >= 0.0
    ensures var r := CircularPattern(input);
            var c, radius := input.center, input.diameter / 2.0;
            && r.Ok?
            && forall p :: p in Positions(r.value.coords) ==>
                 c.x - radius <= p.x <= c.x + radius && c.y - radius <= p.y <= c.y + radius
  {
    var c, radius := input.center, input.diameter / 2.0;
    forall p | p in Positions(CircularPattern(input).value.coords)
      ensures c.x - radius <= p.x <= c.x + radius && c.y - radius <= p.y <= c.y + radius
    {
      DiscSpots(input, p);
      DiscPointBounds(p, c, radius);
    }
  }

  // ---------------------------------------------------------------------
  // Image mask
  // ---------------------------------------------------------------------

  /** A pixel of the image with its row and column. */
  datatype Candidate = Candidate(row: nat, col: nat, value: Pixel)

  /** The pixels of row `r`, left to right. */
  function RowCells(r: nat, row: seq<Pixel>): seq<Candidate>
  {
    seq(|row|, c requires 0 <= c < |row| => Candidate(r, c, row[c]))
  }

  /** Every pixel of the image in row-major order (the order in which numpy's where reports them). */
  function RowMajor(img: seq<seq<Pixel>>): seq<Candidate>
    decreases |img|
  {
    if img == [] then []
    else RowMajor(img[..|img| - 1]) + RowCells(|img| - 1, img[|img| - 1])
  }

  /** Row-major order on pixel positions. */
  predicate RowMajorLess(a: Candidate, b: Candidate)
  {
    a.row < b.row || (a.row == b.row && a.col < b.col)
  }

  /** The inverted weight of an intensity: 1 - intensity / 255. */
  function PixelWeight(p: Pixel): (w: real)
    ensures 0.0 <= w <= 1.0
  {
    1.0 - (p as real) / FullIntensity
  }

  predicate WithinThresholds(w: real)
  {
    ThresholdLower < w < ThresholdUpper
  }

  /** The first mask: non-zero pixels. */
  predicate NonZero(c: Candidate)
  {
    c.value > 0
  }

  /** The second mask: the weight lies in the open threshold interval. */
  predicate WeightKept(c: Candidate)
  {
    WithinThresholds(PixelWeight(c.value))
  }

  /** The pixels that survive both masks, taken from the image flipped upside down. */
  function KeptPixels(img: seq<seq<Pixel>>): (r: seq<Candidate>)
    ensures |r| <= |RowMajor(Reverse(img))|
    ensures forall c :: c in r <==> c in RowMajor(Reverse(img)) && NonZero(c) && WeightKept(c)
  {
    Filter(WeightKept, Filter(NonZero, RowMajor(Reverse(img))))
  }

  /** Pixel (row, col) sits at (col * spacing + xmin, row * spacing + ymin). */
  function SpotPosition(c: Candidate, xyMin: Point, spacing: real): Point
  {
    Point((c.col as real) * spacing + xyMin.x, (c.row as real) * spacing + xyMin.y)
  }

  /**
   * generate_image_pattern from the resampled pixel grid on. A zero spacing
   * fails on the division that sizes the resampled grid.
   */
  function ImagePattern(input: PatternInput): (r: Result<SpotSet>)
    ensures r.Ok? ==> WellFormed(r.value)
    ensures r.Err? <==> input.spacing == 0.0
    ensures r.Err? ==> r.error == ZeroSpacing
  {
    if input.spacing == 0.0 then Err(ZeroSpacing)
    else
      var kept := KeptPixels(input.image);
      var positions := seq(|kept|, i requires 0 <= i < |kept| => SpotPosition(kept[i], input.xyMin, input.spacing));
      var weights := seq(|kept|, i requires 0 <= i < |kept| => PixelWeight(kept[i].value));
      Ok(SpotSet(Flatten(positions), weights))
  }

  /**
   * A pixel passes both masks exactly when its intensity is 1 .. 252: the upper
   * threshold never removes a pixel the non-zero mask kept.
   */
  lemma PixelKept(p: Pixel)
    ensures (p > 0 && WithinThresholds(PixelWeight(p))) <==> 1 <= p <= 252
    ensures p > 0 ==> PixelWeight(p) < ThresholdUpper
  {
  }

  /** The weight decreases strictly as the intensity grows (the mapping is inverted). */
  lemma PixelWeightDecreasing(p: Pixel, q: Pixel)
    requires p < q
    ensures PixelWeight(q) < PixelWeight(p)
  {
  }

  lemma {:induction false} RowMajorMember(img: seq<seq<Pixel>>, c: Candidate)
    ensures c in RowMajor(img) <==> c.row < |img| && c.col < |img[c.row]| && c.value == img[c.row][c.col]
    decreases |img|
  {
    if img != [] {
      var n := |img| - 1;
      var prefix := img[..n];
      RowMajorMember(prefix, c);
      if c.row < n {
        assert prefix[c.row] == img[c.row];
      }
      if c.row == n && c.col < |img[n]| && c.value == img[n][c.col] {
        assert RowCells(n, img[n])[c.col] == c;
      }
    }
  }

  lemma {:induction false} RowMajorIncreasing(img: seq<seq<Pixel>>)
    ensures Increasing(RowMajor(img), RowMajorLess)
    decreases |img|
  {
    if img != [] {
      var n := |img| - 1;
      var before, last := RowMajor(img[..n]), RowCells(n, img[n]);
      RowMajorIncreasing(img[..n]);
      forall i, j | 0 <= i < |before| && 0 <= j < |last|
        ensures RowMajorLess(before[i], last[j])
      {
        assert before[i] in before;
        RowMajorMember(img[..n], before[i]);
      }
      IncreasingConcat(before, last, RowMajorLess);
    }
  }

  /**
   * A pixel is kept exactly when it is pixel (row, col) of the flipped image
   * (row `row` of the flipped image is row |img| - 1 - row of the original) and
   * its intensity is 1 .. 252, which is: non-zero with a weight strictly between
   * 0.01 and 1.0.
   */
  lemma ImageKept(img: seq<seq<Pixel>>, c: Candidate)
    ensures c in KeptPixels(img) <==>
      && c.row < |img|
      && c.col < |img[|img| - 1 - c.row]|
      && c.value == img[|img| - 1 - c.row][c.col]
      && c.value > 0
      && WithinThresholds(PixelWeight(c.value))
    ensures c in KeptPixels(img) ==> 1 <= c.value <= 252
  {
    RowMajorMember(Reverse(img), c);
    PixelKept(c.value);
  }

  /**
   * The 2 x 2 image with top row (0, 100) and bottom row (3, 255): after the
   * flip the bottom row is row 0; the black pixel and the white pixel are
   * dropped, the two grey pixels are kept.
   */
  lemma ImageExample()
    ensures var img: seq<seq<Pixel>> := [[0, 100], [3, 255]];
            && Candidate(0, 0, 3) in KeptPixels(img)
            && Candidate(1, 1, 100) in KeptPixels(img)
            && Candidate(0, 1, 255) !in KeptPixels(img)
            && Candidate(1, 0, 0) !in KeptPixels(img)
  {
    var img: seq<seq<Pixel>> := [[0, 100], [3, 255]];
    ImageKept(img, Candidate(0, 0, 3));
    ImageKept(img, Candidate(1, 1, 100));
    ImageKept(img, Candidate(0, 1, 255));
    ImageKept(img, Candidate(1, 0, 0));
  }

  /** The kept pixels are in row-major order of the flipped image. */
  lemma ImageOrder(img: seq<seq<Pixel>>)
    ensures Increasing(KeptPixels(img), RowMajorLess)
  {
    RowMajorIncreasing(Reverse(img));
    FilterIncreasing(NonZero, RowMajor(Reverse(img)), RowMajorLess);
    FilterIncreasing(WeightKept, Filter(NonZero, RowMajor(Reverse(img))), RowMajorLess);
  }

  /**
   * Spot i of the image pattern is kept pixel i: its position is
   * (col * spacing + xmin, row * spacing + ymin), its weight 1 - intensity / 255,
   * which lies strictly between the thresholds; coordinates and weights come from
   * the same kept pixels, two coordinates per weight.
   */
  lemma ImageSpots(input: PatternInput)
    requires input.spacing != 0.0
    ensures var r := ImagePattern(input);
            var kept := KeptPixels(input.image);
            && r.Ok?
            && |r.value.coords| == 2 * |r.value.weights|
            && |r.value.weights| == |kept|
            && forall i :: 0 <= i < |kept| ==>
                 && Positions(r.value.coords)[i] == SpotPosition(kept[i], input.xyMin, input.spacing)
                 && r.value.weights[i] == PixelWeight(kept[i].value)
                 && WithinThresholds(r.value.weights[i])
  {
    var kept := KeptPixels(input.image);
    var positions := seq(|kept|, i requires 0 <= i < |kept| => SpotPosition(kept[i], input.xyMin, input.spacing));
    PositionsOfFlatten(positions);
    forall i | 0 <= i < |kept|
      ensures WeightKept(kept[i])
    {
      assert kept[i] in kept;
    }
  }
}
