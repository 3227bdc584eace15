# dicomplan spot patterns and control-point weights, in Dafny

This project models the core of `dicomplan`, which writes RT Ion Plans for a
scanned proton beam. The core has two parts.

1. **The spot-pattern generators** (`dicomplan/spots.py`, module `Spots`, on top
   of the numpy primitives in module `Lattice`). A field description becomes a
   flat coordinate array `[x0, y0, x1, y1, ...]` in centimetres and one relative
   weight per spot. The shape tag picks one of three strategies:
   - a square or hexagonal lattice over a rectangle;
   - the lattice points of a disc's bounding box that lie in the closed disc;
   - the pixels of a grayscale image kept by an intensity mask.

   The generators are written as whole-array numpy expressions with no loops,
   so they are modelled as functions over `seq<real>`. Their properties are
   lemmas about length, order and membership.
2. **The control-point walk of `Dicom.apply_model`** (`dicomplan/dicom.py`,
   module `Dicom`). It does these steps in order:
   - rejects an odd coordinate count;
   - sets the plan's total monitor units to `nspots * spot_mu`;
   - multiplies the weights by 40 and the coordinates by 10 (cm to mm);
   - walks every control point of every ion beam, writing its index, energy,
     spot count, position map and weight vector;
   - records a running cumulative meterset weight before each point's spots
     are delivered, and writes it as the beam's final cumulative weight.

   The dataset is modelled as objects: `Plan` holds `IonBeam`s, and each
   `IonBeam` holds `IonControlPoint`s. Their attributes are updated in place by
   methods with loop invariants. Those methods are proved against the pure
   functions `PointWeights`, `Delivered` and `BeamStart`, whose properties
   (closed form, monotonicity, carry-over between beams, scaling) are lemmas.

Arithmetic is exact `real` arithmetic: numpy's float64/float32 rounding is not
modelled. Errors the source raises are `Err`/`Failed` values:
- `UnknownSpotShape` for an unknown shape tag;
- `ZeroSpacing` for a division by a zero spacing;
- `NegativeSampleCount` for a negative `linspace` count;
- `OddCoordinateCount` for an odd-length coordinate array.

Notes on the code's behaviour, all modelled as written:
- The spot-count check in `apply_model` (`dicomplan/dicom.py:45-51`) only
  rejects an odd number of coordinates. It never compares the coordinates with
  the number of weights.
- Nothing rejects a beam with no control points. Such a beam gets only its
  treatment machine name and its final cumulative weight, which is the
  running total it was entered with.
- The hexagonal mode does not give twice the square count. The second
  `meshgrid` is applied to an already meshed 2-D array, and `_flat_grid` then
  crosses the concatenation with itself. With `m = nx * ny` base points and
  `l = m + ny * m`, the result has `l * l` spots (`Spots.HexagonalCount`).
  For example, a 2 cm square with 1 cm spacing gives 144 spots
  (`Spots.HexagonalExample`). This is modelled as written.
- The cumulative weight written on a control point is the total *before* that
  point's spots. After a beam, the final cumulative weight exceeds the last
  point's value by one weight sum when the beam has an odd number of points
  (`Dicom.FinalAfterLastPoint`).
- The running total is initialised once, before the beam loop, so it carries
  from one beam to the next (`Dicom.BeamStartClosedForm`).

## Model

| member | source | states |
|---|---|---|
| `Lattice.Trunc` | dicomplan/spots.py:59-60 | `int()` of a float truncates toward zero: the result is between 0 and the argument and within 1 of it, on either side of zero |
| `Lattice.Arange` | dicomplan/spots.py:49-50 | `arange(start, stop, step)` is empty exactly when `stop` does not lie beyond `start` in the direction of the step (the same call sizes the square and disc axes) |
| `Lattice.ArangeHalfOpen` | dicomplan/spots.py:49-50 | with a positive step, `arange(start, stop, step)` holds sample `start + k*step` exactly when that sample is below `stop`, and element k is that sample |
| `Lattice.ArangeDescending` | dicomplan/spots.py:106-107 | with a negative step, `arange` holds sample k exactly when it lies above `stop` (the disc lattice with a negative spacing) |
| `Lattice.ArangeIncreasing` | dicomplan/spots.py:69-74 | with a positive step the arange samples strictly increase |
| `Lattice.Linspace` | dicomplan/spots.py:79-80 | `linspace(a, b, n)` has exactly n samples and, when there is one, the first is a |
| `Lattice.LinspaceEnds` | dicomplan/spots.py:79-80 | `linspace(a, b, n)` for n >= 2 has n samples, the first is exactly a, the last exactly b, and consecutive samples differ by (b-a)/(n-1) |
| `Lattice.Mesh` | dicomplan/spots.py:194 | the raveled `meshgrid(xs, ys, indexing='ij')` pairs has len(xs)*len(ys) points |
| `Lattice.MeshAt` | dicomplan/spots.py:194 | point `i*len(ys)+j` of the product is `(xs[i], ys[j])`: x is the outer index, y the inner one |
| `Lattice.MeshMember` | dicomplan/spots.py:194 | a point is in the product exactly when its x is one of xs and its y one of ys |
| `Lattice.MeshIncreasing` | dicomplan/spots.py:194 | strictly increasing axes give a product in strictly increasing (x, then y) order |
| `Lattice.Flatten` | dicomplan/spots.py:195 | `column_stack(...).ravel()` has two numbers per point: entries 2i and 2i+1 are point i's x and y |
| `Lattice.FlattenOfPositions` | dicomplan/spots.py:195 | an even-length flat array is exactly the flattening of the points it encodes (the flat layout loses nothing) |
| `Lattice.FlatGridLayout` | dicomplan/spots.py:184-195 | `_flat_grid(xs, ys)` returns exactly `2*len(xs)*len(ys)` numbers, which read back as the product of the two axes |
| `Lattice.FlatGridAt` | dicomplan/spots.py:184-195 | pair number `i*len(ys)+j` of `_flat_grid(xs, ys)` is `(xs[i], ys[j])` |
| `Lattice.Filter` | dicomplan/spots.py:115-116 | a boolean mask keeps exactly the elements that satisfy it and never lengthens the array |
| `Lattice.FilterConcat` | dicomplan/spots.py:115-116 | masking a concatenation gives the masked parts, concatenated |
| `Lattice.FilterIncreasing` | dicomplan/spots.py:115-118 | masking keeps the order of what it keeps |
| `Lattice.SumScaled` | dicomplan/dicom.py:61 | the sum of the weights times f is f times the sum of the weights |
| `Lattice.SumNonNegative` | dicomplan/dicom.py:86 | a sum of non-negative weights is non-negative |
| `Spots.GenerateSpotPattern` | dicomplan/spots.py:25-32 | `'square'` goes to the square generator, `'circle'` to the disc generator, `'image'` to the image generator; exactly every other tag fails with an unknown-shape error naming the tag; every successful result has two coordinates per weight |
| `Spots.Uniform` | dicomplan/spots.py:83-85 | `ones(len(coords) // 2)`: one weight of 1.0 per coordinate pair |
| `Spots.SquarePattern` | dicomplan/spots.py:35-87 | every square or hexagonal result has two coordinates per weight and every weight is 1.0; a zero spacing always fails with the zero-spacing error; a failure is never an unknown-shape error |
| `Spots.SquareAxisSamples` | dicomplan/spots.py:66-74 | with spacing > 0 the axis samples are `min + k*spacing` for exactly the k with `min + k*spacing < max + spacing/2`; they strictly increase, the first is `min` and the last lies within half a step of `max` |
| `Spots.SquareLattice` | dicomplan/spots.py:69-87 | square mode with spacing > 0 yields the product of the two axes in x-outer, y-inner order, in strictly increasing order, one weight 1.0 per spot |
| `Spots.SquareExample` | dicomplan/spots.py:66-87 | the square from (-1,-1) to (1,1) with spacing 1 gives exactly the 9 spots (-1,-1), (-1,0), (-1,1), (0,-1), (0,0), (0,1), (1,-1), (1,0), (1,1), in that order, each with weight 1.0 |
| `Spots.LinspaceGrid` | dicomplan/spots.py:58-80 | with a negative spacing the fallback either fails with a negative sample count or returns whole (x, y) pairs |
| `Spots.LinspaceFallback` | dicomplan/spots.py:58-80 | with a negative spacing the generator fails exactly when a truncated sample count is negative, and otherwise crosses the two `linspace` axes |
| `Spots.HexagonalAxes` | dicomplan/spots.py:49-51 | the hexagonal base samples are exactly the lattice samples in `[min, max)`, and every shifted y sample is the matching base y sample plus `spacing/2` |
| `Spots.HexagonalCoords` | dicomplan/spots.py:49-55 | the hexagonal flat coordinate array always holds whole (x, y) pairs |
| `Spots.HexagonalMeshMember` | dicomplan/spots.py:52-55 | a point of the doubly meshed hexagonal product has its x among the base x samples and its y among the base or the shifted y samples |
| `Spots.HexagonalBounds` | dicomplan/spots.py:46-55 | every hexagonal spot has x in `[xmin, xmax)` and y in `[ymin, ymax + spacing/2)`, taken from the base or the shifted samples; every weight is 1.0 |
| `Spots.HexagonalPoints` | dicomplan/spots.py:49-55 | every point the hexagonal coordinates encode has x among the base x samples in `[xmin, xmax)` and y among the base or shifted y samples in `[ymin, ymax + spacing/2)` |
| `Spots.HexagonalCount` | dicomplan/spots.py:49-55 | the hexagonal generator returns `l*l` spots, with `l = m + ny*m` and `m = nx*ny` |
| `Spots.HexagonalExample` | dicomplan/spots.py:46-55 | the 2 cm square with 1 cm spacing gives 144 hexagonal spots |
| `Spots.DiscLattice` | dicomplan/spots.py:105-108 | the bounding-box lattice has one point for every pair of an x sample and a y sample |
| `Spots.CircularPattern` | dicomplan/spots.py:90-122 | the disc result has two coordinates per weight and every weight is 1.0; it fails exactly when the spacing is zero, and then with the zero-spacing error |
| `Spots.DiscSpots` | dicomplan/spots.py:95-118 | a point is a disc spot exactly when it is a bounding-box lattice point with `(x-cx)^2 + (y-cy)^2 <= (diameter/2)^2`, so boundary points are included |
| `Spots.DiscOrder` | dicomplan/spots.py:106-118 | with a positive spacing the kept disc spots stay in x-outer, y-inner lattice order |
| `Spots.DiscPointBounds` | dicomplan/spots.py:113 | a point of the closed disc lies within r of the centre on each axis |
| `Spots.DiscInsideBoundingBox` | dicomplan/spots.py:99-118 | no disc spot lies outside the square `[cx-r, cx+r] x [cy-r, cy+r]` |
| `Spots.DiscExample` | dicomplan/spots.py:95-118 | a disc of diameter 2 about the origin with spacing 1 gives exactly the spots (-1,0), (0,-1), (0,0), (0,1), (1,0), in that order, each with weight 1.0: the boundary points are kept, the four corners dropped |
| `Spots.PixelWeight` | dicomplan/spots.py:163-167 | the inverted weight `1 - intensity/255` lies in [0, 1] |
| `Spots.PixelKept` | dicomplan/spots.py:155-174 | a pixel passes both masks exactly when its intensity is 1..252; a non-zero pixel's weight is always below the upper threshold 1.0 |
| `Spots.PixelWeightDecreasing` | dicomplan/spots.py:163-167 | a brighter pixel has a strictly smaller weight |
| `Spots.RowMajorMember` | dicomplan/spots.py:156 | `np.where` over the grid reports exactly the cells (row, col, value) of the grid |
| `Spots.RowMajorIncreasing` | dicomplan/spots.py:156 | `np.where` reports cells in row-major order |
| `Spots.KeptPixels` | dicomplan/spots.py:152-177 | the kept pixels are exactly the cells of the flipped grid that are non-zero and whose weight lies inside the thresholds, and there are never more of them than cells |
| `Spots.ImageKept` | dicomplan/spots.py:152-177 | a pixel at (row, col) of the row-flipped image is kept exactly when its intensity is > 0 and its weight lies strictly between 0.01 and 1.0 |
| `Spots.ImageOrder` | dicomplan/spots.py:152-177 | the kept pixels run in row-major order of the flipped image |
| `Spots.ImageSpots` | dicomplan/spots.py:156-179 | spot i is kept pixel i at `(col*spacing + xmin, row*spacing + ymin)` with weight `1 - intensity/255` strictly inside the thresholds; coordinates and weights come from the same mask, two coordinates per weight |
| `Spots.ImagePattern` | dicomplan/spots.py:125-181 | the image result has two coordinates per weight; it fails exactly when the spacing is zero, and then with the zero-spacing error |
| `Spots.ImageExample` | dicomplan/spots.py:152-177 | in the 2x2 image [[0,100],[3,255]] the two grey pixels are kept at their flipped rows, the black and white pixels are dropped |
| `Dicom.PointWeights` | dicomplan/dicom.py:83-88 | an even-indexed control point carries the scaled weight vector; an odd-indexed one carries `nspots` zeros |
| `Dicom.DeliveredTimes` | dicomplan/dicom.py:77-86 | the running total before point k is the weight sum added once for every even index below k |
| `Dicom.DeliveredClosedForm` | dicomplan/dicom.py:77-86 | the running total before point k is `((k+1) / 2) * sum(weights)`, so it is 0 at point 0 |
| `Dicom.DeliveredMonotone` | dicomplan/dicom.py:77-86 | with non-negative weights the running total never decreases along a beam |
| `Dicom.FinalAfterLastPoint` | dicomplan/dicom.py:77-89 | after a beam of n points the total equals the last point's recorded total when n is even, and is one weight sum more when n is odd |
| `Dicom.BeamStartTimes` | dicomplan/dicom.py:58-89 | the running total a beam starts with is the weight sum once per even-indexed point of all earlier beams |
| `Dicom.BeamStartClosedForm` | dicomplan/dicom.py:58-89 | the total is carried across beams: beam b starts at (number of even-indexed points in beams before b) times the weight sum |
| `Dicom.BeamStartMonotone` | dicomplan/dicom.py:58-89 | with non-negative weights a later beam never starts below an earlier one |
| `Dicom.DeliveredScaled` | dicomplan/dicom.py:61-86 | multiplying the weights by 40 multiplies every running total by 40 |
| `Dicom.MetersetExample` | dicomplan/dicom.py:58-89 | four unit spots and two control points: point 0 records 0 and carries 40 per spot, point 1 records 160 and carries zeros, the beam ends at 160 |
| `Dicom.IonControlPoint.constructor` | dicomplan/sequences/ion_control_point.py:10-40 | the template control point's index, energy, gantry angle, cumulative weight and spot data |
| `Dicom.IonBeam.constructor` | dicomplan/sequences/ion_beam.py:13-37 | a template beam (machine TR4, final cumulative weight 1.0) with n distinct control points, each holding the template values (index 0, energy 100.0, gantry angle 0.0, cumulative weight 0.0, one spot at (0, 0) with weight 16.0) |
| `Dicom.Plan.constructor` | dicomplan/dicom.py:168-173 | a plan whose beam b has `counts[b]` control points, no control point shared between positions, every beam and control point holding the template values |
| `Dicom.IonControlPoint.Write` | dicomplan/dicom.py:71-88 | control point k gets index k, the energy, the running total before its spots, the spot count and the full position map; it carries the weights when k is even and zeros when k is odd, and only then does the total grow, by the weight sum; only point 0 gets the gantry angle |
| `Dicom.IonBeam.Apply` | dicomplan/dicom.py:68-89 | every control point k gets index k, the energy, the spot count, the full position map, its weight vector and the running total before its spots; point 0 alone gets the gantry angle; the beam's final weight and the returned total are the running total after the last point |
| `Dicom.Plan.ApplyBeam` | dicomplan/dicom.py:65-89 | with beams 0..b-1 already applied, beam b is applied with the total of all earlier beams and the earlier beams stay as they were; no control point after a beam's first changes its gantry angle |
| `Dicom.Plan.ApplyBeams` | dicomplan/dicom.py:58-89 | the beam loop applies every beam in order with the running total carried across beams; control points after the first keep their gantry angle |
| `Dicom.Plan.ApplySpotSet` | dicomplan/dicom.py:45-89 | an odd coordinate count fails and leaves the plan unchanged; otherwise total MU is `nspots * spot_mu`, independent of the weights, and every beam is written with positions times 10 and weights times 40 |
| `Dicom.Plan.WrittenSpotData` | dicomplan/dicom.py:71-88 | once a spot set with two coordinates per weight is written, every control point of every beam carries one weight and two coordinates per spot |
| `Dicom.Plan.ApplyModel` | dicomplan/dicom.py:43-89 | a generator error is passed on and nothing is written; otherwise the generated spot set is written, and every control point carries one weight and two coordinates per spot; no control point after a beam's first changes its gantry angle |

## Left out

- Image loading, grayscale conversion and bilinear resizing (`dicomplan/spots.py:129-151`) are calls into PIL. The image pattern takes the resized grid as an input `seq<seq<Pixel>>`.
- `Spots.ImagePattern`: PIL refuses to resize to a target size below one pixel, for example when `round(width / spacing)` is 0 because `xmax == xmin` or the spacing is more than twice the width. The source then raises; the model, which starts from the resized grid, returns `Ok` for the grid it is given.
- Floating-point behaviour of numpy `arange`, `linspace`, `round` and float32 weights is not modelled: samples are exact reals `start + k * step`.
- A zero spacing makes Python raise `ZeroDivisionError` (or numpy refuse a zero `arange` step). The model returns `ZeroSpacing` for it.
- `Dicom.Plan.ApplySpotSet`: the monitor units are written to one field, `beamMeterset`, standing for `FractionGroupSequence[0].ReferencedBeamSequence[0].BeamMeterset`; the rest of the fraction group is not modelled.
- The beam and control-point lists are `const` sequences of objects. `apply_model` never adds or removes items, so resizing them is not modelled.
- The patient/operator/label attributes, the date and time stamps (`dicomplan/dicom.py:32-41`) and all logging are not modelled. The clock is I/O.
- Static tag population, private tags, XML blobs and file writing (`dicomplan/dicom.py:92-300`) are mechanical pydicom data entry and I/O.
- `dicomplan/spotpattern.py` is a superseded duplicate of the generators that the pipeline does not import.
- `dicomplan/checksum.py` (XML parsing, serialisation and MD5 hashing), `dicomplan/config_parser.py`, `dicomplan/main.py` and `dicomplan/model.py` are library wrappers, argument parsing and an attribute bag. The fixed-data builders in `dicomplan/sequences/` are modelled only through the template values the constructors set.
- `apply_model` never compares the coordinate count with the weight count and never rejects a beam with no control points; the model does neither.
