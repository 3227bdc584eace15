/**
 * The part of the RT Ion Plan writer that turns a spot set into control-point
 * data: the spot-count check, the plan's total monitor units, the weight and
 * coordinate scaling, and the walk over every ion beam's control points with a
 * running cumulative meterset weight.
 *
 * The DICOM dataset is a `Plan` object holding its ion beams, each holding its
 * control points. Only the attributes written by the walk are modelled. The
 * beam and control-point lists themselves are never changed, only the items'
 * attributes, so they are `const` sequences of objects.
 */
module Dicom {
  import opened Lattice
  import Spots

  /** The ad-hoc factor every weight is multiplied by before it is written. */
  const WeightScale: real := 40.0

  /** Centimetres to millimetres. */
  const CmToMm: real := 10.0

  /** The plan-input attributes the walk reads, besides the spot pattern. */
  datatype FieldSettings = FieldSettings(
    spotMu: real,
    spotEnergy: real,
    gantryAngle: real,
    treatmentMachine: string)

  datatype ApplyError =
    | PatternError(cause: Spots.SpotError)
    | OddCoordinateCount(length: nat)

  datatype Status = Applied | Failed(error: ApplyError)

  // ---------------------------------------------------------------------------
  // The cumulative meterset weight, as a function of the inputs
  // ---------------------------------------------------------------------------

  /** The weight vector control point k carries: the weights at an even index, nspots zeros at an odd one. */
  function PointWeights(weights: seq<real>, nspots: nat, k: nat): (w: seq<real>)
    ensures k % 2 == 0 ==> w == weights
    ensures k % 2 == 1 ==> |w| == nspots && forall i :: 0 <= i < |w| ==> w[i] == 0.0
  {
    if k % 2 == 0 then weights else Zeros(nspots)
  }

  /** No weight is negative. */
  predicate NonNegative(weights: seq<real>)
  {
    forall i :: 0 <= i < |weights| ==> weights[i] >= 0.0
  }

  /** The total weight carried by control points 0 .. k-1 of one beam. */
  function Delivered(weights: seq<real>, nspots: nat, k: nat): real
  {
    if k == 0 then 0.0 else Delivered(weights, nspots, k - 1) + Sum(PointWeights(weights, nspots, k - 1))
  }

  /** n copies of w added together. */
  function Times(n: nat, w: real): real
  {
    if n == 0 then 0.0 else Times(n - 1, w) + w
  }

  lemma {:induction false} TimesIsProduct(n: nat, w: real)
    ensures Times(n, w) == n as real * w
  {
    if n > 0 {
      TimesIsProduct(n - 1, w);
      assert n as real * w == (n - 1) as real * w + w;
    }
  }

  lemma {:induction false} TimesAdd(m: nat, n: nat, w: real)
    ensures Times(m + n, w) == Times(m, w) + Times(n, w)
  {
    if n > 0 {
      TimesAdd(m, n - 1, w);
    }
  }

  /** Only the even-indexed points contribute, each the whole weight sum. */
  lemma {:induction false} DeliveredTimes(weights: seq<real>, nspots: nat, k: nat)
    ensures Delivered(weights, nspots, k) == Times((k + 1) / 2, Sum(weights))
  {
    if k > 0 {
      DeliveredTimes(weights, nspots, k - 1);
      if (k - 1) % 2 == 1 {
        SumZeros(nspots);
        assert (k + 1) / 2 == k / 2;
      } else {
        assert (k + 1) / 2 == k / 2 + 1;
      }
    }
  }

  /** The running total before point k is the number of even indices below k times the weight sum. */
  lemma DeliveredClosedForm(weights: seq<real>, nspots: nat, k: nat)
    ensures Delivered(weights, nspots, k) == ((k + 1) / 2) as real * Sum(weights)
  {
    var n := (k + 1) / 2;
    assert Delivered(weights, nspots, k) == Times(n, Sum(weights)) by {
      DeliveredTimes(weights, nspots, k);
    }
    TimesIsProduct(n, Sum(weights));
  }

  /** With non-negative weights the running total never decreases along a beam. */
  lemma {:induction false} DeliveredMonotone(weights: seq<real>, nspots: nat, j: nat, k: nat)
    requires NonNegative(weights)
    requires j <= k
    ensures Delivered(weights, nspots, j) <= Delivered(weights, nspots, k)
  {
    if j < k {
      DeliveredMonotone(weights, nspots, j, k - 1);
      if (k - 1) % 2 == 0 {
        SumNonNegative(weights);
      } else {
        SumZeros(nspots);
      }
    }
  }

  /**
   * After the last point of a beam of n points the total equals the total
   * recorded at that last point when n is even, and exceeds it by one weight
   * sum when n is odd.
   */
  lemma FinalAfterLastPoint(weights: seq<real>, nspots: nat, n: nat)
    requires n > 0
    ensures n % 2 == 0 ==> Delivered(weights, nspots, n) == Delivered(weights, nspots, n - 1)
    ensures n % 2 == 1 ==> Delivered(weights, nspots, n) == Delivered(weights, nspots, n - 1) + Sum(weights)
  {
    SumZeros(nspots);
  }

  /** The running total a beam is entered with: what all earlier beams delivered. */
  function BeamStart(weights: seq<real>, nspots: nat, counts: seq<nat>, b: nat): real
    requires b <= |counts|
  {
    if b == 0 then 0.0 else BeamStart(weights, nspots, counts, b - 1) + Delivered(weights, nspots, counts[b - 1])
  }

  /** The number of even indices below n, summed over beams 0 .. b-1. */
  function EvenPoints(counts: seq<nat>, b: nat): nat
    requires b <= |counts|
  {
    if b == 0 then 0 else EvenPoints(counts, b - 1) + (counts[b - 1] + 1) / 2
  }

  lemma {:induction false} BeamStartTimes(weights: seq<real>, nspots: nat, counts: seq<nat>, b: nat)
    requires b <= |counts|
    ensures BeamStart(weights, nspots, counts, b) == Times(EvenPoints(counts, b), Sum(weights))
  {
    if b > 0 {
      BeamStartTimes(weights, nspots, counts, b - 1);
      DeliveredTimes(weights, nspots, counts[b - 1]);
      TimesAdd(EvenPoints(counts, b - 1), (counts[b - 1] + 1) / 2, Sum(weights));
    }
  }

  /** The running total is carried across beams: beam b starts at its earlier beams' even points times the weight sum. */
  lemma BeamStartClosedForm(weights: seq<real>, nspots: nat, counts: seq<nat>, b: nat)
    requires b <= |counts|
    ensures BeamStart(weights, nspots, counts, b) == EvenPoints(counts, b) as real * Sum(weights)
  {
    var n := EvenPoints(counts, b);
    assert BeamStart(weights, nspots, counts, b) == Times(n, Sum(weights)) by {
      BeamStartTimes(weights, nspots, counts, b);
    }
    TimesIsProduct(n, Sum(weights));
  }

  /** With non-negative weights a later beam never starts below an earlier one. */
  lemma {:induction false} BeamStartMonotone(weights: seq<real>, nspots: nat, counts: seq<nat>, a: nat, b: nat)
    requires NonNegative(weights)
    requires a <= b <= |counts|
    ensures BeamStart(weights, nspots, counts, a) <= BeamStart(weights, nspots, counts, b)
  {
    if a < b {
      BeamStartMonotone(weights, nspots, counts, a, b - 1);
      DeliveredMonotone(weights, nspots, 0, counts[b - 1]);
    }
  }

  /** Multiplying the weights by 40 multiplies every running total by 40. */
  lemma {:induction false} DeliveredScaled(weights: seq<real>, nspots: nat, k: nat)
    ensures Delivered(Scaled(weights, WeightScale), nspots, k) == WeightScale * Delivered(weights, nspots, k)
  {
    if k > 0 {
      DeliveredScaled(weights, nspots, k - 1);
      if (k - 1) % 2 == 0 {
        SumScaled(weights, WeightScale);
      } else {
        SumZeros(nspots);
      }
    }
  }

  /**
   * Four unit-weight spots and one beam of two control points: point 0 records
   * 0 and carries 40 per spot, point 1 records 160 and carries zeros, and the
   * beam finishes at 160.
   */
  lemma MetersetExample()
    ensures PointWeights(Scaled(Ones(4), WeightScale), 4, 0) == [40.0, 40.0, 40.0, 40.0]
    ensures PointWeights(Scaled(Ones(4), WeightScale), 4, 1) == [0.0, 0.0, 0.0, 0.0]
    ensures Delivered(Scaled(Ones(4), WeightScale), 4, 0) == 0.0
    ensures Delivered(Scaled(Ones(4), WeightScale), 4, 1) == 160.0
    ensures Delivered(Scaled(Ones(4), WeightScale), 4, 2) == 160.0
  {
    var w := Scaled(Ones(4), WeightScale);
    assert w == [40.0, 40.0, 40.0, 40.0];
    assert Zeros(4) == [0.0, 0.0, 0.0, 0.0];
    SumScaled(Ones(4), WeightScale);
    SumOnes(4);
    DeliveredClosedForm(w, 4, 1);
    DeliveredClosedForm(w, 4, 2);
  }

  // ---------------------------------------------------------------------------
  // The dataset
  // ---------------------------------------------------------------------------

  /** One item of a beam's IonControlPointSequence. */
  class IonControlPoint {
    var controlPointIndex: int
    var nominalBeamEnergy: real
    var gantryAngle: real
    var cumulativeMetersetWeight: real
    var numberOfScanSpotPositions: int
    var scanSpotPositionMap: seq<real>
    var scanSpotMetersetWeights: seq<real>

    /** The attribute values of the item the plan template builds. */
    ghost predicate Template()
      reads this
    {
      && controlPointIndex == 0 && nominalBeamEnergy == 100.0 && gantryAngle == 0.0
      && cumulativeMetersetWeight == 0.0 && numberOfScanSpotPositions == 1
      && scanSpotPositionMap == [0.0, 0.0] && scanSpotMetersetWeights == [16.0]
    }

    /** The item as the plan template builds it. */
    constructor ()
      ensures Template()
    {
      controlPointIndex := 0;
      nominalBeamEnergy := 100.0;
      gantryAngle := 0.0;
      cumulativeMetersetWeight := 0.0;
      numberOfScanSpotPositions := 1;
      scanSpotPositionMap := [0.0, 0.0];
      scanSpotMetersetWeights := [16.0];
    }

    /**
     * The attributes the walk gives control point k of a beam entered with
     * running total `start`: its index, the energy, the running total before
     * its spots, the spot count, the whole position map and its weight vector.
     */
    ghost predicate Written(k: nat, energy: real, nspots: nat, positions: seq<real>, weights: seq<real>, start: real)
      reads this
    {
      && controlPointIndex == k
      && nominalBeamEnergy == energy
      && cumulativeMetersetWeight == start + Delivered(weights, nspots, k)
      && numberOfScanSpotPositions == nspots
      && scanSpotPositionMap == positions
      && scanSpotMetersetWeights == PointWeights(weights, nspots, k)
    }

    /**
     * One pass of the inner loop: control point k of a beam entered with
     * running total `start`, reached with running total `cum`.
     */
    method Write(k: nat, settings: FieldSettings, nspots: nat, positions: seq<real>, weights: seq<real>, start: real, cum: real)
      returns (next: real)
      requires cum == start + Delivered(weights, nspots, k)
      modifies this
      ensures Written(k, settings.spotEnergy, nspots, positions, weights, start)
      ensures next == start + Delivered(weights, nspots, k + 1)
      ensures gantryAngle == if k == 0 then settings.gantryAngle else old(gantryAngle)
    {
      controlPointIndex := k;
      nominalBeamEnergy := settings.spotEnergy;
      if k == 0 {
        gantryAngle := settings.gantryAngle;
      }
      cumulativeMetersetWeight := cum;
      numberOfScanSpotPositions := nspots;
      scanSpotPositionMap := positions;
      if controlPointIndex % 2 == 0 {
        scanSpotMetersetWeights := weights;
        next := cum + Sum(weights);
      } else {
        scanSpotMetersetWeights := Zeros(nspots);
        next := cum;
        SumZeros(nspots);
      }
    }
  }

  /** A control point carries one weight per spot and two coordinates per spot. */
  ghost predicate SpotDataConsistent(cp: IonControlPoint)
    reads cp
  {
    && |cp.scanSpotMetersetWeights| == cp.numberOfScanSpotPositions
    && |cp.scanSpotPositionMap| == 2 * cp.numberOfScanSpotPositions
  }

  /** The number of control points of each beam of a sequence, in order. */
  function CountsOf(beams: seq<IonBeam>): (c: seq<nat>)
    ensures |c| == |beams|
    ensures forall b :: 0 <= b < |beams| ==> c[b] == |beams[b].controlPoints|
  {
    if beams == [] then [] else CountsOf(beams[..|beams| - 1]) + [|beams[|beams| - 1].controlPoints|]
  }

  /** One item of the plan's IonBeamSequence. */
  class IonBeam {
    var treatmentMachineName: string
    var finalCumulativeMetersetWeight: real
    const controlPoints: seq<IonControlPoint>

    /** No two positions of the sequence hold the same item. */
    ghost predicate Valid()
    {
      forall i, j :: 0 <= i < j < |controlPoints| ==> controlPoints[i] != controlPoints[j]
    }

    ghost function Points(): set<IonControlPoint>
    {
      set cp | cp in controlPoints
    }

    /** The attribute values of the beam the plan template builds: machine TR4, final weight 1.0, template control points. */
    ghost predicate Template()
      reads this, controlPoints
    {
      && treatmentMachineName == "TR4" && finalCumulativeMetersetWeight == 1.0
      && forall k :: 0 <= k < |controlPoints| ==> controlPoints[k].Template()
    }

    /** A beam as the plan template builds it, with n template control points. */
    constructor (n: nat)
      ensures Valid() && |controlPoints| == n && fresh(Points())
      ensures Template()
    {
      var cps: seq<IonControlPoint> := [];
      while |cps| < n
        invariant |cps| <= n
        invariant forall i :: 0 <= i < |cps| ==> fresh(cps[i]) && cps[i].Template()
        invariant forall i, j :: 0 <= i < j < |cps| ==> cps[i] != cps[j]
      {
        var cp := new IonControlPoint();
        cps := cps + [cp];
      }
      controlPoints := cps;
      treatmentMachineName := "TR4";
      finalCumulativeMetersetWeight := 1.0;
    }

    /** What the walk leaves in this beam when it enters it with running total `start`. */
    ghost predicate Applied(settings: FieldSettings, nspots: nat, positions: seq<real>, weights: seq<real>, start: real)
      reads this, controlPoints
    {
      && treatmentMachineName == settings.treatmentMachine
      && finalCumulativeMetersetWeight == start + Delivered(weights, nspots, |controlPoints|)
      && (|controlPoints| > 0 ==> controlPoints[0].gantryAngle == settings.gantryAngle)
      && forall k :: 0 <= k < |controlPoints| ==>
           controlPoints[k].Written(k, settings.spotEnergy, nspots, positions, weights, start)
    }

    /** The inner loop of the walk: every control point of this beam, in order. */
    method Apply(settings: FieldSettings, nspots: nat, positions: seq<real>, weights: seq<real>, start: real)
      returns (cum: real)
      requires Valid()
      modifies this, controlPoints
      ensures Applied(settings, nspots, positions, weights, start)
      ensures cum == start + Delivered(weights, nspots, |controlPoints|)
      ensures forall k :: 0 < k < |controlPoints| ==> controlPoints[k].gantryAngle == old(controlPoints[k].gantryAngle)
    {
      treatmentMachineName := settings.treatmentMachine;
      cum := start;
      var k := 0;
      while k < |controlPoints|
        invariant 0 <= k <= |controlPoints|
        invariant treatmentMachineName == settings.treatmentMachine
        invariant cum == start + Delivered(weights, nspots, k)
        invariant k > 0 ==> controlPoints[0].gantryAngle == settings.gantryAngle
        invariant forall j :: 0 < j < |controlPoints| ==> controlPoints[j].gantryAngle == old(controlPoints[j].gantryAngle)
        invariant forall j :: 0 <= j < k ==>
                    controlPoints[j].Written(j, settings.spotEnergy, nspots, positions, weights, start)
      {
        cum := controlPoints[k].Write(k, settings, nspots, positions, weights, start, cum);
        k := k + 1;
      }
      finalCumulativeMetersetWeight := cum;
    }
  }

  /** The RT Ion Plan dataset, reduced to what the walk touches. */
  class Plan {
    /** BeamMeterset of the first referenced beam of the first fraction group. */
    var beamMeterset: real
    const ionBeams: seq<IonBeam>

    /** The control points of all beams. */
    ghost const points: set<IonControlPoint>

    /** Distinct beams, no control point at two positions of the plan, all of them in `points`. */
    ghost predicate Valid()
    {
      && (forall i, j :: 0 <= i < j < |ionBeams| ==> ionBeams[i] != ionBeams[j])
      && (forall i, p, j, q ::
            0 <= i < |ionBeams| && 0 <= p < |ionBeams[i].controlPoints| &&
            0 <= j < |ionBeams| && 0 <= q < |ionBeams[j].controlPoints| &&
            ionBeams[i].controlPoints[p] == ionBeams[j].controlPoints[q]
            ==> i == j && p == q)
      && (forall i, p :: 0 <= i < |ionBeams| && 0 <= p < |ionBeams[i].controlPoints| ==>
            ionBeams[i].controlPoints[p] in points)
    }

    /** The number of control points of each beam, in beam order. */
    function ControlPointCounts(): (c: seq<nat>)
      ensures |c| == |ionBeams|
      ensures forall b :: 0 <= b < |ionBeams| ==> c[b] == |ionBeams[b].controlPoints|
    {
      CountsOf(ionBeams)
    }

    /** A plan whose beam b has counts[b] template control points; no total monitor units yet. */
    constructor (counts: seq<nat>)
      ensures Valid() && ControlPointCounts() == counts && fresh(points)
      ensures forall b :: 0 <= b < |ionBeams| ==> fresh(ionBeams[b])
      ensures forall b :: 0 <= b < |ionBeams| ==> ionBeams[b].Template()
    {
      var beams: seq<IonBeam> := [];
      ghost var pts: set<IonControlPoint> := {};
      while |beams| < |counts|
        invariant |beams| <= |counts| && fresh(pts)
        invariant forall i :: 0 <= i < |beams| ==> fresh(beams[i]) && |beams[i].controlPoints| == counts[i]
        invariant forall i :: 0 <= i < |beams| ==> beams[i].Template()
        invariant forall i, j :: 0 <= i < j < |beams| ==> beams[i] != beams[j]
        invariant forall i, p, j, q ::
                    0 <= i < |beams| && 0 <= p < |beams[i].controlPoints| &&
                    0 <= j < |beams| && 0 <= q < |beams[j].controlPoints| &&
                    beams[i].controlPoints[p] == beams[j].controlPoints[q]
                    ==> i == j && p == q
        invariant forall i, p :: 0 <= i < |beams| && 0 <= p < |beams[i].controlPoints| ==> beams[i].controlPoints[p] in pts
      {
        var b := new IonBeam(counts[|beams|]);
        assert forall p :: 0 <= p < |b.controlPoints| ==> b.controlPoints[p] in b.Points();
        beams := beams + [b];
        pts := pts + b.Points();
      }
      ionBeams := beams;
      points := pts;
      beamMeterset := 0.0;
    }

    /**
     * Beam b as the walk leaves it: applied with the running total that all
     * earlier beams delivered.
     */
    ghost predicate BeamApplied(b: nat, settings: FieldSettings, nspots: nat, positions: seq<real>, weights: seq<real>)
      requires b < |ionBeams|
      reads ionBeams[b], ionBeams[b].controlPoints
    {
      ionBeams[b].Applied(settings, nspots, positions, weights, BeamStart(weights, nspots, ControlPointCounts(), b))
    }

    /**
     * What the walk leaves in the plan for a spot set with an even number of
     * coordinates: the total monitor units, and every beam applied with the
     * positions in millimetres and the weights times 40.
     */
    ghost predicate SpotSetWritten(coords: seq<real>, weights: seq<real>, settings: FieldSettings)
      requires Valid()
      reads this, ionBeams, points
    {
      && beamMeterset == (|coords| / 2) as real * settings.spotMu
      && AppliedBefore(|ionBeams|, settings, |coords| / 2, Scaled(coords, CmToMm), Scaled(weights, WeightScale))
    }

    /** Beams 0 .. b-1 as the walk leaves them. */
    ghost predicate AppliedBefore(b: nat, settings: FieldSettings, nspots: nat, positions: seq<real>, weights: seq<real>)
      requires Valid() && b <= |ionBeams|
      reads ionBeams, points
    {
      forall i :: 0 <= i < b ==> BeamApplied(i, settings, nspots, positions, weights)
    }

    /** One pass of the outer loop: beam b entered with running total `start`; no other beam is touched. */
    method ApplyBeam(b: nat, settings: FieldSettings, nspots: nat, positions: seq<real>, weights: seq<real>, start: real)
      returns (cum: real)
      requires Valid() && b < |ionBeams|
      requires start == BeamStart(weights, nspots, ControlPointCounts(), b)
      requires AppliedBefore(b, settings, nspots, positions, weights)
      modifies ionBeams[b], ionBeams[b].controlPoints
      ensures AppliedBefore(b + 1, settings, nspots, positions, weights)
      ensures cum == BeamStart(weights, nspots, ControlPointCounts(), b + 1)
      ensures forall i, k :: 0 <= i < |ionBeams| && 0 < k < |ionBeams[i].controlPoints| ==>
                ionBeams[i].controlPoints[k].gantryAngle == old(ionBeams[i].controlPoints[k].gantryAngle)
    {
      var beam := ionBeams[b];
      cum := beam.Apply(settings, nspots, positions, weights, start);
      forall i, k | 0 <= i < |ionBeams| && i != b && 0 <= k < |ionBeams[i].controlPoints|
        ensures unchanged(ionBeams[i].controlPoints[k])
      {
        assert ionBeams[i].controlPoints[k] !in beam.controlPoints;
      }
    }

    /** The beam loop: every beam in order, the running total carried from one beam to the next. */
    method ApplyBeams(settings: FieldSettings, nspots: nat, positions: seq<real>, weights: seq<real>)
      returns (cum: real)
      requires Valid()
      modifies ionBeams, points
      ensures cum == BeamStart(weights, nspots, ControlPointCounts(), |ionBeams|)
      ensures AppliedBefore(|ionBeams|, settings, nspots, positions, weights)
      ensures forall b, k :: 0 <= b < |ionBeams| && 0 < k < |ionBeams[b].controlPoints| ==>
                ionBeams[b].controlPoints[k].gantryAngle == old(ionBeams[b].controlPoints[k].gantryAngle)
    {
      cum := 0.0;
      var b := 0;
      while b < |ionBeams|
        invariant 0 <= b <= |ionBeams|
        invariant cum == BeamStart(weights, nspots, ControlPointCounts(), b)
        invariant AppliedBefore(b, settings, nspots, positions, weights)
        invariant forall i, k :: 0 <= i < |ionBeams| && 0 < k < |ionBeams[i].controlPoints| ==>
                    ionBeams[i].controlPoints[k].gantryAngle == old(ionBeams[i].controlPoints[k].gantryAngle)
      {
        cum := ApplyBeam(b, settings, nspots, positions, weights, cum);
        b := b + 1;
      }
    }

    /** Lines 45-90 of apply_model: check the spot count, then write the spot set into every beam. */
    method ApplySpotSet(coords: seq<real>, weights: seq<real>, settings: FieldSettings) returns (status: Status)
      requires Valid()
      modifies this, ionBeams, points
      ensures status.Failed? <==> |coords| % 2 == 1
      ensures status.Failed? ==> status.error == OddCoordinateCount(|coords|) && unchanged(this, ionBeams, points)
      ensures status.Applied? ==> SpotSetWritten(coords, weights, settings)
      ensures forall b, k :: 0 <= b < |ionBeams| && 0 < k < |ionBeams[b].controlPoints| ==>
                ionBeams[b].controlPoints[k].gantryAngle == old(ionBeams[b].controlPoints[k].gantryAngle)
    {
      var nspots := |coords| / 2;
      if |coords| != 2 * nspots {
        return Failed(OddCoordinateCount(|coords|));
      }
      beamMeterset := nspots as real * settings.spotMu;
      var scaled := Scaled(weights, WeightScale);
      var positions := Scaled(coords, CmToMm);
      var cumWeight := ApplyBeams(settings, nspots, positions, scaled);
      status := Applied;
    }

    /** apply_model from line 43: generate the spot set for the field, then write it. */
    method ApplyModel(input: Spots.PatternInput, settings: FieldSettings) returns (status: Status)
      requires Valid()
      modifies this, ionBeams, points
      ensures status.Failed? <==> Spots.GenerateSpotPattern(input).Err?
      ensures status.Failed? ==> status.error == PatternError(Spots.GenerateSpotPattern(input).error) && unchanged(this, ionBeams, points)
      ensures status.Applied? ==>
                SpotSetWritten(Spots.GenerateSpotPattern(input).value.coords, Spots.GenerateSpotPattern(input).value.weights, settings)
      ensures status.Applied? ==> forall b, k :: 0 <= b < |ionBeams| && 0 <= k < |ionBeams[b].controlPoints| ==>
                SpotDataConsistent(ionBeams[b].controlPoints[k])
      ensures forall b, k :: 0 <= b < |ionBeams| && 0 < k < |ionBeams[b].controlPoints| ==>
                ionBeams[b].controlPoints[k].gantryAngle == old(ionBeams[b].controlPoints[k].gantryAngle)
    {
      var pattern := Spots.GenerateSpotPattern(input);
      if pattern.Err? {
        return Failed(PatternError(pattern.error));
      }
      status := ApplySpotSet(pattern.value.coords, pattern.value.weights, settings);
      if status.Applied? {
        WrittenSpotData(pattern.value.coords, pattern.value.weights, settings);
      }
    }

    /** A spot set with two coordinates per weight leaves every control point with one weight and two coordinates per spot. */
    lemma WrittenSpotData(coords: seq<real>, weights: seq<real>, settings: FieldSettings)
      requires Valid() && |coords| == 2 * |weights|
      requires SpotSetWritten(coords, weights, settings)
      ensures forall b, k :: 0 <= b < |ionBeams| && 0 <= k < |ionBeams[b].controlPoints| ==>
                SpotDataConsistent(ionBeams[b].controlPoints[k])
    {
      forall b, k | 0 <= b < |ionBeams| && 0 <= k < |ionBeams[b].controlPoints|
        ensures SpotDataConsistent(ionBeams[b].controlPoints[k])
      {
        assert BeamApplied(b, settings, |coords| / 2, Scaled(coords, CmToMm), Scaled(weights, WeightScale));
      }
    }
  }
}
