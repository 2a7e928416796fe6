/**
 * Overhead-environment gas planning: ambient pressure at depth, the CCR exit
 * distance under a half-gas reserve, the OC penetration distance under the
 * doubled-exit-gas balance, and the two drop schedules. Distances are in feet,
 * gas in cubic feet, SAC rates in cubic feet per minute at the surface and
 * swimming rates in feet per minute. Arithmetic is exact (`real`).
 */
module Planner {
  import opened Tanks

  /** The form's dive parameters. `salinity` selects salt water. */
  datatype Dive = Dive(
    depth: real,
    salinity: bool,
    totalGas: real,
    sacExit: real,
    sacPenetration: real,
    exitRate: real,
    penetrationRate: real)

  // ---------------------------------------------------------------------------
  // Ambient pressure

  /**
   * Atmospheres at `depth`: one per 33 feet of salt water or 34 feet of fresh
   * water, plus the atmosphere of air above. The divisors stay literals so that
   * every pressure term is linear for the distance proofs.
   */
  function AmbientPressure(depth: real, salinity: bool): (p: real)
    ensures salinity ==> (p - 1.0) * 33.0 == depth
    ensures !salinity ==> (p - 1.0) * 34.0 == depth
  {
    if salinity then depth / 33.0 + 1.0 else depth / 34.0 + 1.0
  }

  lemma AmbientPressureReferencePoints()
    ensures AmbientPressure(0.0, true) == 1.0 && AmbientPressure(0.0, false) == 1.0
    ensures AmbientPressure(33.0, true) == 2.0
    ensures AmbientPressure(34.0, false) == 2.0
  {
  }

  /** Salt water's shorter atmosphere gives at least the fresh-water pressure below the surface. */
  lemma SaltAtLeastFresh(depth: real)
    requires depth >= 0.0
    ensures AmbientPressure(depth, true) >= AmbientPressure(depth, false)
    ensures depth > 0.0 ==> AmbientPressure(depth, true) > AmbientPressure(depth, false)
  {
  }

  lemma AmbientPressureIncreasing(shallow: real, deep: real, salinity: bool)
    requires shallow < deep
    ensures AmbientPressure(shallow, salinity) < AmbientPressure(deep, salinity)
  {
  }

  // ---------------------------------------------------------------------------
  // Distance limits

  /** Gas breathed while swimming `distance` feet out, at the exit SAC and rate. */
  function ExitGas(d: Dive, distance: real): real
    requires d.exitRate != 0.0
  {
    d.sacExit * AmbientPressure(d.depth, d.salinity) * (distance / d.exitRate)
  }

  /** Gas breathed while swimming `distance` feet in, at the penetration SAC and rate. */
  function PenetrationGas(d: Dive, distance: real): real
    requires d.penetrationRate != 0.0
  {
    d.sacPenetration * AmbientPressure(d.depth, d.salinity) * (distance / d.penetrationRate)
  }

  /** The exit respiratory minute volume is nonzero, so the CCR formula divides by it. */
  predicate CCRDefined(d: Dive) {
    d.sacExit * AmbientPressure(d.depth, d.salinity) != 0.0
  }

  /** CCR: the distance whose exit swim uses exactly half the total gas. */
  function PlanCCR(d: Dive): (distance: real)
    requires CCRDefined(d)
    ensures d.exitRate != 0.0 ==> ExitGas(d, distance) == d.totalGas / 2.0
    ensures d.exitRate == 0.0 ==> distance == 0.0
  {
    var maxGas := d.totalGas * 0.5;
    var rmv := d.sacExit * AmbientPressure(d.depth, d.salinity);
    var maxTime := maxGas / rmv;
    d.exitRate * maxTime
  }

  /** The half-gas balance has one solution: PlanCCR is the only distance meeting it. */
  lemma PlanCCRUnique(d: Dive, distance: real)
    requires CCRDefined(d) && d.exitRate != 0.0
    requires ExitGas(d, distance) == d.totalGas / 2.0
    ensures distance == PlanCCR(d)
  {
    var rmv := d.sacExit * AmbientPressure(d.depth, d.salinity);
    assert rmv * (distance / d.exitRate) == rmv * (PlanCCR(d) / d.exitRate);
    assert distance / d.exitRate == PlanCCR(d) / d.exitRate;
  }

  /** PlanCCR is linear in the exit rate. */
  lemma PlanCCRScalesWithExitRate(d: Dive, k: real)
    requires CCRDefined(d)
    ensures PlanCCR(d.(exitRate := k * d.exitRate)) == k * PlanCCR(d)
  {
    var d' := d.(exitRate := k * d.exitRate);
    MaxTimeIgnoresExitRate(d, k * d.exitRate);
    PlanCCRMaxTime(d);
    PlanCCRMaxTime(d');
    MulAssociates(k, d.exitRate, MaxTime(d));
  }

  /** The source's maxTime: minutes of exit swimming the reserved half of the gas lasts. */
  ghost function MaxTime(d: Dive): real
    requires CCRDefined(d)
  {
    d.totalGas * 0.5 / (d.sacExit * AmbientPressure(d.depth, d.salinity))
  }

  lemma PlanCCRMaxTime(d: Dive)
    requires CCRDefined(d)
    ensures PlanCCR(d) == d.exitRate * MaxTime(d)
  {
  }

  lemma MaxTimeIgnoresExitRate(d: Dive, e: real)
    requires CCRDefined(d)
    ensures CCRDefined(d.(exitRate := e)) && MaxTime(d.(exitRate := e)) == MaxTime(d)
  {
    var d' := d.(exitRate := e);
    assert d'.totalGas == d.totalGas && d'.sacExit == d.sacExit && d'.depth == d.depth && d'.salinity == d.salinity;
  }

  /** PlanCCR is linear in the total gas. */
  lemma PlanCCRScalesWithTotalGas(d: Dive, k: real)
    requires CCRDefined(d)
    ensures PlanCCR(d.(totalGas := k * d.totalGas)) == k * PlanCCR(d)
  {
    var d' := d.(totalGas := k * d.totalGas);
    assert d'.sacExit == d.sacExit && d'.exitRate == d.exitRate && d'.depth == d.depth && d'.salinity == d.salinity;
    PlanCCRFormula(d);
    PlanCCRFormula(d');
    ScaleNumerator(d.exitRate, d.totalGas, d.sacExit * AmbientPressure(d.depth, d.salinity), k);
  }

  /** PlanCCR is inversely proportional to the exit SAC. */
  lemma PlanCCRInverseInSacExit(d: Dive, k: real)
    requires CCRDefined(d) && k != 0.0
    ensures CCRDefined(d.(sacExit := k * d.sacExit))
    ensures PlanCCR(d.(sacExit := k * d.sacExit)) == PlanCCR(d) / k
  {
    var p := AmbientPressure(d.depth, d.salinity);
    var d' := d.(sacExit := k * d.sacExit);
    var rmv := d.sacExit * p;
    var maxGas := d.totalGas * 0.5;
    assert d'.exitRate == d.exitRate && d'.totalGas == d.totalGas;
    assert AmbientPressure(d'.depth, d'.salinity) == p;
    MulAssociates(k, d.sacExit, p);
    MulNonZero(k, rmv);
    var rmv' := d'.sacExit * AmbientPressure(d'.depth, d'.salinity);
    assert rmv' == k * rmv;
    assert PlanCCR(d') == d.exitRate * (maxGas / rmv');
    assert PlanCCR(d) == d.exitRate * (maxGas / rmv);
    DivideByScaled(d.exitRate, maxGas, rmv, k);
  }

  /** PlanCCR's value with the intermediate maxGas, rmv and maxTime folded in. */
  lemma PlanCCRFormula(d: Dive)
    requires CCRDefined(d)
    ensures PlanCCR(d) == d.exitRate * ((d.totalGas * 0.5) / (d.sacExit * AmbientPressure(d.depth, d.salinity)))
  {
  }

  /** 200 cu ft, SAC 0.75, 30 ft/min, 66 ft of fresh water: 1360 ft. */
  lemma PlanCCRExample()
    ensures PlanCCR(Dive(66.0, false, 200.0, 0.75, 0.0, 30.0, 0.0)) == 1360.0
  {
    assert AmbientPressure(66.0, false) == 50.0 / 17.0;
  }

  /** Gas per foot of penetration once every foot's exit gas is charged twice. */
  function GasPerFoot(d: Dive): (r: real)
    requires d.penetrationRate != 0.0 && d.exitRate != 0.0
    ensures r == PenetrationGas(d, 1.0) + 2.0 * ExitGas(d, 1.0)
  {
    var p := AmbientPressure(d.depth, d.salinity);
    (d.sacPenetration * p) / d.penetrationRate + (2.0 * (d.sacExit * p)) / d.exitRate
  }

  /** Both rates are nonzero and so is the gas per foot the OC formula inverts. */
  predicate OCDefined(d: Dive) {
    d.penetrationRate != 0.0 && d.exitRate != 0.0 && GasPerFoot(d) != 0.0
  }

  /** The balance's left side is linear in the distance, at GasPerFoot per foot. */
  lemma GasBalanceLinear(d: Dive, distance: real)
    requires d.penetrationRate != 0.0 && d.exitRate != 0.0
    ensures PenetrationGas(d, distance) + 2.0 * ExitGas(d, distance) == distance * GasPerFoot(d)
  {
    var p := AmbientPressure(d.depth, d.salinity);
    assert PenetrationGas(d, distance) == distance * ((d.sacPenetration * p) / d.penetrationRate);
    assert ExitGas(d, distance) == distance * ((d.sacExit * p) / d.exitRate);
  }

  /** OC: the distance whose penetration gas plus twice its exit gas is the total gas. */
  function PlanOC(d: Dive): (distance: real)
    requires OCDefined(d)
    ensures PenetrationGas(d, distance) + 2.0 * ExitGas(d, distance) == d.totalGas
  {
    GasBalanceLinear(d, d.totalGas * (1.0 / GasPerFoot(d)));
    d.totalGas * (1.0 / GasPerFoot(d))
  }

  /** The OC balance has one solution. */
  lemma PlanOCUnique(d: Dive, distance: real)
    requires OCDefined(d)
    requires PenetrationGas(d, distance) + 2.0 * ExitGas(d, distance) == d.totalGas
    ensures distance == PlanOC(d)
  {
    GasBalanceLinear(d, distance);
  }

  /** With no penetration SAC the OC distance is the CCR distance. */
  lemma PlanOCWithoutPenetrationGas(d: Dive)
    requires OCDefined(d) && d.sacPenetration == 0.0
    ensures CCRDefined(d)
    ensures PlanOC(d) == PlanCCR(d)
  {
    var p := AmbientPressure(d.depth, d.salinity);
    assert GasPerFoot(d) == (2.0 * (d.sacExit * p)) / d.exitRate;
    assert d.sacExit * p != 0.0;
    PlanOCUnique(d, PlanCCR(d));
  }

  /** Charging penetration gas can only shorten the distance. */
  lemma PlanOCAtMostCCR(d: Dive)
    requires d.depth >= 0.0 && d.totalGas >= 0.0 && d.sacPenetration >= 0.0 && d.sacExit > 0.0
    requires d.penetrationRate > 0.0 && d.exitRate > 0.0
    ensures OCDefined(d) && CCRDefined(d)
    ensures PlanOC(d) <= PlanCCR(d)
  {
    var dNoPen := d.(sacPenetration := 0.0);
    PenetrationRaisesGasPerFoot(d);
    PlanOCWithoutPenetrationGas(dNoPen);
    ReciprocalAntitone(GasPerFoot(d), GasPerFoot(dNoPen));
    MulMonotone(d.totalGas, 1.0 / GasPerFoot(d), 1.0 / GasPerFoot(dNoPen));
    assert PlanOC(d) == d.totalGas * (1.0 / GasPerFoot(d));
    assert PlanOC(dNoPen) == d.totalGas * (1.0 / GasPerFoot(dNoPen));
    PlanCCRIgnoresPenetration(d);
  }

  /** The CCR distance does not read the penetration parameters. */
  lemma PlanCCRIgnoresPenetration(d: Dive)
    requires CCRDefined(d)
    ensures CCRDefined(d.(sacPenetration := 0.0))
    ensures PlanCCR(d.(sacPenetration := 0.0)) == PlanCCR(d)
  {
    var dNoPen := d.(sacPenetration := 0.0);
    assert dNoPen.sacExit == d.sacExit && dNoPen.exitRate == d.exitRate && dNoPen.totalGas == d.totalGas;
    assert dNoPen.depth == d.depth && dNoPen.salinity == d.salinity;
  }

  /** Penetration gas adds a non-negative amount to an already positive gas per foot. */
  lemma PenetrationRaisesGasPerFoot(d: Dive)
    requires d.depth >= 0.0 && d.sacPenetration >= 0.0 && d.sacExit > 0.0
    requires d.penetrationRate > 0.0 && d.exitRate > 0.0
    ensures 0.0 < GasPerFoot(d.(sacPenetration := 0.0)) <= GasPerFoot(d)
    ensures CCRDefined(d)
  {
    var p := AmbientPressure(d.depth, d.salinity);
    var exitRmv := d.sacExit * p;
    MulPositive(d.sacExit, p);
    MulNonNegative(d.sacPenetration, p);
    QuotientNonNegative(d.sacPenetration * p, d.penetrationRate);
    QuotientPositive(2.0 * exitRmv, d.exitRate);
  }

  // ---------------------------------------------------------------------------
  // Drop records

  /** A drop: the tank it concerns (absent past the end of the list) and its distance along the line. */
  datatype Drop = Drop(tank: Option<Tank>, penetration: real)

  // ---------------------------------------------------------------------------
  // CCR bailout drops

  /** The `doubles` property the bailout guard filters on; no tank record has it. */
  function DoublesProperty(t: Tank): bool
  {
    false
  }

  /** How many tanks the bailout guard counts as doubles. */
  function MarkedDoublesCount(s: seq<Tank>): (n: nat)
    ensures n <= |s|
  {
    if s == [] then 0
    else MarkedDoublesCount(s[..|s| - 1]) + (if DoublesProperty(s[|s| - 1]) then 1 else 0)
  }

  /** The "more than two doubles" guard never rejects: it counts a property no tank has. */
  lemma {:induction false} NoTankMarkedDoubles(s: seq<Tank>)
    ensures MarkedDoublesCount(s) == 0
  {
    if s != [] {
      NoTankMarkedDoubles(s[..|s| - 1]);
    }
  }

  predicate Scalable(totalGas: real, maxDistance: real) {
    totalGas != 0.0 && maxDistance != 0.0
  }

  /** Distance covered on half a tank's fill, at the reserved half of the total gas per foot. */
  function Progress(t: Tank, totalGas: real, maxDistance: real): (r: real)
    requires Scalable(totalGas, maxDistance)
    ensures r == t.fill * maxDistance / totalGas
  {
    var gasPerFoot := (totalGas / 2.0) / maxDistance;
    (t.fill / 2.0) / gasPerFoot
  }

  /** The bailout loop's currentDistance after its first k iterations. */
  function Remaining(tanks: seq<Tank>, k: nat, totalGas: real, maxDistance: real): real
    requires k <= |tanks|
    requires k == 0 || Scalable(totalGas, maxDistance)
  {
    if k == 0 then maxDistance
    else Remaining(tanks, k - 1, totalGas, maxDistance) - Progress(tanks[k - 1], totalGas, maxDistance)
  }

  /** The distance left is maxDistance's share of the gas the first k tanks have not used up. */
  lemma {:induction false} RemainingClosedForm(tanks: seq<Tank>, k: nat, totalGas: real, maxDistance: real)
    requires k <= |tanks|
    requires k == 0 || Scalable(totalGas, maxDistance)
    ensures Remaining(tanks, k, totalGas, maxDistance) * totalGas == maxDistance * (totalGas - FillSum(tanks[..k]))
  {
    if k == 0 {
      RemainingAtStart(tanks, totalGas, maxDistance);
    } else {
      RemainingClosedForm(tanks, k - 1, totalGas, maxDistance);
      RemainingClosedFormStep(tanks, k, totalGas, maxDistance);
    }
  }

  /** Before the first iteration no gas is spent and the whole distance is left. */
  lemma RemainingAtStart(tanks: seq<Tank>, totalGas: real, maxDistance: real)
    ensures Remaining(tanks, 0, totalGas, maxDistance) * totalGas == maxDistance * (totalGas - FillSum(tanks[..0]))
  {
    assert tanks[..0] == [];
  }

  /** One iteration of the bailout loop keeps the closed form of RemainingClosedForm. */
  lemma RemainingClosedFormStep(tanks: seq<Tank>, k: nat, totalGas: real, maxDistance: real)
    requires 0 < k <= |tanks|
    requires Scalable(totalGas, maxDistance)
    requires Remaining(tanks, k - 1, totalGas, maxDistance) * totalGas
          == maxDistance * (totalGas - FillSum(tanks[..k - 1]))
    ensures Remaining(tanks, k, totalGas, maxDistance) * totalGas == maxDistance * (totalGas - FillSum(tanks[..k]))
  {
    assert tanks[..k][..k - 1] == tanks[..k - 1];
    RemainingStep(Remaining(tanks, k, totalGas, maxDistance), Remaining(tanks, k - 1, totalGas, maxDistance),
                  Progress(tanks[k - 1], totalGas, maxDistance),
                  FillSum(tanks[..k]), FillSum(tanks[..k - 1]), tanks[k - 1].fill, totalGas, maxDistance);
  }

  /**
   * With a positive total gas and distance, the loop still has distance left
   * after k iterations exactly while those tanks' fills are below the total gas.
   */
  lemma RemainingPositiveWhileGasLeft(tanks: seq<Tank>, k: nat, totalGas: real, maxDistance: real)
    requires k <= |tanks|
    requires totalGas > 0.0 && maxDistance > 0.0
    ensures Remaining(tanks, k, totalGas, maxDistance) > 0.0 <==> FillSum(tanks[..k]) < totalGas
  {
    RemainingClosedForm(tanks, k, totalGas, maxDistance);
    ProductSigns(Remaining(tanks, k, totalGas, maxDistance), totalGas, maxDistance, totalGas - FillSum(tanks[..k]));
  }

  /** The tank after index i, or none past the end of the list. */
  function NextTank(tanks: seq<Tank>, i: nat): Option<Tank>
  {
    if i + 1 < |tanks| then Some(tanks[i + 1]) else None
  }

  /** The records the bailout loop has pushed after its first k iterations. */
  function BailoutPrefix(tanks: seq<Tank>, k: nat, totalGas: real, maxDistance: real): (drops: seq<Drop>)
    requires k <= |tanks|
    requires k == 0 || Scalable(totalGas, maxDistance)
    ensures |drops| <= k
  {
    if k == 0 then []
    else
      var current := Remaining(tanks, k, totalGas, maxDistance);
      BailoutPrefix(tanks, k - 1, totalGas, maxDistance)
        + (if current > 0.0 then [Drop(NextTank(tanks, k - 1), current)] else [])
  }

  /** The bailout schedule: the two guards, then every loop iteration. */
  function BailoutDrops(tanks: seq<Tank>, totalGas: real, maxDistance: real): (drops: seq<Drop>)
    requires |tanks| > 0 && tanks[0].double ==> Scalable(totalGas, maxDistance)
    ensures |drops| <= |tanks|
  {
    if MarkedDoublesCount(tanks) > 2 then []
    else if |tanks| > 0 && !tanks[0].double then []
    else BailoutPrefix(tanks, |tanks|, totalGas, maxDistance)
  }

  method PlanCCRBailoutDrops(tanks: array<Tank>, totalGas: real, maxDistance: real) returns (drops: seq<Drop>)
    requires tanks.Length > 0 && tanks[0].double ==> Scalable(totalGas, maxDistance)
    ensures drops == BailoutDrops(tanks[..], totalGas, maxDistance)
  {
    if MarkedDoublesCount(tanks[..]) > 2 {
      return [];
    }
    if tanks.Length > 0 && !tanks[0].double {
      return [];
    }
    drops := [];
    var currentDistance := maxDistance;
    var i := 0;
    while i < tanks.Length
      invariant 0 <= i <= tanks.Length
      invariant currentDistance == Remaining(tanks[..], i, totalGas, maxDistance)
      invariant drops == BailoutPrefix(tanks[..], i, totalGas, maxDistance)
    {
      var tank := tanks[i];
      var progress := Progress(tank, totalGas, maxDistance);
      currentDistance := currentDistance - progress;
      if currentDistance > 0.0 {
        var next := if i + 1 < tanks.Length then Some(tanks[i + 1]) else None;
        drops := drops + [Drop(next, currentDistance)];
      }
      i := i + 1;
    }
  }

  /** Positive gas, distance and fills: the inputs of a physically meaningful plan. */
  predicate PositivePlan(tanks: seq<Tank>, totalGas: real, maxDistance: real) {
    totalGas > 0.0 && maxDistance > 0.0 && forall j :: 0 <= j < |tanks| ==> tanks[j].fill > 0.0
  }

  /** Every iteration strictly lowers currentDistance, so it falls below maxDistance after the first. */
  lemma {:induction false} RemainingDecreasing(tanks: seq<Tank>, i: nat, k: nat, totalGas: real, maxDistance: real)
    requires PositivePlan(tanks, totalGas, maxDistance)
    requires i < k <= |tanks|
    ensures Remaining(tanks, k, totalGas, maxDistance) < Remaining(tanks, i, totalGas, maxDistance)
    decreases k
  {
    var step := Progress(tanks[k - 1], totalGas, maxDistance);
    assert tanks[k - 1].fill * maxDistance > 0.0;
    assert step > 0.0;
    if i < k - 1 {
      RemainingDecreasing(tanks, i, k - 1, totalGas, maxDistance);
    }
  }

  /**
   * The loop emits a record at exactly the first iterations whose distance stays
   * positive: the k-th record comes from index k and names tank k + 1, and once
   * an index is skipped no later index is emitted.
   */
  lemma {:induction false} BailoutPrefixShape(tanks: seq<Tank>, k: nat, totalGas: real, maxDistance: real)
    requires PositivePlan(tanks, totalGas, maxDistance)
    requires k <= |tanks|
    ensures var s := BailoutPrefix(tanks, k, totalGas, maxDistance);
      && |s| <= k
      && (forall j :: 0 <= j < |s| ==>
            s[j] == Drop(NextTank(tanks, j), Remaining(tanks, j + 1, totalGas, maxDistance)) && s[j].penetration > 0.0)
      && (forall j :: |s| < j <= k ==> Remaining(tanks, j, totalGas, maxDistance) <= 0.0)
  {
    if k > 0 {
      BailoutPrefixShape(tanks, k - 1, totalGas, maxDistance);
      var prev := BailoutPrefix(tanks, k - 1, totalGas, maxDistance);
      if Remaining(tanks, k, totalGas, maxDistance) > 0.0 {
        RemainingDecreasing(tanks, k - 1, k, totalGas, maxDistance);
        assert |prev| == k - 1;
      }
    }
  }

  /**
   * With positive inputs, the schedule's distances lie strictly between 0 and
   * maxDistance, strictly decrease, the j-th names tank j + 1 (none after the
   * last tank), and there are at most as many records as tanks.
   */
  lemma BailoutDropsOrdered(tanks: seq<Tank>, totalGas: real, maxDistance: real)
    requires PositivePlan(tanks, totalGas, maxDistance)
    ensures var drops := BailoutDrops(tanks, totalGas, maxDistance);
      && |drops| <= |tanks|
      && (forall j :: 0 <= j < |drops| ==> drops[j].tank == NextTank(tanks, j))
      && (forall j :: 0 <= j < |drops| ==> 0.0 < drops[j].penetration < maxDistance)
      && (forall i, j :: 0 <= i < j < |drops| ==> drops[i].penetration > drops[j].penetration)
  {
    var drops := BailoutDrops(tanks, totalGas, maxDistance);
    if drops != [] {
      NoTankMarkedDoubles(tanks);
      BailoutPrefixShape(tanks, |tanks|, totalGas, maxDistance);
      forall j | 0 <= j < |drops|
        ensures drops[j].penetration < maxDistance
      {
        RemainingDecreasing(tanks, 0, j + 1, totalGas, maxDistance);
      }
      forall i, j | 0 <= i < j < |drops|
        ensures drops[i].penetration > drops[j].penetration
      {
        RemainingDecreasing(tanks, i + 1, j + 1, totalGas, maxDistance);
      }
    }
  }

  /** An empty list and a list whose first tank is not a doubles pair both give no schedule. */
  lemma BailoutDropsRejects(tanks: seq<Tank>, totalGas: real, maxDistance: real)
    requires tanks == [] || !tanks[0].double
    ensures BailoutDrops(tanks, totalGas, maxDistance) == []
  {
  }

  /**
   * With doubles first and a first fill below the total gas, the schedule is not
   * empty and its first record sends the diver to the second listed tank.
   */
  lemma BailoutFirstDrop(tanks: seq<Tank>, totalGas: real, maxDistance: real)
    requires PositivePlan(tanks, totalGas, maxDistance)
    requires |tanks| >= 2 && tanks[0].double && tanks[0].fill < totalGas
    ensures var drops := BailoutDrops(tanks, totalGas, maxDistance);
      && drops != []
      && drops[0] == Drop(Some(tanks[1]), maxDistance - tanks[0].fill * maxDistance / totalGas)
  {
    NoTankMarkedDoubles(tanks);
    BailoutPrefixShape(tanks, |tanks|, totalGas, maxDistance);
    assert Remaining(tanks, 1, totalGas, maxDistance) == maxDistance - tanks[0].fill * maxDistance / totalGas;
    ShareBelowWhole(tanks[0].fill, totalGas, maxDistance);
  }

  // ---------------------------------------------------------------------------
  // OC stage drops

  /** Reverse of a sequence, built from its last element. */
  function Reverse(s: seq<Tank>): (r: seq<Tank>)
    ensures |r| == |s|
  {
    if s == [] then [] else [s[|s| - 1]] + Reverse(s[..|s| - 1])
  }

  lemma {:induction false} ReverseAt(s: seq<Tank>, k: nat)
    requires k < |s|
    ensures Reverse(s)[k] == s[|s| - 1 - k]
  {
    if k > 0 {
      ReverseAt(s[..|s| - 1], k - 1);
    } else if |s| > 1 {
      ReverseAt(s[..|s| - 1], 0);
    }
  }

  lemma {:induction false} ReverseSnocFront(x: Tank, r: seq<Tank>)
    ensures Reverse([x] + r) == Reverse(r) + [x]
    decreases |r|
  {
    if r == [] {
      assert [x] + r == [x];
      assert [x][..0] == [];
    } else {
      var init := r[..|r| - 1];
      assert ([x] + r)[..|[x] + r| - 1] == [x] + init;
      ReverseSnocFront(x, init);
    }
  }

  /** Reversing twice gives the original order back. */
  lemma {:induction false} ReverseReverse(s: seq<Tank>)
    ensures Reverse(Reverse(s)) == s
  {
    if s != [] {
      var init := s[..|s| - 1];
      ReverseSnocFront(s[|s| - 1], Reverse(init));
      ReverseReverse(init);
    }
  }

  /** Reverses the array in place, as the stage schedule does to its argument. */
  method ReverseInPlace(a: array<Tank>)
    modifies a
    ensures a[..] == Reverse(old(a[..]))
  {
    var lo, hi := 0, a.Length - 1;
    while lo < hi
      invariant 0 <= lo <= a.Length && hi == a.Length - 1 - lo
      invariant lo <= hi + 1
      invariant forall k :: 0 <= k < lo ==> a[k] == old(a[a.Length - 1 - k]) && a[a.Length - 1 - k] == old(a[k])
      invariant forall k :: lo <= k <= hi ==> a[k] == old(a[k])
    {
      a[lo], a[hi] := a[hi], a[lo];
      lo, hi := lo + 1, hi - 1;
    }
    ghost var before := old(a[..]);
    forall k | 0 <= k < a.Length
      ensures |Reverse(before)| == a.Length && a[..][k] == Reverse(before)[k]
    {
      ReverseAt(before, k);
    }
    if a.Length == 0 {
      assert before == [];
    }
  }

  /** The tanks that are not doubles, in their listed order. */
  function NonDoubles(s: seq<Tank>): (r: seq<Tank>)
    ensures |r| <= |s|
    ensures forall j :: 0 <= j < |r| ==> !r[j].double
  {
    if s == [] then []
    else
      var last := s[|s| - 1];
      NonDoubles(s[..|s| - 1]) + (if last.double then [] else [last])
  }

  /** NonDoubles keeps every tank that is not a doubles pair and nothing else. */
  lemma {:induction false} NonDoublesMembers(s: seq<Tank>, t: Tank)
    ensures t in NonDoubles(s) <==> t in s && !t.double
  {
    if s != [] {
      var init := s[..|s| - 1];
      NonDoublesMembers(init, t);
      assert s == init + [s[|s| - 1]];
    }
  }

  lemma {:induction false} NonDoublesConcat(a: seq<Tank>, b: seq<Tank>)
    ensures NonDoubles(a + b) == NonDoubles(a) + NonDoubles(b)
    decreases |b|
  {
    if b == [] {
      assert a + b == a;
    } else {
      var init := b[..|b| - 1];
      assert (a + b)[..|a + b| - 1] == a + init;
      NonDoublesConcat(a, init);
    }
  }

  /** Skipping doubles commutes with reversing the list. */
  lemma {:induction false} NonDoublesReverse(s: seq<Tank>)
    ensures NonDoubles(Reverse(s)) == Reverse(NonDoubles(s))
  {
    if s != [] {
      var init := s[..|s| - 1];
      var last := s[|s| - 1];
      var kept := NonDoubles(init);
      var tail := if last.double then [] else [last];
      assert Reverse(s) == [last] + Reverse(init);
      assert NonDoubles(s) == kept + tail;
      assert [last][..0] == [];
      assert NonDoubles([last]) == tail;
      NonDoublesConcat([last], Reverse(init));
      NonDoublesReverse(init);
      assert NonDoubles(Reverse(s)) == tail + Reverse(kept);
      if !last.double {
        assert (kept + [last])[..|kept + [last]| - 1] == kept;
        assert Reverse(kept + [last]) == [last] + Reverse(kept);
      } else {
        assert kept + tail == kept;
      }
    }
  }

  /** Usable gas of a stage dropped at 1700 of its 3000 psi: 1 - 17/30, taken as 0.43, of its fill. */
  function UsableGas(t: Tank): (usable: real)
  {
    t.fill * 0.43
  }

  /** Distance one stage is estimated to carry the diver in. */
  function StageAdvance(t: Tank, penetrationRate: real, sacPenetration: real): real {
    UsableGas(t) * sacPenetration * penetrationRate
  }

  /** No tank has a negative fill. */
  predicate FillsNonNegative(s: seq<Tank>) {
    forall i :: 0 <= i < |s| ==> 0.0 <= s[i].fill
  }

  /** Sum of the stages' advances, accumulated from the first stage to the last. */
  function StageSum(stages: seq<Tank>, penetrationRate: real, sacPenetration: real): real {
    if stages == [] then 0.0
    else StageSum(stages[..|stages| - 1], penetrationRate, sacPenetration)
         + StageAdvance(stages[|stages| - 1], penetrationRate, sacPenetration)
  }

  /** One record per stage, carrying the running sum up to and including that stage. */
  function RunningDrops(stages: seq<Tank>, penetrationRate: real, sacPenetration: real): (drops: seq<Drop>)
    ensures |drops| == |stages|
    ensures forall j :: 0 <= j < |drops| ==> drops[j].tank == Some(stages[j])
    ensures |stages| > 0 ==> drops[|stages| - 1].penetration == StageSum(stages, penetrationRate, sacPenetration)
  {
    assert stages[..|stages|] == stages;
    seq(|stages|, j requires 0 <= j < |stages| =>
      Drop(Some(stages[j]), StageSum(stages[..j + 1], penetrationRate, sacPenetration)))
  }

  lemma RunningDropsSnoc(stages: seq<Tank>, t: Tank, penetrationRate: real, sacPenetration: real)
    ensures RunningDrops(stages + [t], penetrationRate, sacPenetration)
         == RunningDrops(stages, penetrationRate, sacPenetration)
            + [Drop(Some(t), StageSum(stages + [t], penetrationRate, sacPenetration))]
  {
    var longer := stages + [t];
    var before := RunningDrops(stages, penetrationRate, sacPenetration);
    var after := RunningDrops(longer, penetrationRate, sacPenetration);
    forall j | 0 <= j < |stages|
      ensures after[j] == before[j]
    {
      assert longer[..j + 1] == stages[..j + 1];
    }
    assert longer[..|stages| + 1] == longer;
  }

  /**
   * Reverses the caller's array in place, then walks it, skipping doubles and
   * emitting each stage with the running sum of the distances the stages carry.
   */
  method PlanOCStageDrops(tanks: array<Tank>, penetrationRate: real, sacPenetration: real) returns (drops: seq<Drop>)
    modifies tanks
    ensures tanks[..] == Reverse(old(tanks[..]))
    ensures drops == RunningDrops(NonDoubles(tanks[..]), penetrationRate, sacPenetration)
  {
    ReverseInPlace(tanks);
    ghost var ordered := tanks[..];
    drops := [];
    var penetration := 0.0;
    for i := 0 to tanks.Length
      invariant tanks[..] == ordered
      invariant drops == RunningDrops(NonDoubles(ordered[..i]), penetrationRate, sacPenetration)
      invariant penetration == StageSum(NonDoubles(ordered[..i]), penetrationRate, sacPenetration)
    {
      var tank := tanks[i];
      ghost var kept := NonDoubles(ordered[..i]);
      assert ordered[..i + 1][..i] == ordered[..i];
      if tank.double {
        assert NonDoubles(ordered[..i + 1]) == kept;
        continue;
      }
      assert NonDoubles(ordered[..i + 1]) == kept + [tank];
      var tankUsableGas := tank.fill * 0.43;
      var estimatedTankDrop := tankUsableGas * sacPenetration * penetrationRate;
      penetration := penetration + estimatedTankDrop;
      assert (kept + [tank])[..|kept|] == kept;
      assert penetration == StageSum(kept + [tank], penetrationRate, sacPenetration);
      RunningDropsSnoc(kept, tank, penetrationRate, sacPenetration);
      drops := drops + [Drop(Some(tank), penetration)];
    }
    assert ordered[..tanks.Length] == ordered;
  }

  /**
   * The stage schedule visits the tanks that are not doubles in reverse of
   * their listed order: its j-th stage is the j-th such tank from the end.
   */
  lemma StageOrder(listed: seq<Tank>)
    ensures var stages := NonDoubles(Reverse(listed));
      && |stages| == |NonDoubles(listed)|
      && forall j :: 0 <= j < |stages| ==> stages[j] == NonDoubles(listed)[|stages| - 1 - j]
  {
    NonDoublesReverse(listed);
    var kept := NonDoubles(listed);
    forall j | 0 <= j < |kept|
      ensures Reverse(kept)[j] == kept[|kept| - 1 - j]
    {
      ReverseAt(kept, j);
    }
  }

  /** Doubles, AL80, AL40 as listed: the AL40 is staged first, then the AL80, and the doubles never. */
  lemma StageExample(penetrationRate: real, sacPenetration: real)
    ensures var listed := [TankType(LP108), TankType(AL80), TankType(AL40)];
      var al40 := StageAdvance(TankType(AL40), penetrationRate, sacPenetration);
      var al80 := StageAdvance(TankType(AL80), penetrationRate, sacPenetration);
      RunningDrops(NonDoubles(Reverse(listed)), penetrationRate, sacPenetration)
        == [Drop(Some(TankType(AL40)), al40), Drop(Some(TankType(AL80)), al40 + al80)]
  {
    var listed := [TankType(LP108), TankType(AL80), TankType(AL40)];
    var stages := [TankType(AL40), TankType(AL80)];
    assert Reverse(listed[..0]) == [];
    assert Reverse(listed[..1]) == [TankType(LP108)];
    assert Reverse(listed[..2]) == [TankType(AL80), TankType(LP108)];
    assert listed[..3] == listed;
    var reversed := [TankType(AL40), TankType(AL80), TankType(LP108)];
    assert Reverse(listed) == reversed;
    assert reversed[..1] == [TankType(AL40)];
    assert reversed[..2] == stages;
    assert NonDoubles(reversed[..1]) == [TankType(AL40)];
    assert NonDoubles(reversed[..2]) == stages;
    assert reversed[..3] == reversed;
    assert NonDoubles(reversed) == stages;
    assert stages[..1] == [TankType(AL40)] && stages[..2] == stages;
    assert stages[..1][..0] == [];
    var al40 := StageAdvance(TankType(AL40), penetrationRate, sacPenetration);
    var al80 := StageAdvance(TankType(AL80), penetrationRate, sacPenetration);
    assert StageSum(stages[..1], penetrationRate, sacPenetration) == al40;
    assert StageSum(stages[..2], penetrationRate, sacPenetration) == al40 + al80;
    var drops := RunningDrops(stages, penetrationRate, sacPenetration);
    assert drops[0] == Drop(Some(TankType(AL40)), al40);
    assert drops[1] == Drop(Some(TankType(AL80)), al40 + al80);
  }

  /** With non-negative fills, SAC and rate the stages carry the diver a non-negative distance. */
  lemma StageSumNonNegative(stages: seq<Tank>, penetrationRate: real, sacPenetration: real)
    requires penetrationRate >= 0.0 && sacPenetration >= 0.0
    requires FillsNonNegative(stages)
    ensures StageSum(stages, penetrationRate, sacPenetration) >= 0.0
  {
    StageSumMonotone(stages, 0, |stages|, penetrationRate, sacPenetration);
    assert stages[..0] == [] && stages[..|stages|] == stages;
  }

  /** The running sum is 0.43 × SAC × rate times the stages' summed fills. */
  lemma {:induction false} StageSumClosedForm(stages: seq<Tank>, penetrationRate: real, sacPenetration: real)
    ensures StageSum(stages, penetrationRate, sacPenetration)
         == 0.43 * sacPenetration * penetrationRate * FillSum(stages)
    decreases |stages|
  {
    if stages == [] {
      StageSumAtStart(stages, penetrationRate, sacPenetration);
    } else {
      StageSumClosedForm(stages[..|stages| - 1], penetrationRate, sacPenetration);
      StageSumClosedFormStep(stages, penetrationRate, sacPenetration);
    }
  }

  lemma StageSumAtStart(stages: seq<Tank>, penetrationRate: real, sacPenetration: real)
    requires stages == []
    ensures StageSum(stages, penetrationRate, sacPenetration)
         == 0.43 * sacPenetration * penetrationRate * FillSum(stages)
  {
  }

  /** One more stage keeps the closed form of StageSumClosedForm. */
  lemma StageSumClosedFormStep(stages: seq<Tank>, penetrationRate: real, sacPenetration: real)
    requires stages != []
    requires StageSum(stages[..|stages| - 1], penetrationRate, sacPenetration)
          == 0.43 * sacPenetration * penetrationRate * FillSum(stages[..|stages| - 1])
    ensures StageSum(stages, penetrationRate, sacPenetration)
         == 0.43 * sacPenetration * penetrationRate * FillSum(stages)
  {
    var last := stages[|stages| - 1];
    StageAdvanceScaled(last, penetrationRate, sacPenetration);
    StageSumSnoc(stages, penetrationRate, sacPenetration);
    FillSumSnoc(stages);
    StageStep(StageSum(stages, penetrationRate, sacPenetration),
              StageSum(stages[..|stages| - 1], penetrationRate, sacPenetration),
              StageAdvance(last, penetrationRate, sacPenetration),
              FillSum(stages), FillSum(stages[..|stages| - 1]), last.fill,
              sacPenetration, penetrationRate);
  }

  lemma StageSumSnoc(stages: seq<Tank>, penetrationRate: real, sacPenetration: real)
    requires stages != []
    ensures StageSum(stages, penetrationRate, sacPenetration)
         == StageSum(stages[..|stages| - 1], penetrationRate, sacPenetration)
            + StageAdvance(stages[|stages| - 1], penetrationRate, sacPenetration)
  {
  }

  lemma FillSumSnoc(stages: seq<Tank>)
    requires stages != []
    ensures FillSum(stages) == FillSum(stages[..|stages| - 1]) + stages[|stages| - 1].fill
  {
  }

  /** One stage's advance is 0.43 × SAC × rate times its fill. */
  lemma StageAdvanceScaled(t: Tank, penetrationRate: real, sacPenetration: real)
    ensures StageAdvance(t, penetrationRate, sacPenetration) == 0.43 * sacPenetration * penetrationRate * t.fill
  {
  }

  /** With non-negative fills, SAC and rate the running sum never shrinks along the stages. */
  lemma {:induction false} StageSumMonotone(stages: seq<Tank>, i: nat, j: nat, penetrationRate: real, sacPenetration: real)
    requires penetrationRate >= 0.0 && sacPenetration >= 0.0
    requires FillsNonNegative(stages)
    requires i <= j <= |stages|
    ensures StageSum(stages[..i], penetrationRate, sacPenetration) <= StageSum(stages[..j], penetrationRate, sacPenetration)
    decreases j
  {
    if i < j {
      StageSumMonotone(stages, i, j - 1, penetrationRate, sacPenetration);
      var t := stages[j - 1];
      assert stages[..j][..j - 1] == stages[..j - 1];
      assert UsableGas(t) >= 0.0;
      assert UsableGas(t) * sacPenetration >= 0.0;
      assert StageAdvance(t, penetrationRate, sacPenetration) >= 0.0;
    }
  }

  lemma StageDropsNonDecreasing(stages: seq<Tank>, penetrationRate: real, sacPenetration: real)
    requires penetrationRate >= 0.0 && sacPenetration >= 0.0
    requires FillsNonNegative(stages)
    ensures var drops := RunningDrops(stages, penetrationRate, sacPenetration);
      forall i, j :: 0 <= i <= j < |drops| ==> drops[i].penetration <= drops[j].penetration
  {
    var drops := RunningDrops(stages, penetrationRate, sacPenetration);
    forall i, j | 0 <= i <= j < |drops|
      ensures drops[i].penetration <= drops[j].penetration
    {
      StageSumMonotone(stages, i + 1, j + 1, penetrationRate, sacPenetration);
    }
  }

  // ---------------------------------------------------------------------------
  // Real arithmetic used by the proofs above

  lemma MulPositive(x: real, y: real)
    requires x > 0.0 && y > 0.0
    ensures x * y > 0.0
  {
  }

  lemma MulNonNegative(x: real, y: real)
    requires x >= 0.0 && y >= 0.0
    ensures x * y >= 0.0
  {
  }

  lemma MulAssociates(x: real, y: real, z: real)
    ensures (x * y) * z == x * (y * z)
  {
  }

  lemma DivideByScaled(a: real, x: real, r: real, k: real)
    requires r != 0.0 && k != 0.0
    ensures a * (x / (k * r)) == (a * (x / r)) / k
  {
  }

  lemma MulNonZero(x: real, y: real)
    requires x != 0.0 && y != 0.0
    ensures x * y != 0.0
  {
  }

  lemma MulMonotone(k: real, x: real, y: real)
    requires k >= 0.0 && x <= y
    ensures k * x <= k * y
  {
  }

  lemma QuotientPositive(x: real, y: real)
    requires x > 0.0 && y > 0.0
    ensures x / y > 0.0
  {
  }

  lemma QuotientNonNegative(x: real, y: real)
    requires x >= 0.0 && y > 0.0
    ensures x / y >= 0.0
  {
  }

  lemma ReciprocalAntitone(x: real, y: real)
    requires 0.0 < y <= x
    ensures 1.0 / x <= 1.0 / y
  {
  }

  /** One more stage keeps the running sum's closed form. */
  lemma StageStep(after: real, before: real, advance: real, total: real, filled: real, fill: real,
                  sacPenetration: real, penetrationRate: real)
    requires after == before + advance
    requires before == 0.43 * sacPenetration * penetrationRate * filled
    requires advance == 0.43 * sacPenetration * penetrationRate * fill
    requires total == filled + fill
    ensures after == 0.43 * sacPenetration * penetrationRate * total
  {
  }

  /** One bailout iteration keeps the closed form of the remaining distance. */
  lemma RemainingStep(after: real, before: real, step: real, total: real, filled: real, fill: real,
                      totalGas: real, maxDistance: real)
    requires totalGas != 0.0
    requires before * totalGas == maxDistance * (totalGas - filled)
    requires step == fill * maxDistance / totalGas
    requires after == before - step && total == filled + fill
    ensures after * totalGas == maxDistance * (totalGas - total)
  {
    assert step * totalGas == fill * maxDistance;
  }

  lemma ProductSigns(r: real, g: real, m: real, x: real)
    requires g > 0.0 && m > 0.0
    requires r * g == m * x
    ensures r > 0.0 <==> x > 0.0
  {
    if r > 0.0 {
      MulPositive(r, g);
    }
    if x > 0.0 {
      MulPositive(m, x);
    }
    if r <= 0.0 && x > 0.0 {
      MulMonotone(g, r, 0.0);
    }
  }

  lemma ScaleNumerator(rate: real, gas: real, rmv: real, k: real)
    requires rmv != 0.0
    ensures rate * (((k * gas) * 0.5) / rmv) == k * (rate * ((gas * 0.5) / rmv))
  {
  }

  /** A part of a whole takes less than the whole of any positive distance. */
  lemma ShareBelowWhole(part: real, whole: real, distance: real)
    requires 0.0 < part < whole && distance > 0.0
    ensures part * distance / whole < distance
  {
  }
}
