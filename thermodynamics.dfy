/**
 * The three ideal power-cycle calculators: Rankine (simplified steam
 * properties), Otto (constant-volume heat addition) and Diesel
 * (constant-pressure heat addition), each a closed-form evaluation that
 * maps a parameter record to performance metrics and two closed diagrams.
 */
module Thermodynamics {
  import opened Wrappers

  /** Gas constant for air, kJ/(kg K). */
  const R: real := 0.287
  /** Specific heat ratio for air. */
  const k: real := 1.4
  /** Specific heat at constant volume for air, kJ/(kg K). */
  const cv: real := 0.718
  /** Specific heat at constant pressure for air, kJ/(kg K). */
  const cp: real := 1.005

  /**
   * `Math.pow` (also the `**` operator) and `Math.log`. Real powers with
   * non-integer exponents and logarithms have no definition in Dafny, so the
   * model is parametric in them; the only law ever assumed is PowPositive.
   */
  datatype MathLib = MathLib(pow: (real, real) -> real, log: real -> real)

  /** `Math.pow(x, y)` and `x ** y`. */
  function Pow(m: MathLib, x: real, y: real): real {
    m.pow(x, y)
  }

  /** `Math.log(x)`. */
  function Log(m: MathLib, x: real): real {
    m.log(x)
  }

  ghost predicate PowPositive(m: MathLib) {
    forall x, y :: x > 0.0 ==> Pow(m, x, y) > 0.0
  }

  datatype RankineParams = RankineParams(
    boilerPressure: real,       // MPa
    boilerTemperature: real,    // degrees C
    condenserPressure: real,    // MPa
    pumpEfficiency: real,
    turbineEfficiency: real)

  datatype OttoParams = OttoParams(
    initialPressure: real,      // MPa
    initialTemperature: real,   // degrees C
    compressionRatio: real,
    heatInput: real)            // kJ/kg

  datatype DieselParams = DieselParams(
    initialPressure: real,
    initialTemperature: real,
    compressionRatio: real,
    cutoffRatio: real,
    heatInput: real)

  /** One vertex of a diagram: (volume, pressure) or (entropy, temperature). */
  datatype StatePoint = StatePoint(x: real, y: real)

  /**
   * The result object. The three optional fields are always present in what
   * the calculators return; the simulator's own error fallback omits them.
   */
  datatype CycleResult = CycleResult(
    efficiency: real,
    workOutput: real,
    heatInput: real,
    heatRejected: real,
    pvData: seq<StatePoint>,
    tsData: seq<StatePoint>,
    steamQuality: Option<real>,
    maxTemperature: Option<real>,
    maxPressure: Option<real>)

  /** What each calculator's `catch` returns: every metric 0, no diagram points. */
  const ZeroResult: CycleResult :=
    CycleResult(0.0, 0.0, 0.0, 0.0, [], [], Some(0.0), Some(0.0), Some(0.0))

  /** Both diagrams have four vertices and repeat the first as a fifth. */
  predicate IsClosedLoop(r: CycleResult) {
    && |r.pvData| == 5 && r.pvData[4] == r.pvData[0]
    && |r.tsData| == 5 && r.tsData[4] == r.tsData[0]
  }

  /** First law over the cycle: net work is heat in minus heat out. */
  predicate EnergyBalanced(r: CycleResult) {
    r.workOutput == r.heatInput - r.heatRejected
  }

  // ---------------------------------------------------------------- Rankine

  /** Pump work v1 (Pb - Pc) 1000 / eta_p with v1 = 0.001 m^3/kg. */
  function RankinePumpWork(p: RankineParams): real
    requires p.pumpEfficiency != 0.0
  {
    (0.001 * (p.boilerPressure - p.condenserPressure) * 1000.0) / p.pumpEfficiency
  }

  /** The two divisions (by eta_p and by the heat input h3 - h2) are defined. */
  predicate RankineDefined(p: RankineParams) {
    p.pumpEfficiency != 0.0 && 3400.0 - (200.0 + RankinePumpWork(p)) != 0.0
  }

  function CalculateRankineCycle(params: Option<RankineParams>): (r: CycleResult)
    requires params.Some? ==> RankineDefined(params.value)
    ensures params.None? ==> r == ZeroResult
    ensures params.Some? ==> IsClosedLoop(r) && EnergyBalanced(r)
  {
    match params
    case None => ZeroResult
    case Some(p) =>
      var T3 := p.boilerTemperature + 273.15;
      // state 1: saturated liquid at condenser pressure
      var h1, s1, v1 := 200.0, 0.6, 0.001;
      // state 2: compressed liquid after the pump
      var pumpWork := RankinePumpWork(p);
      var h2 := h1 + pumpWork;
      var s2 := s1;
      // state 3: superheated steam after the boiler
      var h3, s3 := 3400.0, 6.8;
      // state 4: wet steam after the turbine
      var h4s := h1 + (h3 - h1) * (1.0 - 0.8);
      var h4 := h3 - p.turbineEfficiency * (h3 - h4s);
      var s4 := s3;
      var steamQuality := 0.85;
      var heatInput := h3 - h2;
      var turbineWork := h3 - h4;
      var workOutput := turbineWork - pumpWork;
      var heatRejected := h4 - h1;
      var efficiency := workOutput / heatInput;
      var pvData := [
        StatePoint(v1, p.condenserPressure),
        StatePoint(v1, p.boilerPressure),
        StatePoint(0.2, p.boilerPressure),
        StatePoint(2.0, p.condenserPressure),
        StatePoint(v1, p.condenserPressure)];
      var tsData := [
        StatePoint(s1, 300.0),
        StatePoint(s2, 310.0),
        StatePoint(s3, T3),
        StatePoint(s4, 350.0),
        StatePoint(s1, 300.0)];
      CycleResult(efficiency, workOutput, heatInput, heatRejected, pvData, tsData,
                  Some(steamQuality), Some(T3), Some(p.boilerPressure))
  }

  /** The simplified steam model in closed form: pump work is (Pb - Pc)/eta_p, h4 = 3400 - 2560 eta_t. */
  lemma RankineClosedForm(p: RankineParams)
    requires RankineDefined(p)
    ensures var r := CalculateRankineCycle(Some(p));
      var pumpWork := (p.boilerPressure - p.condenserPressure) / p.pumpEfficiency;
      && RankinePumpWork(p) == pumpWork
      && r.heatInput == 3200.0 - pumpWork
      && r.heatRejected == 3200.0 - 2560.0 * p.turbineEfficiency
      && r.workOutput == 2560.0 * p.turbineEfficiency - pumpWork
      && r.efficiency * r.heatInput == r.workOutput
      && r.steamQuality == Some(0.85)
      && r.maxTemperature == Some(p.boilerTemperature + 273.15)
      && r.maxPressure == Some(p.boilerPressure)
  {
    var d := p.boilerPressure - p.condenserPressure;
    assert 0.001 * d * 1000.0 == d;
  }

  /**
   * The diagram legs: the pump is isochoric and isentropic, boiler and
   * condenser are isobaric, the turbine is isentropic, and the boiler
   * vertex carries the reported maximum temperature.
   */
  lemma RankineDiagramLegs(p: RankineParams)
    requires RankineDefined(p)
    ensures var r := CalculateRankineCycle(Some(p));
      && r.pvData[0].x == r.pvData[1].x
      && r.pvData[1].y == r.pvData[2].y == p.boilerPressure
      && r.pvData[3].y == r.pvData[0].y == p.condenserPressure
      && r.tsData[0].x == r.tsData[1].x
      && r.tsData[2].x == r.tsData[3].x
      && r.maxTemperature == Some(r.tsData[2].y)
  {
  }

  /**
   * Within the ranges the parameter sliders offer, the computation is defined
   * and the cycle is a genuine engine: heat flows and net work are positive
   * and the efficiency lies strictly between 0 and 1.
   */
  lemma RankineNominalRange(p: RankineParams)
    requires 1.0 <= p.boilerPressure <= 20.0
    requires 0.001 <= p.condenserPressure <= 0.1
    requires 0.5 <= p.pumpEfficiency <= 1.0
    requires 0.5 <= p.turbineEfficiency <= 1.0
    ensures RankineDefined(p)
    ensures var r := CalculateRankineCycle(Some(p));
      && r.heatInput > 0.0 && r.heatRejected > 0.0 && r.workOutput > 0.0
      && 0.0 < r.efficiency < 1.0
  {
    var d := p.boilerPressure - p.condenserPressure;
    var w := RankinePumpWork(p);
    assert 0.001 * d * 1000.0 == d;
    assert w * p.pumpEfficiency == d;
    assert w > 0.0;
    assert w <= 40.0 by {
      assert w * 0.5 <= w * p.pumpEfficiency;
    }
    var r := CalculateRankineCycle(Some(p));
    assert r.heatInput == 3200.0 - w;
    assert r.workOutput == 2560.0 * p.turbineEfficiency - w;
    assert r.efficiency == r.workOutput / r.heatInput;
    assert 0.0 < r.workOutput < r.heatInput;
    assert r.efficiency * r.heatInput == r.workOutput;
    assert r.efficiency < 1.0;
  }

  // ------------------------------------------------------------------- Otto

  /** Every divisor of the Otto computation is non-zero. */
  predicate OttoDefined(m: MathLib, p: OttoParams) {
    && p.initialPressure != 0.0
    && p.compressionRatio != 0.0
    && p.initialTemperature + 273.15 != 0.0
    && Pow(m, p.compressionRatio, k - 1.0) != 0.0
    && Pow(m, p.compressionRatio, k) != 0.0
  }

  function CalculateOttoCycle(m: MathLib, params: Option<OttoParams>): (r: CycleResult)
    requires params.Some? ==> OttoDefined(m, params.value)
    ensures params.None? ==> r == ZeroResult
    ensures params.Some? ==> IsClosedLoop(r) && EnergyBalanced(r)
  {
    match params
    case None => ZeroResult
    case Some(p) =>
      var T1 := p.initialTemperature + 273.15;
      // state 1
      var v1 := (R * T1) / (p.initialPressure * 1000.0);
      var p1 := p.initialPressure;
      // state 2: isentropic compression
      var v2 := v1 / p.compressionRatio;
      var T2 := T1 * Pow(m, p.compressionRatio, k - 1.0);
      var p2 := p1 * Pow(m, p.compressionRatio, k);
      // state 3: constant-volume heat addition
      var T3 := T2 + p.heatInput / cv;
      var p3 := p2 * (T3 / T2);
      var v3 := v2;
      // state 4: isentropic expansion
      var T4 := T3 / Pow(m, p.compressionRatio, k - 1.0);
      var p4 := p3 / Pow(m, p.compressionRatio, k);
      var v4 := v1;
      var heatInputActual := cv * (T3 - T2);
      var heatRejected := cv * (T4 - T1);
      var workOutput := heatInputActual - heatRejected;
      var efficiency := 1.0 - 1.0 / Pow(m, p.compressionRatio, k - 1.0);
      var pvData := [
        StatePoint(v1, p1), StatePoint(v2, p2), StatePoint(v3, p3),
        StatePoint(v4, p4), StatePoint(v1, p1)];
      var tsData := [
        StatePoint(cv * Log(m, v1 / 0.7), T1),
        StatePoint(cv * Log(m, v2 / 0.7), T2),
        StatePoint(cv * Log(m, v3 / 0.7), T3),
        StatePoint(cv * Log(m, v4 / 0.7), T4),
        StatePoint(cv * Log(m, v1 / 0.7), T1)];
      CycleResult(efficiency, workOutput, heatInputActual, heatRejected, pvData, tsData,
                  Some(0.0), Some(T3), Some(p3))
  }

  /** The Otto efficiency is a function of the compression ratio alone. */
  lemma OttoEfficiencyDependsOnlyOnCompressionRatio(m: MathLib, p: OttoParams, q: OttoParams)
    requires OttoDefined(m, p) && OttoDefined(m, q)
    requires p.compressionRatio == q.compressionRatio
    ensures CalculateOttoCycle(m, Some(p)).efficiency == CalculateOttoCycle(m, Some(q)).efficiency
    ensures CalculateOttoCycle(m, Some(p)).efficiency == 1.0 - 1.0 / Pow(m, p.compressionRatio, 0.4)
  {
  }

  /**
   * State relations: v3 = v2, v4 = v1, v1 = r v2; the reported heat input
   * is the requested one; T4 T2 = T3 T1 and p4 p2 = p3 p1; the maximum
   * temperature and pressure are those of state 3.
   */
  lemma OttoStateRelations(m: MathLib, p: OttoParams)
    requires OttoDefined(m, p)
    ensures var r := CalculateOttoCycle(m, Some(p));
      && r.pvData[2].x == r.pvData[1].x
      && r.pvData[3].x == r.pvData[0].x
      && r.pvData[1].x * p.compressionRatio == r.pvData[0].x
      && r.heatInput == p.heatInput
      && r.tsData[3].y * r.tsData[1].y == r.tsData[2].y * r.tsData[0].y
      && r.pvData[3].y * r.pvData[1].y == r.pvData[2].y * r.pvData[0].y
      && r.maxTemperature == Some(r.tsData[2].y)
      && r.maxPressure == Some(r.pvData[2].y)
  {
    var P := Pow(m, p.compressionRatio, k - 1.0);
    var Q := Pow(m, p.compressionRatio, k);
    var T1 := p.initialTemperature + 273.15;
    var T2 := T1 * P;
    var T3 := T2 + p.heatInput / cv;
    var p3 := (p.initialPressure * Q) * (T3 / T2);
    assert (T3 / P) * T2 == T3 * T1;
    assert (p3 / Q) * (p.initialPressure * Q) == p3 * p.initialPressure;
    var v1 := (R * T1) / (p.initialPressure * 1000.0);
    assert (v1 / p.compressionRatio) * p.compressionRatio == v1;
  }

  /** Heat rejected is the heat input scaled by 1 / r^(k-1). */
  lemma OttoHeatRejected(m: MathLib, p: OttoParams)
    requires OttoDefined(m, p)
    ensures var r := CalculateOttoCycle(m, Some(p));
      r.heatRejected * Pow(m, p.compressionRatio, k - 1.0) == r.heatInput
  {
    var P := Pow(m, p.compressionRatio, k - 1.0);
    var T1 := p.initialTemperature + 273.15;
    var T2 := T1 * P;
    var T3 := T2 + p.heatInput / cv;
    var T4 := T3 / P;
    assert (T4 - T1) * P == T3 - T2;
    assert cv * (T4 - T1) * P == cv * (T3 - T2);
  }

  /** Net work over heat input is the reported efficiency whenever heat is added at all. */
  lemma OttoEfficiencyConsistent(m: MathLib, p: OttoParams)
    requires OttoDefined(m, p)
    requires p.heatInput != 0.0
    ensures var r := CalculateOttoCycle(m, Some(p));
      r.heatInput != 0.0 && r.workOutput / r.heatInput == r.efficiency
  {
    OttoStateRelations(m, p);
    OttoHeatRejected(m, p);
    var r := CalculateOttoCycle(m, Some(p));
    var P := Pow(m, p.compressionRatio, k - 1.0);
    var q := r.heatInput;
    assert r.heatRejected == q / P;
    assert r.workOutput == q - q / P;
    assert q != 0.0;
    assert (q - q / P) / q == q / q - (q / P) / q;
    assert (q / P) / q == 1.0 / P;
  }

  /** For a positive compression ratio and positive heat input, both heat flows are positive and the efficiency is below 1. */
  lemma OttoHeatFlowsPositive(m: MathLib, p: OttoParams)
    requires PowPositive(m)
    requires OttoDefined(m, p)
    requires p.compressionRatio > 0.0 && p.heatInput > 0.0
    ensures var r := CalculateOttoCycle(m, Some(p));
      && r.heatInput > 0.0 && r.heatRejected > 0.0
      && r.workOutput < r.heatInput && r.efficiency < 1.0
  {
    OttoStateRelations(m, p);
    OttoHeatRejected(m, p);
    var P := Pow(m, p.compressionRatio, k - 1.0);
    assert P > 0.0;
  }

  /** Physically meaningful Otto inputs never divide by zero. */
  lemma OttoDefinedOnPhysicalInputs(m: MathLib, p: OttoParams)
    requires PowPositive(m)
    requires p.initialPressure > 0.0 && p.initialTemperature > -273.15 && p.compressionRatio > 0.0
    ensures OttoDefined(m, p)
  {
    assert Pow(m, p.compressionRatio, k - 1.0) > 0.0;
    assert Pow(m, p.compressionRatio, k) > 0.0;
  }

  // ----------------------------------------------------------------- Diesel

  /** Every divisor of the Diesel computation is non-zero; at cutoff ratio 1 the efficiency is 0/0. */
  predicate DieselDefined(m: MathLib, p: DieselParams) {
    && p.initialPressure != 0.0
    && p.compressionRatio != 0.0
    && p.initialTemperature + 273.15 != 0.0
    && Pow(m, p.compressionRatio, k - 1.0) != 0.0
    && p.cutoffRatio != 1.0
  }

  /**
   * `calculateDieselCycle`. The destructured `heatInput` is never read, so
   * the states are computed from the other four fields alone.
   */
  function CalculateDieselCycle(m: MathLib, params: Option<DieselParams>): (r: CycleResult)
    requires params.Some? ==> DieselDefined(m, params.value)
    ensures params.None? ==> r == ZeroResult
    ensures params.Some? ==> IsClosedLoop(r) && EnergyBalanced(r)
  {
    match params
    case None => ZeroResult
    case Some(p) =>
      DieselStates(m, p.initialPressure, p.initialTemperature, p.compressionRatio, p.cutoffRatio)
  }

  function DieselStates(m: MathLib, initialPressure: real, initialTemperature: real,
                        compressionRatio: real, cutoffRatio: real): (r: CycleResult)
    requires DieselDefined(m, DieselParams(initialPressure, initialTemperature, compressionRatio, cutoffRatio, 0.0))
    ensures IsClosedLoop(r) && EnergyBalanced(r)
    ensures r.tsData[2].y == cutoffRatio * r.tsData[1].y
    ensures r.heatInput == cp * (cutoffRatio - 1.0) * r.tsData[1].y
  {
    var T1 := initialTemperature + 273.15;
    // state 1
    var v1 := (R * T1) / (initialPressure * 1000.0);
    var p1 := initialPressure;
    // state 2: isentropic compression, as in the Otto cycle
    var v2 := v1 / compressionRatio;
    var T2 := T1 * Pow(m, compressionRatio, k - 1.0);
    var p2 := p1 * Pow(m, compressionRatio, k);
    // state 3: constant-pressure heat addition
    var v3 := v2 * cutoffRatio;
    var T3 := T2 * cutoffRatio;
    var p3 := p2;
    // state 4: isentropic expansion back to v1
    var T4 := T3 * Pow(m, v3 / v1, 1.0 - k);
    var p4 := p3 * Pow(m, v3 / v1, -k);
    var v4 := v1;
    var heatInputActual := cp * (T3 - T2);
    ConstantPressureHeat(T2, cutoffRatio, T3, heatInputActual);
    var heatRejected := cv * (T4 - T1);
    var workOutput := heatInputActual - heatRejected;
    var efficiency := 1.0 - (1.0 / Pow(m, compressionRatio, k - 1.0))
                            * ((Pow(m, cutoffRatio, k) - 1.0) / (k * (cutoffRatio - 1.0)));
    var pvData := [
      StatePoint(v1, p1), StatePoint(v2, p2), StatePoint(v3, p3),
      StatePoint(v4, p4), StatePoint(v1, p1)];
    var tsData := [
      StatePoint(cv * Log(m, v1 / 0.7), T1),
      StatePoint(cv * Log(m, v2 / 0.7), T2),
      StatePoint(cp * Log(m, v3 / v2) + cv * Log(m, v2 / 0.7), T3),
      StatePoint(cv * Log(m, v4 / 0.7), T4),
      StatePoint(cv * Log(m, v1 / 0.7), T1)];
    CycleResult(efficiency, workOutput, heatInputActual, heatRejected, pvData, tsData,
                Some(0.0), Some(T3), Some(p3))
  }

  /** States 1 and 2 of a Diesel cycle are those of the Otto cycle with the same intake and compression ratio. */
  lemma DieselSharesOttoCompression(m: MathLib, d: DieselParams, o: OttoParams)
    requires DieselDefined(m, d) && OttoDefined(m, o)
    requires o.initialPressure == d.initialPressure
    requires o.initialTemperature == d.initialTemperature
    requires o.compressionRatio == d.compressionRatio
    ensures var rd, ro := CalculateDieselCycle(m, Some(d)), CalculateOttoCycle(m, Some(o));
      rd.pvData[..2] == ro.pvData[..2] && rd.tsData[..2] == ro.tsData[..2]
  {
    var rd, ro := CalculateDieselCycle(m, Some(d)), CalculateOttoCycle(m, Some(o));
    assert rd.pvData[0] == ro.pvData[0] && rd.pvData[1] == ro.pvData[1];
    assert rd.tsData[0] == ro.tsData[0] && rd.tsData[1] == ro.tsData[1];
  }

  /**
   * Constant-pressure heat addition: p3 = p2, v3 = rc v2, T3 = rc T2, the
   * heat added is cp (rc - 1) T2, the expansion ends at v1, and the maxima
   * are those of state 3.
   */
  lemma DieselStateRelations(m: MathLib, p: DieselParams)
    requires DieselDefined(m, p)
    ensures var r := CalculateDieselCycle(m, Some(p));
      && r.pvData[2].y == r.pvData[1].y
      && r.pvData[2].x == p.cutoffRatio * r.pvData[1].x
      && r.tsData[2].y == p.cutoffRatio * r.tsData[1].y
      && r.pvData[3].x == r.pvData[0].x
      && r.heatInput == cp * (p.cutoffRatio - 1.0) * r.tsData[1].y
      && r.maxTemperature == Some(r.tsData[2].y)
      && r.maxPressure == Some(r.pvData[2].y)
  {
    DieselHeatAddition(m, p);
    DieselExpansionAndMaxima(m, p);
    DieselHeatInput(m, p);
  }

  lemma DieselHeatAddition(m: MathLib, p: DieselParams)
    requires DieselDefined(m, p)
    ensures var r := CalculateDieselCycle(m, Some(p));
      && r.pvData[2].y == r.pvData[1].y
      && r.pvData[2].x == p.cutoffRatio * r.pvData[1].x
      && r.tsData[2].y == p.cutoffRatio * r.tsData[1].y
  {
  }

  lemma DieselExpansionAndMaxima(m: MathLib, p: DieselParams)
    requires DieselDefined(m, p)
    ensures var r := CalculateDieselCycle(m, Some(p));
      && r.pvData[3].x == r.pvData[0].x
      && r.maxTemperature == Some(r.tsData[2].y)
      && r.maxPressure == Some(r.pvData[2].y)
  {
  }

  lemma DieselHeatInput(m: MathLib, p: DieselParams)
    requires DieselDefined(m, p)
    ensures var r := CalculateDieselCycle(m, Some(p));
      r.heatInput == cp * (p.cutoffRatio - 1.0) * r.tsData[1].y
  {
  }

  /** Heat added at constant pressure when the temperature grows by the cutoff ratio. */
  lemma ConstantPressureHeat(t2: real, rc: real, t3: real, q: real)
    requires t3 == t2 * rc && q == cp * (t3 - t2)
    ensures q == cp * (rc - 1.0) * t2 && t3 == rc * t2
  {
  }

  /** The `heatInput` parameter is read but never used: no Diesel output depends on it. */
  lemma DieselIgnoresHeatInput(m: MathLib, p: DieselParams, h: real)
    requires DieselDefined(m, p)
    ensures CalculateDieselCycle(m, Some(p)) == CalculateDieselCycle(m, Some(p.(heatInput := h)))
  {
    var q := p.(heatInput := h);
    assert DieselDefined(m, q);
  }

  /** Diesel efficiency is the Otto efficiency's loss term scaled by the cutoff factor (rc^k - 1) / (k (rc - 1)). */
  lemma DieselEfficiencyFactorsOtto(m: MathLib, d: DieselParams, o: OttoParams)
    requires DieselDefined(m, d) && OttoDefined(m, o)
    requires o.compressionRatio == d.compressionRatio
    ensures 1.0 - CalculateDieselCycle(m, Some(d)).efficiency
         == (1.0 - CalculateOttoCycle(m, Some(o)).efficiency)
            * ((Pow(m, d.cutoffRatio, k) - 1.0) / (k * (d.cutoffRatio - 1.0)))
  {
  }

  /** Physically meaningful Diesel inputs with a cutoff ratio other than 1 never divide by zero. */
  lemma DieselDefinedOnPhysicalInputs(m: MathLib, p: DieselParams)
    requires PowPositive(m)
    requires p.initialPressure > 0.0 && p.initialTemperature > -273.15 && p.compressionRatio > 0.0
    requires p.cutoffRatio != 1.0
    ensures DieselDefined(m, p)
  {
    assert Pow(m, p.compressionRatio, k - 1.0) > 0.0;
  }
}
