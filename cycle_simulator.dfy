/**
 * The simulator page: the parameter records of all three cycles, the
 * update that a slider or number field triggers, the dispatch from the
 * selected cycle type to its calculator, and the export button's guard.
 */
module CycleSimulator {
  import opened Wrappers
  import opened Records
  import opened Thermodynamics
  import opened CycleParameters

  /** `parameters`: one record of named values per cycle type. */
  type Parameters = Record<Record<real>>

  const InitialRankine: Record<real> := [
    (BoilerPressure, 8.0), (BoilerTemperature, 500.0), (CondenserPressure, 0.008),
    (PumpEfficiency, 0.85), (TurbineEfficiency, 0.87)]

  const InitialOtto: Record<real> := [
    (InitialPressure, 0.1), (InitialTemperature, 25.0), (CompressionRatio, 8.0), (HeatInput, 1800.0)]

  const InitialDiesel: Record<real> := [
    (InitialPressure, 0.1), (InitialTemperature, 25.0), (CompressionRatio, 16.0),
    (CutoffRatio, 2.0), (HeatInput, 1800.0)]

  const InitialParameters: Parameters :=
    [(RankineType, InitialRankine), (OttoType, InitialOtto), (DieselType, InitialDiesel)]

  /**
   * `handleParameterChange`: the selected cycle's record gets `name` set
   * to `value`; a missing record spreads as the empty object.
   */
  function UpdateParameters(parameters: Parameters, cycleType: string, name: string, value: real): Parameters {
    Set(parameters, cycleType, Set(Get(parameters, cycleType).GetOr([]), name, value))
  }

  /** After the update the selected cycle's `name` holds `value`. */
  lemma UpdateSetsValue(parameters: Parameters, cycleType: string, name: string, value: real)
    ensures Get(UpdateParameters(parameters, cycleType, name, value), cycleType).Some?
    ensures Get(Get(UpdateParameters(parameters, cycleType, name, value), cycleType).value, name) == Some(value)
  {
    var record := Get(parameters, cycleType).GetOr([]);
    GetSetSame(parameters, cycleType, Set(record, name, value));
    GetSetSame(record, name, value);
  }

  /** Every other field of the selected cycle keeps its value. */
  lemma UpdateKeepsOtherFields(parameters: Parameters, cycleType: string, name: string, value: real, other: string)
    requires other != name
    ensures Get(UpdateParameters(parameters, cycleType, name, value), cycleType).Some?
    ensures Get(Get(UpdateParameters(parameters, cycleType, name, value), cycleType).value, other)
         == Get(Get(parameters, cycleType).GetOr([]), other)
  {
    var record := Get(parameters, cycleType).GetOr([]);
    GetSetSame(parameters, cycleType, Set(record, name, value));
    GetSetOther(record, name, value, other);
  }

  /** The records of the other cycle types are untouched. */
  lemma UpdateKeepsOtherCycles(parameters: Parameters, cycleType: string, name: string, value: real, otherType: string)
    requires otherType != cycleType
    ensures Get(UpdateParameters(parameters, cycleType, name, value), otherType) == Get(parameters, otherType)
  {
    GetSetOther(parameters, cycleType, Set(Get(parameters, cycleType).GetOr([]), name, value), otherType);
  }

  /** Every parameter a configuration lists is a key of the record. */
  predicate HasAll(record: Record<real>, config: seq<ParamSpec>) {
    forall i :: 0 <= i < |config| ==> config[i].name in Keys(record)
  }

  /** All three cycles have a record holding every configured parameter. */
  predicate Complete(parameters: Parameters) {
    && Get(parameters, RankineType).Some? && HasAll(Get(parameters, RankineType).value, RankineConfig)
    && Get(parameters, OttoType).Some? && HasAll(Get(parameters, OttoType).value, OttoConfig)
    && Get(parameters, DieselType).Some? && HasAll(Get(parameters, DieselType).value, DieselConfig)
  }

  lemma InitialRankineComplete()
    ensures HasAll(InitialRankine, RankineConfig)
  {
    assert Keys(InitialRankine) == [BoilerPressure, BoilerTemperature, CondenserPressure, PumpEfficiency, TurbineEfficiency];
  }

  lemma InitialOttoComplete()
    ensures HasAll(InitialOtto, OttoConfig)
  {
    assert Keys(InitialOtto) == [InitialPressure, InitialTemperature, CompressionRatio, HeatInput];
  }

  lemma InitialDieselComplete()
    ensures HasAll(InitialDiesel, DieselConfig)
  {
    assert Keys(InitialDiesel) == [InitialPressure, InitialTemperature, CompressionRatio, CutoffRatio, HeatInput];
  }

  /** The initial state holds a full record for each cycle. */
  lemma InitialComplete()
    ensures Complete(InitialParameters)
  {
    InitialKeysDistinct();
    GetAt(InitialParameters, 0);
    GetAt(InitialParameters, 1);
    GetAt(InitialParameters, 2);
    InitialRankineComplete();
    InitialOttoComplete();
    InitialDieselComplete();
  }

  /** Setting a field never removes a key. */
  lemma SetKeepsKeys(record: Record<real>, name: string, value: real, key: string)
    requires key in Keys(record)
    ensures key in Keys(Set(record, name, value))
  {
    KeysSet(record, name, value);
  }

  lemma UpdateKeepsHasAll(parameters: Parameters, cycleType: string, name: string, value: real,
                          target: string, config: seq<ParamSpec>)
    requires Get(parameters, target).Some? && HasAll(Get(parameters, target).value, config)
    ensures Get(UpdateParameters(parameters, cycleType, name, value), target).Some?
    ensures HasAll(Get(UpdateParameters(parameters, cycleType, name, value), target).value, config)
  {
    if target == cycleType {
      UpdateSetsValue(parameters, cycleType, name, value);
      var record := Get(parameters, cycleType).value;
      GetSetSame(parameters, cycleType, Set(record, name, value));
      forall i | 0 <= i < |config| ensures config[i].name in Keys(Set(record, name, value)) {
        SetKeepsKeys(record, name, value, config[i].name);
      }
    } else {
      UpdateKeepsOtherCycles(parameters, cycleType, name, value, target);
    }
  }

  /** Parameter changes keep every cycle's record complete. */
  lemma UpdateKeepsComplete(parameters: Parameters, cycleType: string, name: string, value: real)
    requires Complete(parameters)
    ensures Complete(UpdateParameters(parameters, cycleType, name, value))
  {
    UpdateKeepsHasAll(parameters, cycleType, name, value, RankineType, RankineConfig);
    UpdateKeepsHasAll(parameters, cycleType, name, value, OttoType, OttoConfig);
    UpdateKeepsHasAll(parameters, cycleType, name, value, DieselType, DieselConfig);
  }

  /** The value of a configured parameter. */
  function Field(record: Record<real>, config: seq<ParamSpec>, i: nat): (v: real)
    requires i < |config| && HasAll(record, config)
    ensures Get(record, config[i].name) == Some(v)
  {
    Get(record, config[i].name).value
  }

  /** `parameters.rankine` as the calculator destructures it. */
  function RankineOf(record: Record<real>): (p: RankineParams)
    requires HasAll(record, RankineConfig)
    ensures Get(record, BoilerPressure) == Some(p.boilerPressure)
    ensures Get(record, BoilerTemperature) == Some(p.boilerTemperature)
    ensures Get(record, CondenserPressure) == Some(p.condenserPressure)
    ensures Get(record, PumpEfficiency) == Some(p.pumpEfficiency)
    ensures Get(record, TurbineEfficiency) == Some(p.turbineEfficiency)
  {
    RankineParams(
      Field(record, RankineConfig, 0), Field(record, RankineConfig, 1), Field(record, RankineConfig, 2),
      Field(record, RankineConfig, 3), Field(record, RankineConfig, 4))
  }

  /** `parameters.otto` as the calculator destructures it. */
  function OttoOf(record: Record<real>): (p: OttoParams)
    requires HasAll(record, OttoConfig)
    ensures Get(record, InitialPressure) == Some(p.initialPressure)
    ensures Get(record, InitialTemperature) == Some(p.initialTemperature)
    ensures Get(record, CompressionRatio) == Some(p.compressionRatio)
    ensures Get(record, HeatInput) == Some(p.heatInput)
  {
    OttoParams(
      Field(record, OttoConfig, 0), Field(record, OttoConfig, 1),
      Field(record, OttoConfig, 2), Field(record, OttoConfig, 3))
  }

  /** `parameters.diesel` as the calculator destructures it. */
  function DieselOf(record: Record<real>): (p: DieselParams)
    requires HasAll(record, DieselConfig)
    ensures Get(record, InitialPressure) == Some(p.initialPressure)
    ensures Get(record, InitialTemperature) == Some(p.initialTemperature)
    ensures Get(record, CompressionRatio) == Some(p.compressionRatio)
    ensures Get(record, CutoffRatio) == Some(p.cutoffRatio)
    ensures Get(record, HeatInput) == Some(p.heatInput)
  {
    DieselParams(
      Field(record, DieselConfig, 0), Field(record, DieselConfig, 1), Field(record, DieselConfig, 2),
      Field(record, DieselConfig, 3), Field(record, DieselConfig, 4))
  }

  /** No division by zero in the calculator the selected type dispatches to. */
  predicate CalculationDefined(m: MathLib, cycleType: string, parameters: Parameters)
    requires Complete(parameters)
  {
    && (cycleType == RankineType ==> RankineDefined(RankineOf(Get(parameters, RankineType).value)))
    && (cycleType == OttoType ==> OttoDefined(m, OttoOf(Get(parameters, OttoType).value)))
    && (cycleType == DieselType ==> DieselDefined(m, DieselOf(Get(parameters, DieselType).value)))
  }

  /**
   * The `switch` in `calculateCycle`: each known type runs its own
   * calculator on its own record; any other type gives `null`.
   */
  function CalculateCycle(m: MathLib, cycleType: string, parameters: Parameters): (result: Option<CycleResult>)
    requires Complete(parameters) && CalculationDefined(m, cycleType, parameters)
    ensures result.Some? <==> cycleType in {RankineType, OttoType, DieselType}
    ensures result.Some? ==> IsClosedLoop(result.value) && EnergyBalanced(result.value)
  {
    if cycleType == RankineType then
      Some(CalculateRankineCycle(Some(RankineOf(Get(parameters, RankineType).value))))
    else if cycleType == OttoType then
      Some(CalculateOttoCycle(m, Some(OttoOf(Get(parameters, OttoType).value))))
    else if cycleType == DieselType then
      Some(CalculateDieselCycle(m, Some(DieselOf(Get(parameters, DieselType).value))))
    else None
  }

  /**
   * Each known type's result is its own calculator applied to its own
   * record, so the calculators' lemmas carry over to what the page shows.
   */
  lemma DispatchRunsOwnCalculator(m: MathLib, cycleType: string, parameters: Parameters)
    requires Complete(parameters) && CalculationDefined(m, cycleType, parameters)
    ensures cycleType == RankineType ==>
      CalculateCycle(m, cycleType, parameters)
        == Some(CalculateRankineCycle(Some(RankineOf(Get(parameters, RankineType).value))))
    ensures cycleType == OttoType ==>
      CalculateCycle(m, cycleType, parameters)
        == Some(CalculateOttoCycle(m, Some(OttoOf(Get(parameters, OttoType).value))))
    ensures cycleType == DieselType ==>
      CalculateCycle(m, cycleType, parameters)
        == Some(CalculateDieselCycle(m, Some(DieselOf(Get(parameters, DieselType).value))))
  {
  }

  /**
   * The Otto result the page stores has the efficiency 1 - 1/r^0.4 of
   * the compression ratio in the Otto record.
   */
  lemma DispatchedOttoEfficiency(m: MathLib, parameters: Parameters, r: real)
    requires Complete(parameters) && CalculationDefined(m, OttoType, parameters)
    requires Get(Get(parameters, OttoType).value, CompressionRatio) == Some(r)
    ensures CalculateCycle(m, OttoType, parameters).value.efficiency == 1.0 - 1.0 / Pow(m, r, 0.4)
  {
    var p := OttoOf(Get(parameters, OttoType).value);
    assert p.compressionRatio == r;
    DispatchRunsOwnCalculator(m, OttoType, parameters);
    OttoEfficiencyDependsOnlyOnCompressionRatio(m, p, p);
  }

  /** The result depends on the selected cycle's record only. */
  lemma CalculationReadsOwnRecord(m: MathLib, cycleType: string, parameters: Parameters, parameters': Parameters)
    requires Complete(parameters) && Complete(parameters')
    requires Get(parameters, cycleType) == Get(parameters', cycleType)
    requires CalculationDefined(m, cycleType, parameters)
    ensures CalculationDefined(m, cycleType, parameters')
    ensures CalculateCycle(m, cycleType, parameters) == CalculateCycle(m, cycleType, parameters')
  {
  }

  /** Editing one cycle's parameter leaves every other cycle's result as it was. */
  lemma EditDoesNotAffectOtherCycles(m: MathLib, cycleType: string, name: string, value: real,
                                     parameters: Parameters, otherType: string)
    requires Complete(parameters) && otherType != cycleType
    requires CalculationDefined(m, otherType, parameters)
    ensures Complete(UpdateParameters(parameters, cycleType, name, value))
    ensures CalculationDefined(m, otherType, UpdateParameters(parameters, cycleType, name, value))
    ensures CalculateCycle(m, otherType, UpdateParameters(parameters, cycleType, name, value))
         == CalculateCycle(m, otherType, parameters)
  {
    UpdateKeepsComplete(parameters, cycleType, name, value);
    UpdateKeepsOtherCycles(parameters, cycleType, name, value, otherType);
    CalculationReadsOwnRecord(m, otherType, parameters, UpdateParameters(parameters, cycleType, name, value));
  }

  /** The outer `catch` result: four zero metrics, no diagram points, no optional fields. */
  const SimulatorFallback: CycleResult := CycleResult(0.0, 0.0, 0.0, 0.0, [], [], None, None, None)

  /**
   * The calculators fill all three optional fields, so what the
   * simulator receives is never its own fallback: the outer `catch`
   * has nothing to catch.
   */
  lemma DispatchNeverFallsBack(m: MathLib, cycleType: string, parameters: Parameters)
    requires Complete(parameters) && CalculationDefined(m, cycleType, parameters)
    ensures var result := CalculateCycle(m, cycleType, parameters);
      result.Some? ==>
        && result.value.steamQuality.Some?
        && result.value.maxTemperature.Some?
        && result.value.maxPressure.Some?
        && result.value != SimulatorFallback
  {
  }

  lemma PumpWorkBound(p: RankineParams)
    requires 1.0 <= p.boilerPressure <= 20.0 && 0.001 <= p.condenserPressure <= 0.1
    requires 0.5 <= p.pumpEfficiency <= 1.0
    ensures RankinePumpWork(p) <= 40.0
  {
    var work := RankinePumpWork(p);
    var drop := 0.001 * (p.boilerPressure - p.condenserPressure) * 1000.0;
    assert drop <= 20.0;
    assert work * p.pumpEfficiency == drop;
  }

  /** Values the Rankine sliders offer never divide by zero. */
  lemma RankineSlidersDefined(record: Record<real>)
    requires WithinSliders(RankineConfig, record) && HasAll(record, RankineConfig)
    ensures RankineDefined(RankineOf(record))
  {
    var p := RankineOf(record);
    SliderBound(RankineConfig, record, 0, BoilerPressure, 1.0, 20.0);
    SliderBound(RankineConfig, record, 2, CondenserPressure, 0.001, 0.1);
    SliderBound(RankineConfig, record, 3, PumpEfficiency, 0.5, 1.0);
    PumpWorkBound(p);
  }

  /** Values the Otto sliders offer never divide by zero. */
  lemma OttoSlidersDefined(m: MathLib, record: Record<real>)
    requires PowPositive(m)
    requires WithinSliders(OttoConfig, record) && HasAll(record, OttoConfig)
    ensures OttoDefined(m, OttoOf(record))
  {
    var p := OttoOf(record);
    SliderBound(OttoConfig, record, 0, InitialPressure, 0.05, 0.2);
    SliderBound(OttoConfig, record, 1, InitialTemperature, 0.0, 50.0);
    SliderBound(OttoConfig, record, 2, CompressionRatio, 4.0, 12.0);
    OttoDefinedOnPhysicalInputs(m, p);
  }

  /** Values the Diesel sliders offer never divide by zero; the cutoff slider starts above 1. */
  lemma DieselSlidersDefined(m: MathLib, record: Record<real>)
    requires PowPositive(m)
    requires WithinSliders(DieselConfig, record) && HasAll(record, DieselConfig)
    ensures DieselDefined(m, DieselOf(record))
  {
    var p := DieselOf(record);
    SliderBound(DieselConfig, record, 0, InitialPressure, 0.05, 0.2);
    SliderBound(DieselConfig, record, 1, InitialTemperature, 0.0, 50.0);
    SliderBound(DieselConfig, record, 2, CompressionRatio, 12.0, 24.0);
    CutoffSliderAvoidsOne(record);
    DieselDefinedOnPhysicalInputs(m, p);
  }

  lemma InitialKeysDistinct()
    ensures DistinctKeys(InitialRankine) && DistinctKeys(InitialOtto) && DistinctKeys(InitialDiesel)
    ensures DistinctKeys(InitialParameters)
  {
  }

  /** Every default value lies within its slider's range. */
  lemma InitialWithinSliders()
    ensures WithinSliders(RankineConfig, InitialRankine)
    ensures WithinSliders(OttoConfig, InitialOtto)
    ensures WithinSliders(DieselConfig, InitialDiesel)
  {
    InitialKeysDistinct();
    InitialRankineWithinSliders();
    InitialOttoWithinSliders();
    InitialDieselWithinSliders();
  }

  lemma InitialRankineWithinSliders()
    requires DistinctKeys(InitialRankine)
    ensures WithinSliders(RankineConfig, InitialRankine)
  {
    forall i | 0 <= i < 5 ensures Get(InitialRankine, RankineConfig[i].name) == Some(InitialRankine[i].1) {
      assert RankineConfig[i].name == InitialRankine[i].0;
      GetAt(InitialRankine, i);
    }
  }

  lemma InitialOttoWithinSliders()
    requires DistinctKeys(InitialOtto)
    ensures WithinSliders(OttoConfig, InitialOtto)
  {
    forall i | 0 <= i < 4 ensures Get(InitialOtto, OttoConfig[i].name) == Some(InitialOtto[i].1) {
      assert OttoConfig[i].name == InitialOtto[i].0;
      GetAt(InitialOtto, i);
    }
  }

  lemma InitialDieselWithinSliders()
    requires DistinctKeys(InitialDiesel)
    ensures WithinSliders(DieselConfig, InitialDiesel)
  {
    forall i | 0 <= i < 5 ensures Get(InitialDiesel, DieselConfig[i].name) == Some(InitialDiesel[i].1) {
      assert DieselConfig[i].name == InitialDiesel[i].0;
      GetAt(InitialDiesel, i);
    }
  }

  /** The page starts from these records, which the calculators read as the listed defaults. */
  lemma InitialRecords()
    ensures Get(InitialParameters, RankineType) == Some(InitialRankine)
    ensures Get(InitialParameters, OttoType) == Some(InitialOtto)
    ensures Get(InitialParameters, DieselType) == Some(InitialDiesel)
    ensures HasAll(InitialRankine, RankineConfig) && HasAll(InitialOtto, OttoConfig) && HasAll(InitialDiesel, DieselConfig)
    ensures RankineOf(InitialRankine) == RankineParams(8.0, 500.0, 0.008, 0.85, 0.87)
    ensures OttoOf(InitialOtto) == OttoParams(0.1, 25.0, 8.0, 1800.0)
    ensures DieselOf(InitialDiesel) == DieselParams(0.1, 25.0, 16.0, 2.0, 1800.0)
  {
    InitialComplete();
    InitialKeysDistinct();
    GetAt(InitialParameters, 0);
    GetAt(InitialParameters, 1);
    GetAt(InitialParameters, 2);
    InitialRankineValues();
    InitialOttoValues();
    InitialDieselValues();
  }

  lemma InitialRankineValues()
    requires DistinctKeys(InitialRankine) && HasAll(InitialRankine, RankineConfig)
    ensures RankineOf(InitialRankine) == RankineParams(8.0, 500.0, 0.008, 0.85, 0.87)
  {
    GetAt(InitialRankine, 0);
    GetAt(InitialRankine, 1);
    GetAt(InitialRankine, 2);
    GetAt(InitialRankine, 3);
    GetAt(InitialRankine, 4);
  }

  lemma InitialOttoValues()
    requires DistinctKeys(InitialOtto) && HasAll(InitialOtto, OttoConfig)
    ensures OttoOf(InitialOtto) == OttoParams(0.1, 25.0, 8.0, 1800.0)
  {
    GetAt(InitialOtto, 0);
    GetAt(InitialOtto, 1);
    GetAt(InitialOtto, 2);
    GetAt(InitialOtto, 3);
  }

  lemma InitialDieselValues()
    requires DistinctKeys(InitialDiesel) && HasAll(InitialDiesel, DieselConfig)
    ensures DieselOf(InitialDiesel) == DieselParams(0.1, 25.0, 16.0, 2.0, 1800.0)
  {
    GetAt(InitialDiesel, 0);
    GetAt(InitialDiesel, 1);
    GetAt(InitialDiesel, 2);
    GetAt(InitialDiesel, 3);
    GetAt(InitialDiesel, 4);
  }

  /** Every cycle's record holds values its sliders offer. */
  predicate OnSliders(parameters: Parameters)
    requires Complete(parameters)
  {
    && WithinSliders(RankineConfig, Get(parameters, RankineType).value)
    && WithinSliders(OttoConfig, Get(parameters, OttoType).value)
    && WithinSliders(DieselConfig, Get(parameters, DieselType).value)
  }

  /** Parameters set with the sliders never make a calculator divide by zero. */
  lemma OnSlidersDefined(m: MathLib, cycleType: string, parameters: Parameters)
    requires PowPositive(m) && Complete(parameters) && OnSliders(parameters)
    ensures CalculationDefined(m, cycleType, parameters)
  {
    RankineSlidersDefined(Get(parameters, RankineType).value);
    OttoSlidersDefined(m, Get(parameters, OttoType).value);
    DieselSlidersDefined(m, Get(parameters, DieselType).value);
  }

  /** The defaults are slider values, so the first calculation is defined for every type. */
  lemma InitialCalculationDefined(m: MathLib, cycleType: string)
    requires PowPositive(m)
    ensures Complete(InitialParameters)
    ensures CalculationDefined(m, cycleType, InitialParameters)
  {
    InitialRecords();
    InitialWithinSliders();
    OnSlidersDefined(m, cycleType, InitialParameters);
  }

  /**
   * A `setTimeout` callback scheduled by `calculateCycle`: it holds the
   * cycle type and the parameters of the render that scheduled it.
   */
  datatype PendingCalculation = PendingCalculation(cycleType: string, parameters: Parameters)

  /**
   * The simulator's state, as the page's React state holds it, and the
   * calculations scheduled but not yet run, oldest first. The effect on
   * `[cycleType, parameters]` calls `StartCalculation` after the page
   * mounts, after `SelectCycleType` and after `ChangeParameter`.
   */
  class Simulator {
    var cycleType: string
    var parameters: Parameters
    var cycleData: Option<CycleResult>
    var showAdvanced: bool
    var isCalculating: bool
    var showExportDialog: bool
    var pending: seq<PendingCalculation>

    /** Every cycle keeps a full parameter record, and so does every scheduled calculation. */
    ghost predicate Valid()
      reads this
    {
      && Complete(parameters)
      && forall i :: 0 <= i < |pending| ==> Complete(pending[i].parameters)
    }

    /** The page's initial state: Rankine selected, default records, no result yet. */
    constructor ()
      ensures Valid()
      ensures cycleType == RankineType && parameters == InitialParameters && cycleData == None
      ensures !showAdvanced && !isCalculating && !showExportDialog && pending == []
    {
      InitialComplete();
      cycleType := RankineType;
      parameters := InitialParameters;
      cycleData := None;
      showAdvanced := false;
      isCalculating := false;
      showExportDialog := false;
      pending := [];
    }

    /** A cycle-type button. */
    method SelectCycleType(t: string)
      modifies this
      ensures cycleType == t
      ensures parameters == old(parameters) && cycleData == old(cycleData)
      ensures showAdvanced == old(showAdvanced) && isCalculating == old(isCalculating)
      ensures showExportDialog == old(showExportDialog) && pending == old(pending)
      ensures old(Valid()) ==> Valid()
    {
      cycleType := t;
    }

    /** `handleParameterChange`, the panel's `onChange`. */
    method ChangeParameter(name: string, value: real)
      requires Valid()
      modifies this
      ensures Valid()
      ensures parameters == UpdateParameters(old(parameters), cycleType, name, value)
      ensures cycleType == old(cycleType) && cycleData == old(cycleData)
      ensures showAdvanced == old(showAdvanced) && isCalculating == old(isCalculating)
      ensures showExportDialog == old(showExportDialog) && pending == old(pending)
    {
      UpdateKeepsComplete(parameters, cycleType, name, value);
      parameters := UpdateParameters(parameters, cycleType, name, value);
    }

    /** The "Advanced Parameters" toggle. */
    method ToggleAdvanced()
      modifies this
      ensures showAdvanced == !old(showAdvanced)
      ensures cycleType == old(cycleType) && parameters == old(parameters) && cycleData == old(cycleData)
      ensures isCalculating == old(isCalculating) && showExportDialog == old(showExportDialog)
      ensures pending == old(pending)
      ensures old(Valid()) ==> Valid()
    {
      showAdvanced := !showAdvanced;
    }

    /**
     * The first half of `calculateCycle`: set the flag and schedule a
     * calculation of the current type and parameters behind any earlier one.
     */
    method StartCalculation()
      modifies this
      ensures isCalculating
      ensures pending == old(pending) + [PendingCalculation(old(cycleType), old(parameters))]
      ensures cycleType == old(cycleType) && parameters == old(parameters) && cycleData == old(cycleData)
      ensures showAdvanced == old(showAdvanced) && showExportDialog == old(showExportDialog)
      ensures old(Valid()) ==> Valid()
    {
      isCalculating := true;
      pending := pending + [PendingCalculation(cycleType, parameters)];
    }

    /**
     * The oldest scheduled callback fires: it dispatches on the type and
     * parameters it captured, whatever the page holds now, stores the
     * result and clears the flag, even while later callbacks are waiting.
     */
    method FinishCalculation(m: MathLib)
      requires Valid() && |pending| > 0
      requires CalculationDefined(m, pending[0].cycleType, pending[0].parameters)
      modifies this
      ensures Valid()
      ensures cycleData == CalculateCycle(m, old(pending[0].cycleType), old(pending[0].parameters))
      ensures pending == old(pending[1..])
      ensures !isCalculating
      ensures cycleType == old(cycleType) && parameters == old(parameters)
      ensures showAdvanced == old(showAdvanced) && showExportDialog == old(showExportDialog)
    {
      var job := pending[0];
      var result: Option<CycleResult>;
      if job.cycleType == RankineType {
        result := Some(CalculateRankineCycle(Some(RankineOf(Get(job.parameters, RankineType).value))));
      } else if job.cycleType == OttoType {
        result := Some(CalculateOttoCycle(m, Some(OttoOf(Get(job.parameters, OttoType).value))));
      } else if job.cycleType == DieselType {
        result := Some(CalculateDieselCycle(m, Some(DieselOf(Get(job.parameters, DieselType).value))));
      } else {
        result := None;
      }
      DispatchRunsOwnCalculator(m, job.cycleType, job.parameters);
      cycleData := result;
      isCalculating := false;
      pending := pending[1..];
    }

    /** `handleExport`: the dialog opens only when there is cycle data. */
    method Export()
      modifies this
      ensures showExportDialog == (old(showExportDialog) || old(cycleData).Some?)
      ensures cycleType == old(cycleType) && parameters == old(parameters) && cycleData == old(cycleData)
      ensures showAdvanced == old(showAdvanced) && isCalculating == old(isCalculating)
      ensures pending == old(pending)
      ensures old(Valid()) ==> Valid()
    {
      if cycleData.None? {
        return;
      }
      showExportDialog := true;
    }

    /** The dialog's `onClose`. */
    method CloseExport()
      modifies this
      ensures !showExportDialog
      ensures cycleType == old(cycleType) && parameters == old(parameters) && cycleData == old(cycleData)
      ensures showAdvanced == old(showAdvanced) && isCalculating == old(isCalculating)
      ensures pending == old(pending)
      ensures old(Valid()) ==> Valid()
    {
      showExportDialog := false;
    }
  }
}
