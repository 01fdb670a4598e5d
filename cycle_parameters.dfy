/**
 * The parameter panel: the slider configuration of each cycle, which
 * entries the panel lists with and without the advanced toggle, how
 * many decimals each value is shown with, and what the slider and the
 * number field pass on to the simulator.
 */
module CycleParameters {
  import opened Wrappers
  import opened Records
  import opened Display

  const RankineType: string := "rankine"
  const OttoType: string := "otto"
  const DieselType: string := "diesel"

  const BoilerPressure: string := "boilerPressure"
  const BoilerTemperature: string := "boilerTemperature"
  const CondenserPressure: string := "condenserPressure"
  const PumpEfficiency: string := "pumpEfficiency"
  const TurbineEfficiency: string := "turbineEfficiency"
  const InitialPressure: string := "initialPressure"
  const InitialTemperature: string := "initialTemperature"
  const CompressionRatio: string := "compressionRatio"
  const CutoffRatio: string := "cutoffRatio"
  const HeatInput: string := "heatInput"

  /** One slider: the parameter it sets, its label, its range and step, and whether it is advanced (`caption` is its label). */
  datatype ParamSpec = ParamSpec(
    name: string,
    caption: string,
    min: real,
    max: real,
    step: real,
    advanced: bool)

  const RankineConfig: seq<ParamSpec> := [
    ParamSpec(BoilerPressure, "Boiler Pressure (MPa)", 1.0, 20.0, 0.1, false),
    ParamSpec(BoilerTemperature, "Boiler Temperature (°C)", 300.0, 700.0, 5.0, false),
    ParamSpec(CondenserPressure, "Condenser Pressure (MPa)", 0.001, 0.1, 0.001, false),
    ParamSpec(PumpEfficiency, "Pump Efficiency", 0.5, 1.0, 0.01, true),
    ParamSpec(TurbineEfficiency, "Turbine Efficiency", 0.5, 1.0, 0.01, true)
  ]

  const OttoConfig: seq<ParamSpec> := [
    ParamSpec(InitialPressure, "Initial Pressure (MPa)", 0.05, 0.2, 0.01, false),
    ParamSpec(InitialTemperature, "Initial Temperature (°C)", 0.0, 50.0, 1.0, false),
    ParamSpec(CompressionRatio, "Compression Ratio", 4.0, 12.0, 0.1, false),
    ParamSpec(HeatInput, "Heat Input (kJ/kg)", 500.0, 3000.0, 50.0, true)
  ]

  const DieselConfig: seq<ParamSpec> := [
    ParamSpec(InitialPressure, "Initial Pressure (MPa)", 0.05, 0.2, 0.01, false),
    ParamSpec(InitialTemperature, "Initial Temperature (°C)", 0.0, 50.0, 1.0, false),
    ParamSpec(CompressionRatio, "Compression Ratio", 12.0, 24.0, 0.5, false),
    ParamSpec(CutoffRatio, "Cutoff Ratio", 1.2, 4.0, 0.1, false),
    ParamSpec(HeatInput, "Heat Input (kJ/kg)", 500.0, 3000.0, 50.0, true)
  ]

  /** `paramConfig[cycleType]`; `None` for a type without a configuration. */
  function ParamConfig(cycleType: string): (config: Option<seq<ParamSpec>>)
    ensures config.Some? <==> cycleType in {RankineType, OttoType, DieselType}
  {
    if cycleType == RankineType then Some(RankineConfig)
    else if cycleType == OttoType then Some(OttoConfig)
    else if cycleType == DieselType then Some(DieselConfig)
    else None
  }

  /** The entries the panel lists: all of them with the advanced toggle on, else the basic ones. */
  function FilteredParams(config: seq<ParamSpec>, showAdvanced: bool): (shown: seq<ParamSpec>)
    ensures showAdvanced ==> shown == config
    ensures forall p :: p in shown <==> p in config && (showAdvanced || !p.advanced)
    ensures |shown| <= |config|
  {
    if config == [] then []
    else
      var rest := FilteredParams(config[1..], showAdvanced);
      assert forall p :: p in config <==> p == config[0] || p in config[1..];
      if showAdvanced || !config[0].advanced then [config[0]] + rest else rest
  }

  /** Filtering distributes over concatenation, so the listed entries keep their order. */
  lemma {:induction false} FilterAppend(a: seq<ParamSpec>, b: seq<ParamSpec>, showAdvanced: bool)
    ensures FilteredParams(a + b, showAdvanced) == FilteredParams(a, showAdvanced) + FilteredParams(b, showAdvanced)
  {
    if a == [] {
      assert a + b == b;
    } else {
      assert (a + b)[0] == a[0];
      assert (a + b)[1..] == a[1..] + b;
      FilterAppend(a[1..], b, showAdvanced);
    }
  }

  /** The parameter names of a list of entries, in order. */
  function SpecNames(config: seq<ParamSpec>): (names: seq<string>)
    ensures |names| == |config|
    ensures forall i :: 0 <= i < |config| ==> names[i] == config[i].name
  {
    if config == [] then [] else [config[0].name] + SpecNames(config[1..])
  }

  /** The names of the advanced entries, in order. */
  function AdvancedNames(config: seq<ParamSpec>): (names: seq<string>)
    ensures forall n :: n in names <==> exists i :: 0 <= i < |config| && config[i].advanced && config[i].name == n
  {
    if config == [] then []
    else
      var rest := AdvancedNames(config[1..]);
      assert forall i :: 1 <= i < |config| ==> config[i] == config[1..][i - 1];
      if config[0].advanced then [config[0].name] + rest else rest
  }

  lemma {:induction false} AdvancedAppend(a: seq<ParamSpec>, b: seq<ParamSpec>)
    ensures AdvancedNames(a + b) == AdvancedNames(a) + AdvancedNames(b)
  {
    if a == [] {
      assert a + b == b;
    } else {
      assert (a + b)[0] == a[0];
      assert (a + b)[1..] == a[1..] + b;
      AdvancedAppend(a[1..], b);
    }
  }

  /** A list of basic entries is listed whole and has no advanced names. */
  lemma {:induction false} NoneAdvanced(config: seq<ParamSpec>)
    requires forall i :: 0 <= i < |config| ==> !config[i].advanced
    ensures FilteredParams(config, false) == config
    ensures AdvancedNames(config) == []
  {
    if config != [] {
      NoneAdvanced(config[1..]);
      assert config == [config[0]] + config[1..];
    }
  }

  /** A list of advanced entries is hidden entirely and all its names are advanced. */
  lemma {:induction false} AllAdvanced(config: seq<ParamSpec>)
    requires forall i :: 0 <= i < |config| ==> config[i].advanced
    ensures FilteredParams(config, false) == []
    ensures AdvancedNames(config) == SpecNames(config)
  {
    if config != [] {
      AllAdvanced(config[1..]);
    }
  }

  /** Basic entries up to position `split`, advanced ones after it. */
  lemma BasicThenAdvanced(config: seq<ParamSpec>, split: nat)
    requires split <= |config|
    requires forall i :: 0 <= i < split ==> !config[i].advanced
    requires forall i :: split <= i < |config| ==> config[i].advanced
    ensures FilteredParams(config, false) == config[..split]
    ensures AdvancedNames(config) == SpecNames(config[split..])
  {
    var basic, advanced := config[..split], config[split..];
    SplitParts(config, split, basic, advanced);
    BasicShown(basic, advanced);
    AdvancedListed(basic, advanced);
  }

  lemma SplitParts(config: seq<ParamSpec>, split: nat, basic: seq<ParamSpec>, advanced: seq<ParamSpec>)
    requires split <= |config| && basic == config[..split] && advanced == config[split..]
    requires forall i :: 0 <= i < split ==> !config[i].advanced
    requires forall i :: split <= i < |config| ==> config[i].advanced
    ensures config == basic + advanced
    ensures forall i :: 0 <= i < |basic| ==> !basic[i].advanced
    ensures forall i :: 0 <= i < |advanced| ==> advanced[i].advanced
  {
    forall i | 0 <= i < |advanced| ensures advanced[i].advanced {
      assert advanced[i] == config[split + i];
    }
  }

  lemma BasicShown(basic: seq<ParamSpec>, advanced: seq<ParamSpec>)
    requires forall i :: 0 <= i < |basic| ==> !basic[i].advanced
    requires forall i :: 0 <= i < |advanced| ==> advanced[i].advanced
    ensures FilteredParams(basic + advanced, false) == basic
  {
    FilterAppend(basic, advanced, false);
    NoneAdvanced(basic);
    AllAdvanced(advanced);
  }

  lemma AdvancedListed(basic: seq<ParamSpec>, advanced: seq<ParamSpec>)
    requires forall i :: 0 <= i < |basic| ==> !basic[i].advanced
    requires forall i :: 0 <= i < |advanced| ==> advanced[i].advanced
    ensures AdvancedNames(basic + advanced) == SpecNames(advanced)
  {
    AdvancedAppend(basic, advanced);
    NoneAdvanced(basic);
    AllAdvanced(advanced);
  }

  /** Rankine's pump and turbine efficiencies are its advanced entries, listed last. */
  lemma RankineAdvancedEntries()
    ensures AdvancedNames(RankineConfig) == [PumpEfficiency, TurbineEfficiency]
    ensures FilteredParams(RankineConfig, false) == RankineConfig[..3]
  {
    BasicThenAdvanced(RankineConfig, 3);
    assert SpecNames(RankineConfig[3..]) == [PumpEfficiency, TurbineEfficiency];
  }

  /** The heat input is Otto's only advanced entry, listed last. */
  lemma OttoAdvancedEntries()
    ensures AdvancedNames(OttoConfig) == [HeatInput]
    ensures FilteredParams(OttoConfig, false) == OttoConfig[..3]
  {
    BasicThenAdvanced(OttoConfig, 3);
    assert SpecNames(OttoConfig[3..]) == [HeatInput];
  }

  /** The heat input is Diesel's only advanced entry, listed last. */
  lemma DieselAdvancedEntries()
    ensures AdvancedNames(DieselConfig) == [HeatInput]
    ensures FilteredParams(DieselConfig, false) == DieselConfig[..4]
  {
    BasicThenAdvanced(DieselConfig, 4);
    assert SpecNames(DieselConfig[4..]) == [HeatInput];
  }

  /** The digit count a value is shown with: 3 below a step of 0.1, 2 below a step of 1, else 0. */
  function Decimals(step: real): (digits: nat)
    ensures digits == 3 <==> step < 0.1
    ensures digits == 2 <==> 0.1 <= step < 1.0
    ensures digits == 0 <==> 1.0 <= step
  {
    if step < 0.1 then 3 else if step < 1.0 then 2 else 0
  }

  /** A finer step never shows fewer decimals. */
  lemma DecimalsAntitone(finer: real, coarser: real)
    requires finer <= coarser
    ensures Decimals(finer) >= Decimals(coarser)
  {
  }

  /**
   * The value next to an entry's label. A parameter missing from the
   * record makes `toFixed` throw, shown here as `None`.
   */
  function ValueText(spec: ParamSpec, parameters: Record<real>): (t: Option<Text>)
    ensures t.Some? <==> spec.name in Keys(parameters)
    ensures t.Some? ==> t.value == Fixed(Get(parameters, spec.name).value, Decimals(spec.step), "")
  {
    match Get(parameters, spec.name)
    case None => None
    case Some(v) => Some(Fixed(v, Decimals(spec.step), ""))
  }

  /** What the panel asks the simulator to change: a parameter name and its new value. */
  datatype Change = Change(name: string, value: real)

  /** `handleSliderChange`: the slider's first value is passed on as it is. */
  function SliderChange(name: string, value: seq<real>): (c: Change)
    requires |value| > 0
    ensures c.name == name && c.value == value[0]
  {
    Change(name, value[0])
  }

  /**
   * `handleInputChange`: the number typed (`parsed`, `None` when
   * `parseFloat` gives NaN) is passed on only when there is one, and
   * without clamping it to the slider range.
   */
  function InputChange(name: string, parsed: Option<real>): (c: Option<Change>)
    ensures c.Some? <==> parsed.Some?
    ensures c.Some? ==> c.value == Change(name, parsed.value)
  {
    match parsed
    case None => None
    case Some(v) => Some(Change(name, v))
  }

  /** A typed compression ratio of 100 reaches the simulator although Otto's slider stops at 12. */
  lemma InputIsNotClamped()
    ensures InputChange(CompressionRatio, Some(100.0)) == Some(Change(CompressionRatio, 100.0))
    ensures OttoConfig[2].name == CompressionRatio && 100.0 > OttoConfig[2].max
  {
  }

  /** Every configured parameter is present and within its slider range. */
  predicate WithinSliders(config: seq<ParamSpec>, parameters: Record<real>) {
    forall i :: 0 <= i < |config| ==>
      && Get(parameters, config[i].name).Some?
      && config[i].min <= Get(parameters, config[i].name).value <= config[i].max
  }

  /** A value within the sliders lies within the range of the entry that names it. */
  lemma SliderBound(config: seq<ParamSpec>, parameters: Record<real>, i: nat, name: string, lo: real, hi: real)
    requires WithinSliders(config, parameters)
    requires i < |config| && config[i].name == name && config[i].min == lo && config[i].max == hi
    ensures Get(parameters, name).Some? && lo <= Get(parameters, name).value <= hi
  {
  }

  /** The Diesel cutoff slider starts at 1.2, so it never offers a cutoff ratio of 1. */
  lemma CutoffSliderAvoidsOne(parameters: Record<real>)
    requires WithinSliders(DieselConfig, parameters)
    ensures Get(parameters, CutoffRatio).Some?
    ensures Get(parameters, CutoffRatio).value != 1.0
  {
    SliderBound(DieselConfig, parameters, 3, CutoffRatio, 1.2, 4.0);
  }
}
