/**
 * The results panel: the metric cards listed under the diagrams. A
 * missing optional field defaults to 0 before the list is built, so the
 * type-specific cards depend on the cycle type alone.
 */
module CycleResults {
  import opened Wrappers
  import opened Display
  import opened Thermodynamics
  import opened CycleParameters
  import ExportDialog

  /**
   * The metric list for a result: the four base cards, then Steam
   * Quality for Rankine, or Max Temperature and Max Pressure for Otto
   * and Diesel, with missing fields shown as 0.
   */
  function Metrics(cycleData: CycleResult, cycleType: string): (metrics: seq<Row>)
    ensures |metrics| >= 4 && Names(metrics)[..4] == BaseNames
  {
    var base := BaseRows(cycleData.efficiency, cycleData.workOutput, cycleData.heatInput, cycleData.heatRejected);
    var metrics :=
      if cycleType == RankineType then
        base + [Row(SteamQualityName, Fixed(cycleData.steamQuality.GetOr(0.0) * 100.0, 2, Percent))]
      else if cycleType == OttoType || cycleType == DieselType then
        base + [Row(MaxTemperatureName, Fixed(cycleData.maxTemperature.GetOr(0.0), 1, Kelvin)),
                Row(MaxPressureName, Fixed(cycleData.maxPressure.GetOr(0.0), 2, Megapascal))]
      else base;
    assert metrics[..4] == base;
    NamesPrefix(metrics, 4);
    metrics
  }

  /** Null cycle data renders no panel. */
  function ResultsPanel(cycleData: Option<CycleResult>, cycleType: string): (panel: Option<seq<Row>>)
    ensures panel.Some? <==> cycleData.Some?
    ensures panel.Some? ==> panel.value == Metrics(cycleData.value, cycleType)
  {
    match cycleData
    case None => None
    case Some(r) => Some(Metrics(r, cycleType))
  }

  /** How many cards each cycle type shows, and which come last. */
  lemma MetricCounts(cycleData: CycleResult, cycleType: string)
    ensures var metrics := Metrics(cycleData, cycleType);
      && (cycleType == RankineType ==> |metrics| == 5 && metrics[4].name == SteamQualityName)
      && (cycleType == OttoType || cycleType == DieselType ==>
            |metrics| == 6 && metrics[4].name == MaxTemperatureName && metrics[5].name == MaxPressureName)
      && (cycleType !in {RankineType, OttoType, DieselType} ==> |metrics| == 4)
  {
  }

  /** The efficiency card shows the efficiency as a percentage with two decimals. */
  lemma EfficiencyAsPercentage(cycleData: CycleResult, cycleType: string)
    ensures Metrics(cycleData, cycleType)[0] == Row(EfficiencyName, Fixed(cycleData.efficiency * 100.0, 2, Percent))
  {
  }

  /** Missing optional fields are shown as 0. */
  lemma MissingFieldsShowZero(cycleData: CycleResult, cycleType: string)
    requires cycleData.steamQuality.None? && cycleData.maxTemperature.None? && cycleData.maxPressure.None?
    ensures cycleType == RankineType ==> Metrics(cycleData, cycleType)[4].shown == Fixed(0.0, 2, Percent)
    ensures cycleType == OttoType || cycleType == DieselType ==>
      Metrics(cycleData, cycleType)[4].shown == Fixed(0.0, 1, Kelvin)
      && Metrics(cycleData, cycleType)[5].shown == Fixed(0.0, 2, Megapascal)
  {
  }

  /**
   * For every result a calculator returns, the panel shows exactly the
   * rows the PDF report lists.
   */
  lemma PanelMatchesReport(cycleData: CycleResult, cycleType: string)
    requires cycleData.steamQuality.Some? && cycleData.maxTemperature.Some? && cycleData.maxPressure.Some?
    ensures Metrics(cycleData, cycleType) == ExportDialog.ResultRows(cycleData, cycleType)
  {
  }

  /**
   * On the simulator's own fallback the two disagree: the panel shows a
   * Steam Quality of 0 for Rankine, the report leaves the row out.
   */
  lemma FallbackPanelDiffersFromReport(fallback: CycleResult)
    requires fallback.steamQuality.None?
    ensures |Metrics(fallback, RankineType)| == 5
    ensures |ExportDialog.ResultRows(fallback, RankineType)| == 4
  {
  }

  /** The panel built as the component does it: a fresh list extended by `push`. */
  method BuildMetrics(cycleData: CycleResult, cycleType: string) returns (metrics: seq<Row>)
    ensures metrics == Metrics(cycleData, cycleType)
  {
    var steamQuality := cycleData.steamQuality.GetOr(0.0);
    var maxTemperature := cycleData.maxTemperature.GetOr(0.0);
    var maxPressure := cycleData.maxPressure.GetOr(0.0);
    metrics := BaseRows(cycleData.efficiency, cycleData.workOutput, cycleData.heatInput, cycleData.heatRejected);
    if cycleType == RankineType {
      metrics := metrics + [Row(SteamQualityName, Fixed(steamQuality * 100.0, 2, Percent))];
    } else if cycleType == OttoType || cycleType == DieselType {
      metrics := metrics + [Row(MaxTemperatureName, Fixed(maxTemperature, 1, Kelvin))];
      metrics := metrics + [Row(MaxPressureName, Fixed(maxPressure, 2, Megapascal))];
    }
  }
}
