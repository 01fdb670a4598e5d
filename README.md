# ThermaCycle in Dafny

ThermaCycle is a browser simulator for three ideal power cycles: Rankine (steam), Otto and Diesel.
The user picks a cycle type and sets its parameters with sliders or number fields. The simulator
then evaluates the cycle in closed form, animates a piston and two gauges over the cycle, shows
the results as metric cards, and exports a PDF report or a JSON file.

This project models the logic behind that:

- `thermodynamics.dfy` (module `Thermodynamics`): the three calculators. Each maps a parameter
  record to four metrics, a closed five-point P-V diagram, a closed five-point T-S diagram and the
  optional steam quality, maximum temperature and maximum pressure. Missing parameters give the
  all-zero fallback.
- `records.dfy` (module `Records`): JavaScript objects whose keys are not array indices, as ordered
  entry lists in insertion order, with lookup and the spread update `{ ...r, [key]: value }`. The
  program's keys (cycle types and camel-case parameter names) are all of that kind.
- `cycle_parameters.dfy` (module `CycleParameters`): the slider table of each cycle, the
  advanced-parameter filter, the decimal count, and what the slider and the number field forward.
- `cycle_simulator.dfy` (module `CycleSimulator`): the initial records, the parameter update, the
  cycle-type dispatch, and a `Simulator` class holding the page state with one method per event
  handler.
- `export_dialog.dfy` (module `ExportDialog`): the camel-case key formatter, the PDF value format,
  the result rows, the PDF text layout (methods with the source's `forEach` loops), the title, the
  file names and the JSON export object.
- `display.dfy` (module `Display`): the row names and the four base rows, shared by the results
  panel and the report. A number formatted by `toFixed` is kept as (value, digits, unit).
- `cycle_results.dfy` (module `CycleResults`): the metric list of the results panel, as a function
  and as the `push` sequence that builds it.
- `piston_animation.dfy` (module `PistonAnimation`): stage captions, linear interpolation, hex
  colour interpolation down to `parseInt`, `Math.round`, `toString(16)` and `padStart`, the gas
  colour, the piston position, and the pressure and temperature gauges.
- `animation_state.dfy` (module `AnimationPlayback`): the progress rule of a frame, the slider
  mapping, and an `AnimationState` class for the animation's mutable state.
- `wrappers.dfy` (module `Wrappers`): `Option`.

Numbers are Dafny `real`. Wherever the source divides, the model requires the divisor to be non-zero
(`RankineDefined`, `OttoDefined`, `DieselDefined`, `PistonDefined`). Lemmas then show that every
value the sliders offer meets these conditions. `Math.pow` and `Math.log` come in as a `MathLib`
parameter. The only law assumed of them is `PowPositive`: a positive base has a positive power.

## Model

| member | source | states |
|---|---|---|
| Thermodynamics.CalculateRankineCycle | lib/thermodynamics.jsx:8-88 | Missing parameters give the all-zero result with empty diagrams. Otherwise both diagrams close after four states and work = heat in - heat out. |
| Thermodynamics.RankineClosedForm | lib/thermodynamics.jsx:13-73 | Pump work is (Pb - Pc)/eta_p. Heat in is 3200 - pump work. Heat out is 3200 - 2560 eta_t. Work is 2560 eta_t - pump work. Efficiency times heat in is the work. Steam quality is 0.85, max temperature is the boiler temperature in kelvin, max pressure is Pb. |
| Thermodynamics.RankineDiagramLegs | lib/thermodynamics.jsx:45-61 | The pump leg has fixed volume and fixed entropy. The boiler leg is at Pb and the condenser leg at Pc. The turbine leg keeps its entropy. The reported maximum temperature is the boiler vertex's. |
| Thermodynamics.RankineNominalRange | lib/thermodynamics.jsx:22-43 | On the slider ranges the calculation is defined. Heat in, heat out and work are positive, and 0 < efficiency < 1. |
| Thermodynamics.CalculateOttoCycle | lib/thermodynamics.jsx:91-166 | Missing parameters give the all-zero result. Otherwise both diagrams are closed and energy is balanced. |
| Thermodynamics.OttoEfficiencyDependsOnlyOnCompressionRatio | lib/thermodynamics.jsx:121 | Two parameter records with the same compression ratio have the same efficiency, 1 - 1/r^0.4. |
| Thermodynamics.OttoStateRelations | lib/thermodynamics.jsx:96-147 | v3 = v2, v4 = v1 and v2 r = v1. The reported heat input equals the requested one. T4 T2 = T3 T1 and p4 p2 = p3 p1. The maxima are state 3's. |
| Thermodynamics.OttoHeatRejected | lib/thermodynamics.jsx:113-119 | Heat rejected times r^(k-1) is the heat input. |
| Thermodynamics.OttoEfficiencyConsistent | lib/thermodynamics.jsx:117-121 | For a non-zero heat input, work / heat input equals the reported efficiency. |
| Thermodynamics.OttoHeatFlowsPositive | lib/thermodynamics.jsx:104-121 | For r > 0 and a positive heat input, both heat flows are positive, work is below the heat input and efficiency is below 1. |
| Thermodynamics.OttoDefinedOnPhysicalInputs | lib/thermodynamics.jsx:99-114 | A positive pressure, a temperature above absolute zero and a positive ratio never divide by zero. |
| Thermodynamics.CalculateDieselCycle | lib/thermodynamics.jsx:169-244 | Missing parameters give the all-zero result. Otherwise both diagrams are closed and energy is balanced. |
| Thermodynamics.DieselStates | lib/thermodynamics.jsx:174-229 | The diagrams are closed and energy is balanced. T3 = rc T2, and the heat input is cp (rc - 1) T2. |
| Thermodynamics.DieselSharesOttoCompression | lib/thermodynamics.jsx:176-183 | States 1 and 2 of both diagrams equal the Otto cycle's for the same intake and compression ratio. |
| Thermodynamics.DieselStateRelations | lib/thermodynamics.jsx:185-225 | p3 = p2, v3 = rc v2, T3 = rc T2 and v4 = v1. The heat input is cp (rc - 1) T2. The maxima are state 3's. |
| Thermodynamics.DieselHeatAddition | lib/thermodynamics.jsx:185-188 | Heat is added at constant pressure: p3 = p2, v3 = rc v2, T3 = rc T2. |
| Thermodynamics.DieselExpansionAndMaxima | lib/thermodynamics.jsx:190-225 | The expansion ends at v1, and the reported maxima are state 3's temperature and pressure. |
| Thermodynamics.DieselHeatInput | lib/thermodynamics.jsx:196 | The heat input is cp (rc - 1) T2. |
| Thermodynamics.DieselIgnoresHeatInput | lib/thermodynamics.jsx:171 | Changing the `heatInput` parameter changes no output at all. |
| Thermodynamics.DieselEfficiencyFactorsOtto | lib/thermodynamics.jsx:199 | 1 - efficiency is the Otto loss 1/r^(k-1) times (rc^k - 1)/(k (rc - 1)). |
| Thermodynamics.DieselDefinedOnPhysicalInputs | lib/thermodynamics.jsx:177-199 | Physical inputs with rc != 1 never divide by zero. |
| Records.GetSetSame | components/cycle-simulator.jsx:92-98 | After `{ ...r, [key]: value }`, the key holds the value. |
| Records.GetSetOther | components/cycle-simulator.jsx:92-98 | After the spread update, every other key holds what it held before. |
| Records.KeysSet | components/cycle-simulator.jsx:92-98 | An existing key keeps its place in `Object.keys`; a new key is appended, which is the `Object.keys` order for keys that are not array indices. |
| Records.SetKeepsDistinctKeys | components/cycle-simulator.jsx:92-98 | The spread update keeps keys distinct. |
| Records.GetAt | components/cycle-simulator.jsx:19-40 | In an object literal, each listed key looks up its listed value. |
| CycleSimulator.UpdateSetsValue | components/cycle-simulator.jsx:91-99 | After a change, `parameters[cycleType][name]` is the new value, even if the record was missing. |
| CycleSimulator.UpdateKeepsOtherFields | components/cycle-simulator.jsx:91-99 | Every other field of the selected record is unchanged. |
| CycleSimulator.UpdateKeepsOtherCycles | components/cycle-simulator.jsx:91-99 | The other cycle types' records are unchanged. |
| CycleSimulator.UpdateKeepsComplete | components/cycle-simulator.jsx:91-99 | Changes never remove a configured parameter from any record. |
| CycleSimulator.InitialComplete | components/cycle-simulator.jsx:19-40 | The initial state holds a record with every configured parameter for each cycle. |
| CycleSimulator.InitialRecords | components/cycle-simulator.jsx:19-40 | The calculators read the defaults Rankine (8, 500, 0.008, 0.85, 0.87), Otto (0.1, 25, 8, 1800) and Diesel (0.1, 25, 16, 2, 1800). |
| CycleSimulator.InitialWithinSliders | components/cycle-simulator.jsx:19-40 | Every default value lies within its slider range. |
| CycleSimulator.RankineOf | components/cycle-simulator.jsx:63 | Each destructured Rankine field is the record's value under that name. |
| CycleSimulator.OttoOf | components/cycle-simulator.jsx:66 | Each destructured Otto field is the record's value under that name. |
| CycleSimulator.DieselOf | components/cycle-simulator.jsx:69 | Each destructured Diesel field is the record's value under that name. |
| CycleSimulator.CalculateCycle | components/cycle-simulator.jsx:61-73 | A result exists exactly for "rankine", "otto" and "diesel", and it is closed and energy-balanced. Any other type gives null. |
| CycleSimulator.DispatchRunsOwnCalculator | components/cycle-simulator.jsx:61-70 | "rankine", "otto" and "diesel" each give their own calculator's result on their own record, `parameters.rankine`, `parameters.otto` or `parameters.diesel`. |
| CycleSimulator.DispatchedOttoEfficiency | components/cycle-simulator.jsx:65-67 | The Otto result the page stores has efficiency 1 - 1/r^0.4, for the compression ratio r held in the Otto record. |
| CycleSimulator.CalculationReadsOwnRecord | components/cycle-simulator.jsx:61-73 | The result depends only on the selected cycle's record. |
| CycleSimulator.EditDoesNotAffectOtherCycles | components/cycle-simulator.jsx:91-99 | Editing one cycle's parameter leaves every other cycle's result unchanged. |
| CycleSimulator.DispatchNeverFallsBack | components/cycle-simulator.jsx:60-84 | Every dispatched result has all three optional fields, so it is never the outer fallback, which lacks them. |
| CycleSimulator.RankineSlidersDefined | components/cycle-simulator.jsx:63 | Rankine slider values never divide by zero. |
| CycleSimulator.OttoSlidersDefined | components/cycle-simulator.jsx:66 | Otto slider values never divide by zero. |
| CycleSimulator.DieselSlidersDefined | components/cycle-simulator.jsx:69 | Diesel slider values never divide by zero. |
| CycleSimulator.OnSlidersDefined | components/cycle-simulator.jsx:61-73 | Records holding slider values make the dispatch defined for every type. |
| CycleSimulator.InitialCalculationDefined | components/cycle-simulator.jsx:18-73 | The first calculation, on the defaults, is defined for every cycle type. |
| CycleSimulator.Simulator.constructor | components/cycle-simulator.jsx:18-46 | Rankine is selected, the default records are loaded, there is no data, all flags are off, and no calculation is scheduled. |
| CycleSimulator.Simulator.SelectCycleType | components/cycle-simulator.jsx:119 | Only the cycle type changes. |
| CycleSimulator.Simulator.ChangeParameter | components/cycle-simulator.jsx:91-99 | The parameters become the update of the old ones, records stay complete, and nothing else changes. |
| CycleSimulator.Simulator.ToggleAdvanced | components/cycle-simulator.jsx:146 | Only the advanced flag flips. |
| CycleSimulator.Simulator.StartCalculation | components/cycle-simulator.jsx:53-57 | The calculating flag is set. A calculation of the current type and parameters is queued behind any earlier one. Nothing else changes. |
| CycleSimulator.Simulator.FinishCalculation | components/cycle-simulator.jsx:57-88 | The oldest queued calculation leaves the queue. The data becomes the dispatch result for the type and parameters that calculation captured, whatever the page holds now. The calculating flag is cleared even while later calculations wait. |
| CycleSimulator.Simulator.Export | components/cycle-simulator.jsx:101-106 | The dialog is open afterwards exactly when it was already open or there is cycle data; nothing else changes. |
| CycleSimulator.Simulator.CloseExport | components/cycle-simulator.jsx:209 | The dialog closes; nothing else changes. |
| CycleParameters.ParamConfig | components/cycle-parameters.jsx:21-140 | A configuration exists exactly for the three cycle types. |
| CycleParameters.FilteredParams | components/cycle-parameters.jsx:143 | With the toggle on, every entry is listed. Otherwise an entry is listed exactly when it is not advanced. The list is never longer than the configuration. |
| CycleParameters.FilterAppend | components/cycle-parameters.jsx:143 | Filtering distributes over concatenation, so order is kept. |
| CycleParameters.BasicThenAdvanced | components/cycle-parameters.jsx:143 | For a configuration of basic entries followed by advanced ones, the filtered list is the basic prefix and the advanced names are the suffix's names. |
| CycleParameters.RankineAdvancedEntries | components/cycle-parameters.jsx:22-63 | Rankine's advanced entries are exactly pump and turbine efficiency. Without the toggle, the first three entries are listed. |
| CycleParameters.OttoAdvancedEntries | components/cycle-parameters.jsx:64-97 | Otto's only advanced entry is the heat input. Without the toggle, the first three entries are listed. |
| CycleParameters.DieselAdvancedEntries | components/cycle-parameters.jsx:98-139 | Diesel's only advanced entry is the heat input. Without the toggle, the first four entries are listed. |
| CycleParameters.Decimals | components/cycle-parameters.jsx:154 | 3 decimals exactly when step < 0.1, 2 exactly when 0.1 <= step < 1, and 0 exactly when step >= 1. |
| CycleParameters.DecimalsAntitone | components/cycle-parameters.jsx:154 | A finer step never shows fewer decimals. |
| CycleParameters.ValueText | components/cycle-parameters.jsx:154 | A value is shown exactly when the parameter is present, formatted with its step's decimal count. |
| CycleParameters.SliderChange | components/cycle-parameters.jsx:8-10 | The slider forwards its name and `value[0]`. |
| CycleParameters.InputChange | components/cycle-parameters.jsx:13-18 | A typed value is forwarded exactly when it parses, and it is forwarded as parsed. |
| CycleParameters.InputIsNotClamped | components/cycle-parameters.jsx:13-18 | A typed compression ratio of 100 reaches the simulator, although Otto's slider stops at 12. |
| CycleParameters.SliderBound | components/cycle-parameters.jsx:159-165 | A value within the sliders lies within the range of its entry. |
| CycleParameters.CutoffSliderAvoidsOne | components/cycle-parameters.jsx:123-130 | The cutoff slider never offers rc = 1. |
| ExportDialog.UpperChar | components/export-dialog.jsx:76 | A lower-case ASCII letter becomes its capital; every other character is kept. |
| ExportDialog.SpaceBeforeCapitalsLength | components/export-dialog.jsx:76 | Inserting the spaces adds exactly one character per capital. |
| ExportDialog.SpacesRoundTrip | components/export-dialog.jsx:76 | Removing the spaces again gives back a key that had none. |
| ExportDialog.CapitalsFollowSpaces | components/export-dialog.jsx:76 | Every capital in the spaced key follows a space. |
| ExportDialog.NoCapitalsUnchanged | components/export-dialog.jsx:76 | A key without capitals gets no spaces. |
| ExportDialog.CapitalizeFirst | components/export-dialog.jsx:76 | The first character is upper-cased unless it is a line terminator; all others are kept. |
| ExportDialog.FormatCamelCase | components/export-dialog.jsx:76 | A two-word camel-case key prints as the first word capitalised, a space, then the second word. |
| ExportDialog.FormatBoilerPressure | components/export-dialog.jsx:76 | "boilerPressure" prints as "Boiler Pressure". |
| ExportDialog.FormatKeyShape | components/export-dialog.jsx:76 | A key starting with a lower-case letter comes out one character longer per capital. It starts with a capital and, spaces aside, keeps the rest of the key. |
| ExportDialog.ParamDisplay | components/export-dialog.jsx:78-82 | A number gets 4 decimals exactly when below 0.01, else 2. A non-number passes through. |
| ExportDialog.AsJsValues | components/export-dialog.jsx:75 | `Object.entries` of the numeric record: same keys in the same order, each value a number. |
| ExportDialog.ResultRows | components/export-dialog.jsx:94-109 | The rows start with Thermal Efficiency, Work Output, Heat Input and Heat Rejected, in that order. |
| ExportDialog.ResultRowsExtras | components/export-dialog.jsx:101-109 | Rankine with a steam quality adds exactly Steam Quality. Otto or Diesel with a maximum temperature adds Max Temperature, then Max Pressure when present. Other types add nothing. |
| ExportDialog.ResultRowsNeverBoth | components/export-dialog.jsx:101-109 | Steam Quality and Max Temperature are never listed together. |
| ExportDialog.ParamLines | components/export-dialog.jsx:74-86 | Parameter line i shows the formatted key and value at y + 7 i. |
| ExportDialog.RowLines | components/export-dialog.jsx:111-114 | Result line i shows row i at y + 7 i. |
| ExportDialog.PrintParameters | components/export-dialog.jsx:75-86 | The loop prints the parameter lines and leaves yPos at y + 7 per entry. |
| ExportDialog.CollectResults | components/export-dialog.jsx:94-109 | The pushes build exactly the result rows. |
| ExportDialog.PrintResults | components/export-dialog.jsx:111-114 | The loop prints the result lines and leaves yPos at y + 7 per row. |
| ExportDialog.GeneratePdfText | components/export-dialog.jsx:74-114 | Parameters start at 55. The "Results" heading sits 10 below the last parameter step, and the result rows start 20 below it. |
| ExportDialog.PdfLayout | components/export-dialog.jsx:74-114 | Consecutive lines are 7 apart. The first result line is 27 below the last parameter line. |
| ExportDialog.Title | components/export-dialog.jsx:65 | The title has the cycle type's length plus that of " Cycle Analysis". |
| ExportDialog.TitleOfType | components/export-dialog.jsx:65 | The title capitalises the cycle type's first letter, keeps the rest, and ends in " Cycle Analysis". |
| ExportDialog.FileNamesDistinct | components/export-dialog.jsx:146-173 | Different cycle types get different file names, and a report never shares a name with a data file. |
| ExportDialog.DownloadPdf | components/export-dialog.jsx:146-155 | With a prepared report the button saves it as `<type>-cycle-analysis.pdf`; otherwise it generates the report. |
| ExportDialog.DownloadJson | components/export-dialog.jsx:157-173 | No download without data. Otherwise the object is exactly (cycleType, parameters, results = cycleData) in `<type>-cycle-data.json`. |
| Display.BaseRows | components/cycle-results.jsx:21-46 | The four base rows carry the names Thermal Efficiency, Work Output, Heat Input and Heat Rejected. The efficiency is shown as a percentage. |
| CycleResults.Metrics | components/cycle-results.jsx:10-72 | The cards start with the four base cards in order. |
| CycleResults.ResultsPanel | components/cycle-results.jsx:7 | There is a panel exactly when there is cycle data, and it shows the metrics. |
| CycleResults.MetricCounts | components/cycle-results.jsx:49-72 | Rankine always shows 5 cards ending in Steam Quality. Otto and Diesel always show 6, ending in Max Temperature then Max Pressure. Other types show 4. |
| CycleResults.EfficiencyAsPercentage | components/cycle-results.jsx:24 | The efficiency card shows efficiency * 100 with 2 decimals and "%". |
| CycleResults.MissingFieldsShowZero | components/cycle-results.jsx:10-18 | Missing optional fields are shown as 0. |
| CycleResults.PanelMatchesReport | components/cycle-results.jsx:21-72 | For any calculator result, the panel shows exactly the PDF report's rows. |
| CycleResults.FallbackPanelDiffersFromReport | components/cycle-results.jsx:49-55 | On a result without a steam quality, the Rankine panel shows 5 cards while the report lists 4 rows. |
| CycleResults.BuildMetrics | components/cycle-results.jsx:21-72 | Pushing onto the base list builds exactly the metrics. |
| PistonAnimation.ExpansionEnd | components/piston-animation.jsx:215 | The expansion ends at 0.75 exactly for Otto, otherwise at 0.85. |
| PistonAnimation.CycleStageByThresholds | components/piston-animation.jsx:475-493 | The caption is label n of the type, where n counts the thresholds 0.25, 0.5 and 0.75 (0.85 for Diesel) that progress has reached. |
| PistonAnimation.OtherTypesGetRankineStages | components/piston-animation.jsx:486-492 | Every type other than "otto" and "diesel" gets the Rankine captions. |
| PistonAnimation.StageMatchesPistonStroke | components/piston-animation.jsx:475-485 | For the engines, "Compression Stroke" holds exactly before 0.25. "Power Stroke" holds exactly on [0.5, end of expansion), and "Exhaust/Intake Stroke" from there on. |
| PistonAnimation.InterpolateEndsAndAffine | components/piston-animation.jsx:496-498 | Interpolation gives a at 0 and b at 1, and it is affine in t. |
| PistonAnimation.InterpolateBetween | components/piston-animation.jsx:496-498 | For t in [0, 1] the value lies between a and b. |
| PistonAnimation.HexDigitRoundTrip | components/piston-animation.jsx:503-515 | Printing a parsed hex digit gives the digit lower-cased. |
| PistonAnimation.Substr | components/piston-animation.jsx:507-509 | `substr(start, length)` has at most `length` characters. It is the slice when it fits, and empty when it starts past the end. |
| PistonAnimation.TrimStart | components/piston-animation.jsx:503 | `parseInt` skips a suffix-preserving prefix of white space. |
| PistonAnimation.HexPrefixLength | components/piston-animation.jsx:503 | The longest prefix of hex digits: all digits, and not followed by one. |
| PistonAnimation.ParseIntHexPair | components/piston-animation.jsx:503-509 | `parseInt(s, 16)` of two hex digits is their value. |
| PistonAnimation.ParseIntHexDigitStart | components/piston-animation.jsx:503 | Text starting with two hex digits parses to the value of its digit prefix. |
| PistonAnimation.Round | components/piston-animation.jsx:511-513 | `Math.round` gives the integer n with n - 0.5 <= x < n + 0.5. |
| PistonAnimation.PadStart2 | components/piston-animation.jsx:515 | `padStart(2, "0")` gives length 2 for short text and leaves longer text as it is. |
| PistonAnimation.Hex2 | components/piston-animation.jsx:515 | Two hex digits, neither an upper-case letter, whose value is the byte. |
| PistonAnimation.ByteText | components/piston-animation.jsx:515 | A byte's padded `toString(16)` is its two-digit form. |
| PistonAnimation.Hex2OfPair | components/piston-animation.jsx:503-515 | Printing a parsed pair gives the pair lower-cased. |
| PistonAnimation.InterpolateColor | components/piston-animation.jsx:501-519 | A colour not matching `#?RRGGBB` is returned unchanged. A matching one gives "#" and at least six more characters. |
| PistonAnimation.MixInByte | components/piston-animation.jsx:511-513 | Mixing two bytes with a factor in [0, 1] gives a byte within 0.5 of the interpolated value. |
| PistonAnimation.ParsedChannel | components/piston-animation.jsx:503-505 | Each capture group parses to its channel. |
| PistonAnimation.SubstrPairs | components/piston-animation.jsx:507-509 | For a "#RRGGBB" colour, the three `substr` calls are its three pairs. |
| PistonAnimation.InterpolateColorParsed | components/piston-animation.jsx:501-519 | With a "#RRGGBB" second colour, each output channel is the padded hex of the rounded mix. |
| PistonAnimation.InterpolateColorChannels | components/piston-animation.jsx:501-519 | With a factor in [0, 1], the result is "#" and the two-digit form of round(c1 + f (c2 - c1)) for each channel. It is six lower-case digits after "#". |
| PistonAnimation.InterpolateColorAtZero | components/piston-animation.jsx:501-519 | Factor 0 gives "#" and the first colour's digits lower-cased. |
| PistonAnimation.InterpolateColorAtOne | components/piston-animation.jsx:501-519 | Factor 1 gives the second colour lower-cased. |
| PistonAnimation.InterpolateFromLowerHex | components/piston-animation.jsx:501-519 | Factor 0 from a lower-case "#rrggbb" colour returns it. |
| PistonAnimation.InterpolateToLowerHex | components/piston-animation.jsx:501-519 | Factor 1 towards a lower-case "#rrggbb" colour returns it. |
| PistonAnimation.InterpolateColorWellFormed | components/piston-animation.jsx:501-519 | A factor in [0, 1] always gives a lower-case "#rrggbb" colour. |
| PistonAnimation.StrokeFraction | components/piston-animation.jsx:321-328 | Within its quarter, the colour factor lies in [0, 1]. |
| PistonAnimation.GasColorWellFormed | components/piston-animation.jsx:318-333 | For progress >= 0 the gas colour is a lower-case "#rrggbb" colour. |
| PistonAnimation.GasColorBoundaries | components/piston-animation.jsx:318-333 | At 0.5 the colour is red. It is continuous at 0.75, where the red-to-light-blue stroke ends at light blue. At 0.25 it jumps: the light-blue-to-pink stroke ends at pink, but the colour there is not pink. |
| PistonAnimation.CylinderHeight | components/piston-animation.jsx:198-200 | The cylinder is the height minus two 40-unit margins. |
| PistonAnimation.CompressionStrokeInterpolates | components/piston-animation.jsx:217-220 | The compression stroke interpolates from H to H/ratio over [0, 0.25). |
| PistonAnimation.ExpansionStrokeInterpolates | components/piston-animation.jsx:224-228 | The expansion stroke interpolates from H/ratio to H. |
| PistonAnimation.ExhaustStrokeInterpolates | components/piston-animation.jsx:229-232 | The exhaust stroke interpolates from H to H/ratio. |
| PistonAnimation.EnginePistonShape | components/piston-animation.jsx:217-233 | The piston is at H at progress 0 and constant at H/ratio on [0.25, 0.5). It ends at H/ratio at progress 1, so it jumps when progress wraps. |
| PistonAnimation.EnginePistonContinuous | components/piston-animation.jsx:217-233 | Each stroke ends where the next begins: at 0.25, at 0.5 and at the end of expansion. |
| PistonAnimation.EnginePistonBetween | components/piston-animation.jsx:217-233 | For a ratio >= 1 and progress in [0, 1], the piston stays between H/ratio and H. |
| PistonAnimation.RankinePistonLoop | components/piston-animation.jsx:234-250 | The Rankine piston is continuous at 0.25, 0.5 and 0.75, and it starts and ends at 0.8 H. |
| PistonAnimation.RankinePistonRange | components/piston-animation.jsx:234-250 | Over a cycle the Rankine piston stays between 0.65 H and 0.9 H. |
| PistonAnimation.StrokeRatioAsWritten | components/piston-animation.jsx:208-211 | The source's ratio v2/v1 is non-zero. Its value is stated by `OttoStrokeRatio` and `DieselStrokeRatio`. |
| PistonAnimation.StrokeRatio | components/piston-animation.jsx:208-211 | The intended ratio v1/v2 is the reciprocal of the source's. |
| PistonAnimation.OttoStrokeRatio | components/piston-animation.jsx:208-211 | On an Otto diagram the source's ratio is 1/r and the intended one is r. |
| PistonAnimation.DieselStrokeRatio | components/piston-animation.jsx:208-211 | On a Diesel diagram the source's ratio is 1/r and the intended one is r. |
| PistonAnimation.PistonLeavesCylinderAsWritten | components/piston-animation.jsx:207-233 | As written, an Otto cycle with r > 1 puts the piston at H r on [0.25, 0.5), beyond the cylinder. |
| PistonAnimation.PistonStaysInCylinder | components/piston-animation.jsx:207-233 | With the intended ratio (>= 1), the piston stays between H/ratio and H. |
| PistonAnimation.OttoPistonStaysInCylinder | components/piston-animation.jsx:207-233 | For an Otto result with r >= 1, the corrected piston stays between H/r and H. |
| PistonAnimation.DieselPistonStaysInCylinder | components/piston-animation.jsx:207-233 | For a Diesel result with r >= 1, the corrected piston stays between H/r and H. |
| PistonAnimation.Quarter | components/piston-animation.jsx:358-370 | The quarter index i satisfies 0.25 i <= progress < 0.25 (i + 1), with the first quarter open below and the last open above. |
| PistonAnimation.SeqMax | components/piston-animation.jsx:353 | `Math.max(...)` is an element and bounds every element. |
| PistonAnimation.SeqMin | components/piston-animation.jsx:354 | `Math.min(...)` is an element and is below every element. |
| PistonAnimation.Ys | components/piston-animation.jsx:352 | `map((point) => point.y)` keeps the length and takes each y. |
| PistonAnimation.Normalised | components/piston-animation.jsx:372 | On a non-empty range a value within it normalises into [0, 1], and the level times the range is v - min. |
| PistonAnimation.PressureGauge | components/piston-animation.jsx:350-375 | Without cycle data the pressure gauge reads 0.5. |
| PistonAnimation.TemperatureGauge | components/piston-animation.jsx:415-440 | Without cycle data the temperature gauge reads 0.5. |
| PistonAnimation.GaugeReading | components/piston-animation.jsx:351-374 | With no states the gauge reads 0.5. |
| PistonAnimation.GaugeInRange | components/piston-animation.jsx:351-375 | With four states that are not all equal, the gauge reads in [0, 1] over the whole cycle. |
| PistonAnimation.GaugeAtStatePoint | components/piston-animation.jsx:358-372 | At progress 0.25 i the gauge shows state i, normalised over all states. |
| PistonAnimation.GaugeLoops | components/piston-animation.jsx:358-370 | The gauge reads the same at progress 1 as at 0. |
| PistonAnimation.ClosingStateIgnored | components/piston-animation.jsx:351-372 | The closing fifth state changes no reading. |
| PistonAnimation.GaugesUseFourStates | components/piston-animation.jsx:416-440 | A calculator's closed diagrams drive both gauges by their four distinct states. |
| AnimationPlayback.Wrap | components/piston-animation.jsx:78-80 | Progress is kept exactly when it is at most 1. Beyond 1 it is reduced by its integer part into [0, 1). |
| AnimationPlayback.AdvanceThenWrap | components/piston-animation.jsx:75-80 | A frame's advance by dt/5000 * speed, followed by the loop rule, is the progress rule. |
| AnimationPlayback.AdvanceStaysInCycle | components/piston-animation.jsx:71-80 | Time going forward at a non-negative speed keeps progress in [0, 1]. |
| AnimationPlayback.SliderProgress | components/piston-animation.jsx:95-96 | The slider value is 100 times the progress it sets. |
| AnimationPlayback.SliderRoundTrip | components/piston-animation.jsx:95-98 | Showing progress * 100 and reading it back gives the progress. |
| AnimationPlayback.AnimationState.constructor | components/piston-animation.jsx:11-20 | The animation starts at progress 0 and speed 1, with no frame time, not playing. |
| AnimationPlayback.AnimationState.Animate | components/piston-animation.jsx:68-93 | With the canvas mounted, progress follows the progress rule and the frame time is stamped; without it nothing changes. A frame runs from any state. From a valid state, forward time keeps progress in [0, 1]. |
| AnimationPlayback.AnimationState.SlideTo | components/piston-animation.jsx:95-108 | The progress becomes the slider value / 100 from any state; nothing else changes. A slider value in [0, 100] restores a valid state. |
| AnimationPlayback.AnimationState.TogglePlayPause | components/piston-animation.jsx:53-66 | Playing flips (the button handler at lines 110-112), and the effect that starts playback stamps the clock reading. Progress and speed are kept. |
| AnimationPlayback.AnimationState.Reset | components/piston-animation.jsx:114-127 | Playback stops and progress returns to 0; speed and the frame time are kept. |
| AnimationPlayback.AnimationState.SetSpeed | components/piston-animation.jsx:49-51 | The speed becomes the speed slider's value; nothing else changes. |
| AnimationPlayback.AnimationState.CycleDataChanged | components/piston-animation.jsx:22-37 | New data that is not being calculated restarts progress at 0; otherwise nothing changes. |

## Left out

- Division by zero: JavaScript yields Infinity or NaN where the model requires a non-zero divisor. This covers `RankineDefined`, `OttoDefined`, `DieselDefined`, the non-zero `x` values in `PistonDefined` and `Normalised` on an empty range, where the level is `Undefined`. Lemmas show the sliders' values always qualify.
- `PistonDefined` also requires at least two P-V points. With fewer, `cycleData.pvData[1].x` throws a TypeError, which is not modelled. Every dispatched result has five points (`CalculateCycle` ensures `IsClosedLoop`). The outer fallback, which has none, is never needed (`DispatchNeverFallsBack`). So the case is not reached.
- `Records` assumes no key is an array index such as "5". For such keys, `Object.keys` lists them first, in ascending order, and `Records.Set` would not.
- NaN and Infinity as values: the model's numbers are exact reals. The results panel's `(x || 0)`, which turns a NaN metric into 0, is therefore the identity here.
- IEEE-754 rounding: all arithmetic is exact. Scenario numbers such as 1 - 8^-0.4 are not computed, because `Math.pow` and `Math.log` are the uninterpreted `MathLib` parameter.
- `toFixed`: a formatted number is kept as (value, digits, unit), not as its digits.
- `parseFloat` in the number field: its outcome arrives as an `Option<real>`, and its grammar is not modelled.
- `toUpperCase`: modelled for the ASCII letters only.
- The `.` in `/^./` is taken to exclude the four JavaScript line terminators, with no regex engine.
- The P-V and T-S chart components: chart configuration only.
- Canvas drawing: the cylinder, piston rod, crank, gauge frames, the `for` loops drawing the gauge markings, and the labels. Only the numbers that drive them are modelled.
- Timing: `requestAnimationFrame`, `cancelAnimationFrame`, `performance.now`, the device pixel ratio and the 500 ms `setTimeout` delay. Clock readings are method parameters, and the delay is the split between `StartCalculation` and `FinishCalculation`. Which frames get scheduled is the caller's choice of `Animate` calls. The model therefore does not capture one consequence. The cycle-data effect's cleanup (components/piston-animation.jsx:42-46) cancels the pending frame whenever `cycleData`, `cycleType` or `isCalculating` changes. The canvas is also replaced by the spinner while calculating (lines 129-136), which ends the loop at line 69. So a parameter change during playback freezes the animation while `isPlaying` stays true and the pause icon stays shown.
- React state and effects: each setter call is one method, and the order in which React would batch them is not modelled. The effect on `[cycleType, parameters]` is the caller's `StartCalculation` after a change. Overlapping calculations are modelled as a first-in, first-out queue of captured (type, parameters) pairs, because their timeouts share one delay.
- jsPDF, html2canvas, Blob and object URLs, DOM link clicks, `JSON.stringify` and `encodeURIComponent`: only the data handed to them is modelled. This includes the report's lines, the file names and the export object.
- The report's "Generated on" date line, the diagram pages, the asynchronous generation and its `catch`/`finally` are not part of this model.
- `console.error` in the `catch` blocks.
- The simulator's outer `catch` is modelled as the constant `SimulatorFallback`. `DispatchNeverFallsBack` shows the calculators never make it necessary.
- `Math.max`/`Math.min` of an empty list is never reached: the gauges check the length first.
- AnimationPlayback.Wrap: JavaScript `%` is modelled only for operands above 1, the only ones the source reduces.
- AnimationPlayback.AnimationState.Animate: progress stays in [0, 1] only for clock readings that do not go backwards. The source does not guard against a frame time earlier than the stamp. After such a frame progress can be below 0. `Animate` and `SlideTo` still run from there, without a validity precondition.
- PistonAnimation.InterpolateColor: its own contract states only the shape of the result. The channel values are stated by `InterpolateColorChannels`, `InterpolateColorAtZero` and `InterpolateColorAtOne`.
- PistonAnimation.GaugeReading: `Undefined` stands for the NaN or infinite level that a missing state index or a flat diagram gives.

## Findings

| source | as written | input that shows it | evidently intended | confidence | as-written member | corrected member |
|---|---|---|---|---|---|---|
| components/piston-animation.jsx:208-211 | The "compression ratio" is `pvData[1].x / pvData[0].x` = v2/v1 = 1/r, in both branches of the ternary. | An Otto cycle with r = 8 puts the piston at H/(1/8) = 8 H on [0.25, 0.5), far outside the cylinder of height H. | The ratio v1/v2 = r, so the piston moves between H/r and H. | not executed | PistonAnimation.PistonLeavesCylinderAsWritten | PistonAnimation.PistonStaysInCylinder |
