/**
 * What the user interface shows for a number. `toFixed` is not modelled
 * digit by digit: a formatted number is kept as the value, the digit
 * count `toFixed` is called with and the unit text appended to it.
 * The results panel and the PDF report share the row names and the
 * four rows every cycle starts with.
 */
module Display {

  /** `${value.toFixed(digits)}${unit}`, or text shown as it is. */
  datatype Text = Fixed(value: real, digits: nat, unit: string) | Raw(text: string)

  /** One labelled line of a results list: `name` and its shown value. */
  datatype Row = Row(name: string, shown: Text)

  const EfficiencyName: string := "Thermal Efficiency"
  const WorkOutputName: string := "Work Output"
  const HeatInputName: string := "Heat Input"
  const HeatRejectedName: string := "Heat Rejected"
  const SteamQualityName: string := "Steam Quality"
  const MaxTemperatureName: string := "Max Temperature"
  const MaxPressureName: string := "Max Pressure"

  const Percent: string := "%"
  const PerKilogram: string := " kJ/kg"
  const Kelvin: string := " K"
  const Megapascal: string := " MPa"

  /** The names of a list of rows, in order. */
  function Names(rows: seq<Row>): (names: seq<string>)
    ensures |names| == |rows|
    ensures forall i :: 0 <= i < |rows| ==> names[i] == rows[i].name
  {
    if rows == [] then [] else [rows[0].name] + Names(rows[1..])
  }

  /** The names of a prefix are the prefix of the names. */
  lemma NamesPrefix(rows: seq<Row>, n: nat)
    requires n <= |rows|
    ensures Names(rows)[..n] == Names(rows[..n])
  {
  }

  /** The names of two lists one after the other. */
  lemma NamesAppend(a: seq<Row>, b: seq<Row>)
    ensures Names(a + b) == Names(a) + Names(b)
  {
    var l, r := Names(a + b), Names(a) + Names(b);
    forall i | 0 <= i < |l| ensures l[i] == r[i] {
      if i < |a| { assert (a + b)[i] == a[i]; } else { assert (a + b)[i] == b[i - |a|]; }
    }
  }

  /** The optional row names differ from the base names and from each other. */
  lemma ExtraNamesDistinct()
    ensures SteamQualityName !in BaseNames && MaxTemperatureName !in BaseNames
    ensures MaxPressureName !in BaseNames
    ensures SteamQualityName != MaxTemperatureName && SteamQualityName != MaxPressureName
  {
    assert EfficiencyName[0] == 'T' && WorkOutputName[0] == 'W';
    assert HeatInputName[0] == 'H' && HeatRejectedName[0] == 'H';
    assert SteamQualityName[0] == 'S' && MaxTemperatureName[0] == 'M' && MaxPressureName[0] == 'M';
  }

  /** The names every results list starts with, in this order. */
  const BaseNames: seq<string> := [EfficiencyName, WorkOutputName, HeatInputName, HeatRejectedName]

  /** The four rows every results list starts with; the efficiency is shown as a percentage. */
  function BaseRows(efficiency: real, workOutput: real, heatInput: real, heatRejected: real): (rows: seq<Row>)
    ensures Names(rows) == BaseNames
    ensures rows[0].shown == Fixed(efficiency * 100.0, 2, Percent)
  {
    [ Row(EfficiencyName, Fixed(efficiency * 100.0, 2, Percent)),
      Row(WorkOutputName, Fixed(workOutput, 2, PerKilogram)),
      Row(HeatInputName, Fixed(heatInput, 2, PerKilogram)),
      Row(HeatRejectedName, Fixed(heatRejected, 2, PerKilogram)) ]
  }
}
