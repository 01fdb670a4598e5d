/**
 * The export dialog: how parameter names and values are printed in the
 * PDF report, the result rows it lists, where each line goes on the
 * page, the JSON export object and the two file names.
 */
module ExportDialog {
  import opened Wrappers
  import opened Records
  import opened Display
  import opened Thermodynamics
  import opened CycleParameters

  // ---------------------------------------------------------- key formatter

  /** The characters the regular expression `[A-Z]` matches. */
  predicate IsUpper(c: char) {
    'A' <= c <= 'Z'
  }

  /** `toUpperCase` on one character, for the ASCII letters. */
  function UpperChar(c: char): (u: char)
    ensures 'a' <= c <= 'z' ==> IsUpper(u) && u as int == c as int - 32
    ensures !('a' <= c <= 'z') ==> u == c
  {
    if 'a' <= c <= 'z' then (c as int - 32) as char else c
  }

  /** The characters `.` does not match: the line terminators. */
  predicate IsLineTerminator(c: char) {
    c == '\n' || c == '\r' || c == '\U{2028}' || c == '\U{2029}'
  }

  /** `key.replace(/([A-Z])/g, " $1")`: a space before every capital letter. */
  function SpaceBeforeCapitals(s: string): (r: string)
  {
    if s == [] then []
    else (if IsUpper(s[0]) then [' ', s[0]] else [s[0]]) + SpaceBeforeCapitals(s[1..])
  }

  /** The number of capital letters in `s`. */
  function CountUpper(s: string): nat {
    if s == [] then 0 else (if IsUpper(s[0]) then 1 else 0) + CountUpper(s[1..])
  }

  /** `s` with every space removed. */
  function DropSpaces(s: string): (r: string)
    ensures ' ' !in r
  {
    if s == [] then [] else (if s[0] == ' ' then [] else [s[0]]) + DropSpaces(s[1..])
  }

  lemma {:induction false} DropSpacesAppend(a: string, b: string)
    ensures DropSpaces(a + b) == DropSpaces(a) + DropSpaces(b)
  {
    if a == [] {
      assert a + b == b;
    } else {
      assert (a + b)[0] == a[0];
      assert (a + b)[1..] == a[1..] + b;
      DropSpacesAppend(a[1..], b);
    }
  }

  /** Inserting the spaces adds one character per capital letter. */
  lemma {:induction false} SpaceBeforeCapitalsLength(s: string)
    ensures |SpaceBeforeCapitals(s)| == |s| + CountUpper(s)
  {
    if s != [] {
      SpaceBeforeCapitalsLength(s[1..]);
    }
  }

  /** Inserting spaces before capitals and then removing all spaces is removing all spaces. */
  lemma {:induction false} DropSpacesOfSpaced(s: string)
    ensures DropSpaces(SpaceBeforeCapitals(s)) == DropSpaces(s)
  {
    if s != [] {
      var head := if IsUpper(s[0]) then [' ', s[0]] else [s[0]];
      assert SpaceBeforeCapitals(s) == head + SpaceBeforeCapitals(s[1..]);
      DropSpacesAppend(head, SpaceBeforeCapitals(s[1..]));
      DropSpacesOfSpaced(s[1..]);
      if IsUpper(s[0]) {
        assert head == [' '] + [s[0]];
        DropSpacesAppend([' '], [s[0]]);
      }
    }
  }

  lemma {:induction false} DropSpacesNoop(s: string)
    requires ' ' !in s
    ensures DropSpaces(s) == s
  {
    if s != [] {
      assert ' ' !in s[1..] by {
        forall i | 0 <= i < |s[1..]| ensures s[1..][i] != ' ' {
          assert s[1..][i] == s[i + 1];
        }
      }
      DropSpacesNoop(s[1..]);
      assert s == [s[0]] + s[1..];
    }
  }

  /** Removing the spaces again gives back a key that had none. */
  lemma SpacesRoundTrip(s: string)
    requires ' ' !in s
    ensures DropSpaces(SpaceBeforeCapitals(s)) == s
  {
    DropSpacesOfSpaced(s);
    DropSpacesNoop(s);
  }

  lemma {:induction false} SpaceBeforeCapitalsAppend(a: string, b: string)
    ensures SpaceBeforeCapitals(a + b) == SpaceBeforeCapitals(a) + SpaceBeforeCapitals(b)
  {
    if a == [] {
      assert a + b == b;
    } else {
      assert (a + b)[0] == a[0];
      assert (a + b)[1..] == a[1..] + b;
      SpaceBeforeCapitalsAppend(a[1..], b);
    }
  }

  /** A text without capitals is left as it is. */
  lemma {:induction false} NoCapitalsUnchanged(s: string)
    requires forall i :: 0 <= i < |s| ==> !IsUpper(s[i])
    ensures SpaceBeforeCapitals(s) == s
  {
    if s != [] {
      NoCapitalsUnchanged(s[1..]);
      assert s == [s[0]] + s[1..];
    }
  }

  /** Every capital letter in the result follows a space. */
  lemma {:induction false} CapitalsFollowSpaces(s: string, i: nat)
    requires i < |SpaceBeforeCapitals(s)| && IsUpper(SpaceBeforeCapitals(s)[i])
    ensures i > 0 && SpaceBeforeCapitals(s)[i - 1] == ' '
  {
    var head := if IsUpper(s[0]) then [' ', s[0]] else [s[0]];
    var rest := SpaceBeforeCapitals(s[1..]);
    assert SpaceBeforeCapitals(s) == head + rest;
    if i >= |head| {
      assert SpaceBeforeCapitals(s)[i] == rest[i - |head|];
      CapitalsFollowSpaces(s[1..], i - |head|);
      if i - |head| > 0 {
        assert SpaceBeforeCapitals(s)[i - 1] == rest[i - |head| - 1];
      }
    }
  }

  /** `.replace(/^./, (str) => str.toUpperCase())`: the first character upper-cased. */
  function CapitalizeFirst(s: string): (r: string)
    ensures |r| == |s|
    ensures |s| > 0 && !IsLineTerminator(s[0]) ==> r[0] == UpperChar(s[0])
    ensures forall i :: 0 < i < |s| ==> r[i] == s[i]
    ensures |s| > 0 && IsLineTerminator(s[0]) ==> r == s
  {
    if |s| > 0 && !IsLineTerminator(s[0]) then [UpperChar(s[0])] + s[1..] else s
  }

  /** A parameter name as the report prints it: "boilerPressure" becomes "Boiler Pressure". */
  function FormatKey(key: string): string {
    CapitalizeFirst(SpaceBeforeCapitals(key))
  }

  /** A two-word camel-case key: the first word capitalised, a space, then the second word. */
  lemma FormatCamelCase(first: string, capital: char, rest: string)
    requires |first| > 0 && 'a' <= first[0] <= 'z'
    requires forall i :: 0 <= i < |first| ==> !IsUpper(first[i])
    requires IsUpper(capital)
    requires forall i :: 0 <= i < |rest| ==> !IsUpper(rest[i])
    ensures FormatKey(first + [capital] + rest) == [UpperChar(first[0])] + first[1..] + [' ', capital] + rest
  {
    var spaced := first + [' ', capital] + rest;
    SpacedCamelCase(first, capital, rest, spaced);
    CapitalizeLowerStart(spaced);
    assert spaced[0] == first[0];
    assert spaced[1..] == first[1..] + [' ', capital] + rest;
  }

  /** Only the capital of a camel-case key gets a space before it. */
  lemma SpacedCamelCase(first: string, capital: char, rest: string, spaced: string)
    requires forall i :: 0 <= i < |first| ==> !IsUpper(first[i])
    requires IsUpper(capital)
    requires forall i :: 0 <= i < |rest| ==> !IsUpper(rest[i])
    requires spaced == first + [' ', capital] + rest
    ensures SpaceBeforeCapitals(first + [capital] + rest) == spaced
  {
    SpaceBeforeCapitalsAppend(first + [capital], rest);
    SpaceBeforeCapitalsAppend(first, [capital]);
    NoCapitalsUnchanged(first);
    NoCapitalsUnchanged(rest);
    assert SpaceBeforeCapitals([capital]) == [' ', capital];
  }

  lemma CapitalizeLowerStart(s: string)
    requires |s| > 0 && 'a' <= s[0] <= 'z'
    ensures CapitalizeFirst(s) == [UpperChar(s[0])] + s[1..]
  {
  }

  lemma FormatBoilerPressure()
    ensures FormatKey(BoilerPressure) == "Boiler Pressure"
  {
    var spelled := [UpperChar('b')] + "oiler" + [' ', 'P'] + "ressure";
    BoilerPressureFormatsAs(spelled);
    SpelledBoilerPressure(spelled);
  }

  lemma BoilerPressureFormatsAs(spelled: string)
    requires spelled == [UpperChar('b')] + "oiler" + [' ', 'P'] + "ressure"
    ensures FormatKey(BoilerPressure) == spelled
  {
    var first, rest := "boiler", "ressure";
    assert BoilerPressure == first + ['P'] + rest;
    assert first[1..] == "oiler";
    FormatCamelCase(first, 'P', rest);
  }

  lemma SpelledBoilerPressure(spelled: string)
    requires spelled == [UpperChar('b')] + "oiler" + [' ', 'P'] + "ressure"
    ensures spelled == "Boiler Pressure"
  {
    assert [UpperChar('b')] + "oiler" == "Boiler";
    assert [' ', 'P'] + "ressure" == " Pressure";
  }

  /** A key starting with a letter comes out as long as the key plus its capitals, capitalised. */
  lemma FormatKeyShape(key: string)
    requires |key| > 0 && 'a' <= key[0] <= 'z'
    ensures |FormatKey(key)| == |key| + CountUpper(key)
    ensures IsUpper(FormatKey(key)[0])
    ensures DropSpaces(FormatKey(key))[1..] == DropSpaces(key)[1..]
  {
    SpaceBeforeCapitalsLength(key);
    var spaced := SpaceBeforeCapitals(key);
    assert spaced == [key[0]] + SpaceBeforeCapitals(key[1..]);
    assert FormatKey(key) == [UpperChar(key[0])] + SpaceBeforeCapitals(key[1..]);
    DropSpacesAppend([UpperChar(key[0])], SpaceBeforeCapitals(key[1..]));
    DropSpacesOfSpaced(key[1..]);
    DropSpacesAppend([key[0]], key[1..]);
    assert key == [key[0]] + key[1..];
  }

  // ------------------------------------------------------------ PDF report

  /** A parameter value as JavaScript sees it: a number or anything else. */
  datatype JsValue = Number(n: real) | Other(text: string)

  /** A parameter value in the report: 4 decimals below 0.01, else 2; non-numbers as they are. */
  function ParamDisplay(v: JsValue): (t: Text)
    ensures v.Other? ==> t == Raw(v.text)
    ensures v.Number? ==> t.Fixed? && t.value == v.n && t.unit == ""
    ensures v.Number? ==> (t.digits == 4 <==> v.n < 0.01) && (t.digits == 2 <==> v.n >= 0.01)
  {
    match v
    case Number(n) => if n < 0.01 then Fixed(n, 4, "") else Fixed(n, 2, "")
    case Other(text) => Raw(text)
  }

  /** The simulator's numeric record, as `Object.entries` hands it to the report. */
  function AsJsValues(parameters: Record<real>): (r: Record<JsValue>)
    ensures |r| == |parameters|
    ensures forall i :: 0 <= i < |r| ==> r[i] == (parameters[i].0, Number(parameters[i].1))
  {
    if parameters == [] then [] else [(parameters[0].0, Number(parameters[0].1))] + AsJsValues(parameters[1..])
  }

  /**
   * The result rows of the report: the four base rows, then Steam
   * Quality for a Rankine result that has one, or Max Temperature (and
   * Max Pressure when present) for an Otto or Diesel result that has a
   * maximum temperature.
   */
  function ResultRows(cycleData: CycleResult, cycleType: string): (rows: seq<Row>)
    ensures |rows| >= 4 && Names(rows)[..4] == BaseNames
  {
    var base := BaseRows(cycleData.efficiency, cycleData.workOutput, cycleData.heatInput, cycleData.heatRejected);
    var rows :=
      if cycleType == RankineType && cycleData.steamQuality.Some? then
        base + [Row(SteamQualityName, Fixed(cycleData.steamQuality.value * 100.0, 2, Percent))]
      else if (cycleType == OttoType || cycleType == DieselType) && cycleData.maxTemperature.Some? then
        base + [Row(MaxTemperatureName, Fixed(cycleData.maxTemperature.value, 1, Kelvin))]
          + (if cycleData.maxPressure.Some? then [Row(MaxPressureName, Fixed(cycleData.maxPressure.value, 2, Megapascal))] else [])
      else base;
    assert rows[..4] == base;
    NamesPrefix(rows, 4);
    rows
  }

  /** Which rows follow the base rows, by cycle type and the optional fields present. */
  lemma ResultRowsExtras(cycleData: CycleResult, cycleType: string)
    ensures var rows := ResultRows(cycleData, cycleType);
      && (cycleType == RankineType && cycleData.steamQuality.Some? ==>
            |rows| == 5 && rows[4].name == SteamQualityName)
      && ((cycleType == OttoType || cycleType == DieselType) && cycleData.maxTemperature.Some? ==>
            rows[4].name == MaxTemperatureName
            && |rows| == (if cycleData.maxPressure.Some? then 6 else 5)
            && (cycleData.maxPressure.Some? ==> rows[5].name == MaxPressureName))
      && (cycleType !in {RankineType, OttoType, DieselType} ==> |rows| == 4)
  {
  }

  /** Steam quality and the maxima are never listed together. */
  lemma ResultRowsNeverBoth(cycleData: CycleResult, cycleType: string)
    ensures var names := Names(ResultRows(cycleData, cycleType));
      !(SteamQualityName in names && MaxTemperatureName in names)
  {
    var base := BaseRows(cycleData.efficiency, cycleData.workOutput, cycleData.heatInput, cycleData.heatRejected);
    var rows := ResultRows(cycleData, cycleType);
    ExtraNamesDistinct();
    if cycleType == RankineType && cycleData.steamQuality.Some? {
      var extra := [Row(SteamQualityName, Fixed(cycleData.steamQuality.value * 100.0, 2, Percent))];
      assert rows == base + extra;
      NamesAppend(base, extra);
      assert Names(rows) == BaseNames + [SteamQualityName];
    } else if (cycleType == OttoType || cycleType == DieselType) && cycleData.maxTemperature.Some? {
      var extra := rows[4..];
      assert rows == base + extra;
      NamesAppend(base, extra);
      assert forall i :: 0 <= i < |extra| ==> extra[i].name in {MaxTemperatureName, MaxPressureName};
      assert SteamQualityName !in Names(extra);
    } else {
      assert rows == base;
    }
  }

  /** One line of text in the report, at vertical position `y` in millimetres. */
  datatype PdfLine = PdfLine(caption: string, shown: Text, y: int)

  /** The parameter lines from `y` on, 7 mm apart. */
  function ParamLines(entries: Record<JsValue>, y: int): (lines: seq<PdfLine>)
    ensures |lines| == |entries|
    ensures forall i :: 0 <= i < |entries| ==>
      lines[i] == PdfLine(FormatKey(entries[i].0), ParamDisplay(entries[i].1), y + 7 * i)
  {
    if entries == [] then []
    else [PdfLine(FormatKey(entries[0].0), ParamDisplay(entries[0].1), y)] + ParamLines(entries[1..], y + 7)
  }

  /** The result lines from `y` on, 7 mm apart. */
  function RowLines(rows: seq<Row>, y: int): (lines: seq<PdfLine>)
    ensures |lines| == |rows|
    ensures forall i :: 0 <= i < |rows| ==> lines[i] == PdfLine(rows[i].name, rows[i].shown, y + 7 * i)
  {
    if rows == [] then [] else [PdfLine(rows[0].name, rows[0].shown, y)] + RowLines(rows[1..], y + 7)
  }

  lemma ParamLinesSnoc(entries: Record<JsValue>, y: int, i: nat)
    requires i < |entries|
    ensures ParamLines(entries[..i + 1], y)
         == ParamLines(entries[..i], y) + [PdfLine(FormatKey(entries[i].0), ParamDisplay(entries[i].1), y + 7 * i)]
  {
    var a := ParamLines(entries[..i + 1], y);
    var b := ParamLines(entries[..i], y) + [PdfLine(FormatKey(entries[i].0), ParamDisplay(entries[i].1), y + 7 * i)];
    assert |a| == |b|;
    forall j | 0 <= j < |a| ensures a[j] == b[j] {
      assert entries[..i + 1][j] == entries[j];
    }
  }

  lemma RowLinesSnoc(rows: seq<Row>, y: int, i: nat)
    requires i < |rows|
    ensures RowLines(rows[..i + 1], y) == RowLines(rows[..i], y) + [PdfLine(rows[i].name, rows[i].shown, y + 7 * i)]
  {
    var a := RowLines(rows[..i + 1], y);
    var b := RowLines(rows[..i], y) + [PdfLine(rows[i].name, rows[i].shown, y + 7 * i)];
    assert |a| == |b|;
    forall j | 0 <= j < |a| ensures a[j] == b[j] {
      assert rows[..i + 1][j] == rows[j];
    }
  }

  /**
   * The text part of `generatePDF`: the parameter lines from 55 mm, the
   * "Results" heading 10 mm below the last of them, then the result
   * rows, pushed onto `results` and printed from 20 mm below it.
   */
  method GeneratePdfText(cycleType: string, parameters: Record<JsValue>, cycleData: CycleResult)
    returns (paramLines: seq<PdfLine>, resultsHeading: int, resultLines: seq<PdfLine>)
    ensures paramLines == ParamLines(parameters, 55)
    ensures resultsHeading == 55 + 7 * |parameters| + 10
    ensures resultLines == RowLines(ResultRows(cycleData, cycleType), 55 + 7 * |parameters| + 20)
  {
    var yPos := 55;
    paramLines, yPos := PrintParameters(parameters, yPos);
    resultsHeading := yPos + 10;
    yPos := yPos + 20;
    var results := CollectResults(cycleType, cycleData);
    resultLines, yPos := PrintResults(results, yPos);
  }

  /** The `forEach` over the parameter entries, one line every 7 mm from `y`. */
  method PrintParameters(parameters: Record<JsValue>, y: int) returns (lines: seq<PdfLine>, yPos: int)
    ensures lines == ParamLines(parameters, y)
    ensures yPos == y + 7 * |parameters|
  {
    yPos := y;
    lines := [];
    var i := 0;
    while i < |parameters|
      invariant 0 <= i <= |parameters|
      invariant yPos == y + 7 * i
      invariant lines == ParamLines(parameters[..i], y)
    {
      var (key, value) := parameters[i];
      ParamLinesSnoc(parameters, y, i);
      lines := lines + [PdfLine(FormatKey(key), ParamDisplay(value), yPos)];
      yPos := yPos + 7;
      i := i + 1;
    }
    assert parameters[..i] == parameters;
  }

  /** The rows pushed onto `results`: the base rows, then the cycle's optional rows. */
  method CollectResults(cycleType: string, cycleData: CycleResult) returns (results: seq<Row>)
    ensures results == ResultRows(cycleData, cycleType)
  {
    results := BaseRows(cycleData.efficiency, cycleData.workOutput, cycleData.heatInput, cycleData.heatRejected);
    if cycleType == RankineType && cycleData.steamQuality.Some? {
      results := results + [Row(SteamQualityName, Fixed(cycleData.steamQuality.value * 100.0, 2, Percent))];
    } else if (cycleType == OttoType || cycleType == DieselType) && cycleData.maxTemperature.Some? {
      results := results + [Row(MaxTemperatureName, Fixed(cycleData.maxTemperature.value, 1, Kelvin))];
      if cycleData.maxPressure.Some? {
        results := results + [Row(MaxPressureName, Fixed(cycleData.maxPressure.value, 2, Megapascal))];
      }
    }
  }

  /** The `forEach` over `results`, one line every 7 mm from `y`. */
  method PrintResults(results: seq<Row>, y: int) returns (lines: seq<PdfLine>, yPos: int)
    ensures lines == RowLines(results, y)
    ensures yPos == y + 7 * |results|
  {
    yPos := y;
    lines := [];
    var j := 0;
    while j < |results|
      invariant 0 <= j <= |results|
      invariant yPos == y + 7 * j
      invariant lines == RowLines(results[..j], y)
    {
      RowLinesSnoc(results, y, j);
      lines := lines + [PdfLine(results[j].name, results[j].shown, yPos)];
      yPos := yPos + 7;
      j := j + 1;
    }
    assert results[..j] == results;
  }

  /** Every printed line sits 7 mm below the one before it, and the results start 20 mm below the last parameter line. */
  lemma PdfLayout(parameters: Record<JsValue>, rows: seq<Row>)
    ensures var p := ParamLines(parameters, 55);
      forall i :: 0 < i < |p| ==> p[i].y == p[i - 1].y + 7
    ensures var r := RowLines(rows, 55 + 7 * |parameters| + 20);
      forall i :: 0 < i < |r| ==> r[i].y == r[i - 1].y + 7
    ensures |parameters| > 0 && |rows| > 0 ==>
      RowLines(rows, 55 + 7 * |parameters| + 20)[0].y == ParamLines(parameters, 55)[|parameters| - 1].y + 27
  {
  }

  /** The report title: the cycle type with its first character upper-cased, then " Cycle Analysis". */
  function Title(cycleType: string): (title: string)
    ensures |title| == |cycleType| + |" Cycle Analysis"|
  {
    (if cycleType == [] then [] else [UpperChar(cycleType[0])] + cycleType[1..]) + " Cycle Analysis"
  }

  lemma TitleOfType(cycleType: string)
    requires |cycleType| > 0 && 'a' <= cycleType[0] <= 'z'
    ensures Title(cycleType)[0] == UpperChar(cycleType[0]) && IsUpper(Title(cycleType)[0])
    ensures Title(cycleType)[1..|cycleType|] == cycleType[1..]
    ensures Title(cycleType)[|cycleType|..] == " Cycle Analysis"
  {
  }

  // ------------------------------------------------------------ downloads

  function PdfFileName(cycleType: string): (name: string) {
    cycleType + "-cycle-analysis.pdf"
  }

  function JsonFileName(cycleType: string): (name: string) {
    cycleType + "-cycle-data.json"
  }

  /** Different cycle types get different file names, and a report never shares a name with a data file. */
  lemma FileNamesDistinct(a: string, b: string)
    ensures PdfFileName(a) == PdfFileName(b) ==> a == b
    ensures JsonFileName(a) == JsonFileName(b) ==> a == b
    ensures PdfFileName(a) != JsonFileName(b)
  {
    if PdfFileName(a) == PdfFileName(b) {
      assert a == PdfFileName(a)[..|a|];
      assert b == PdfFileName(b)[..|b|];
    }
    if JsonFileName(a) == JsonFileName(b) {
      assert a == JsonFileName(a)[..|a|];
      assert b == JsonFileName(b)[..|b|];
    }
    var p, j := PdfFileName(a), JsonFileName(b);
    assert p[|p| - 1] == 'f' && j[|j| - 1] == 'n';
  }

  /** What the PDF button does: save the prepared report, or generate it first. */
  datatype PdfAction = SaveReport(url: string, fileName: string) | GenerateReport

  function DownloadPdf(previewUrl: Option<string>, cycleType: string): (a: PdfAction)
    ensures a.SaveReport? <==> previewUrl.Some?
    ensures a.SaveReport? ==> a.url == previewUrl.value && a.fileName == PdfFileName(cycleType)
  {
    match previewUrl
    case Some(url) => SaveReport(url, PdfFileName(cycleType))
    case None => GenerateReport
  }

  /** The JSON export: exactly the cycle type, its parameters and the results. */
  datatype ExportObject = ExportObject(cycleType: string, parameters: Record<real>, results: CycleResult)

  /** A file to download: its name and the object serialised into it. */
  datatype JsonDownload = JsonDownload(fileName: string, data: ExportObject)

  /** `handleDownloadJSON`: nothing without cycle data. */
  function DownloadJson(cycleData: Option<CycleResult>, cycleType: string, parameters: Record<real>): (d: Option<JsonDownload>)
    ensures d.Some? <==> cycleData.Some?
    ensures d.Some? ==>
      && d.value.data == ExportObject(cycleType, parameters, cycleData.value)
      && d.value.fileName == JsonFileName(cycleType)
  {
    match cycleData
    case None => None
    case Some(r) => Some(JsonDownload(JsonFileName(cycleType), ExportObject(cycleType, parameters, r)))
  }
}
