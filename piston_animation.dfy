/**
 * The pure rules of the piston-cylinder animation: stage labels, linear
 * and colour interpolation, the piecewise piston position, the pressure
 * and temperature gauges, and the progress state that `animate`, the
 * progress slider and the reset button update.
 */
module PistonAnimation {
  import opened Wrappers
  import opened Thermodynamics

  // ------------------------------------------------------------ stage labels

  /** Progress at which the power stroke ends: 0.75 for Otto, 0.85 otherwise. */
  function ExpansionEnd(cycleType: string): (e: real)
    ensures e == 0.75 || e == 0.85
    ensures e == 0.75 <==> cycleType == "otto"
  {
    if cycleType == "otto" then 0.75 else 0.85
  }

  /** `getCycleStage`: the caption shown over the animation. */
  function GetCycleStage(progress: real, cycleType: string): string {
    if cycleType == "otto" then
      if progress < 0.25 then "Compression Stroke"
      else if progress < 0.5 then "Combustion (Constant Volume)"
      else if progress < 0.75 then "Power Stroke"
      else "Exhaust/Intake Stroke"
    else if cycleType == "diesel" then
      if progress < 0.25 then "Compression Stroke"
      else if progress < 0.5 then "Combustion (Constant Pressure)"
      else if progress < 0.85 then "Power Stroke"
      else "Exhaust/Intake Stroke"
    else
      if progress < 0.25 then "Pump (Compression)"
      else if progress < 0.5 then "Boiler (Heat Addition)"
      else if progress < 0.75 then "Turbine (Expansion)"
      else "Condenser (Heat Rejection)"
  }

  /** The four captions of a cycle type, in order. */
  function StageLabels(cycleType: string): (labels: seq<string>)
    ensures |labels| == 4
  {
    if cycleType == "otto" then
      ["Compression Stroke", "Combustion (Constant Volume)", "Power Stroke", "Exhaust/Intake Stroke"]
    else if cycleType == "diesel" then
      ["Compression Stroke", "Combustion (Constant Pressure)", "Power Stroke", "Exhaust/Intake Stroke"]
    else
      ["Pump (Compression)", "Boiler (Heat Addition)", "Turbine (Expansion)", "Condenser (Heat Rejection)"]
  }

  /** Thresholds after which the caption changes: 0.25, 0.5 and the end of the third stage. */
  function StageThresholds(cycleType: string): (t: seq<real>)
    ensures |t| == 3
  {
    [0.25, 0.5, if cycleType == "diesel" then 0.85 else 0.75]
  }

  /** Number of thresholds that `progress` has reached. */
  function ThresholdsReached(progress: real, t: seq<real>): (n: nat)
    ensures n <= |t|
  {
    if t == [] then 0
    else (if progress >= t[0] then 1 else 0) + ThresholdsReached(progress, t[1..])
  }

  /**
   * The caption is the n-th label of the cycle type, where n is the number
   * of stage thresholds reached: 0.25, 0.5 and 0.75 (Otto and every
   * non-engine type) or 0.85 (Diesel).
   */
  lemma CycleStageByThresholds(progress: real, cycleType: string)
    ensures GetCycleStage(progress, cycleType)
         == StageLabels(cycleType)[ThresholdsReached(progress, StageThresholds(cycleType))]
  {
    var t := StageThresholds(cycleType);
    assert t[1..][1..][1..] == [];
    assert ThresholdsReached(progress, t[1..][1..]) == if progress >= t[2] then 1 else 0;
    assert ThresholdsReached(progress, t[1..])
        == (if progress >= 0.5 then 1 else 0) + (if progress >= t[2] then 1 else 0);
  }

  /** Any cycle type other than "otto" and "diesel" gets the Rankine captions. */
  lemma OtherTypesGetRankineStages(progress: real, cycleType: string)
    requires cycleType != "otto" && cycleType != "diesel"
    ensures GetCycleStage(progress, cycleType) == GetCycleStage(progress, "rankine")
  {
  }

  /**
   * For the two engines the caption agrees with the piston stroke: the
   * compression stroke before 0.25, the power stroke exactly on
   * [0.5, ExpansionEnd), the exhaust stroke from ExpansionEnd on.
   */
  lemma StageMatchesPistonStroke(progress: real, cycleType: string)
    requires cycleType == "otto" || cycleType == "diesel"
    ensures GetCycleStage(progress, cycleType) == "Compression Stroke" <==> progress < 0.25
    ensures GetCycleStage(progress, cycleType) == "Power Stroke"
        <==> 0.5 <= progress < ExpansionEnd(cycleType)
    ensures GetCycleStage(progress, cycleType) == "Exhaust/Intake Stroke"
        <==> progress >= ExpansionEnd(cycleType)
  {
  }

  // ------------------------------------------------------------ interpolation

  /** `interpolate(a, b, t)`. */
  function Interpolate(a: real, b: real, t: real): real {
    a + (b - a) * t
  }

  /** Interpolation hits both ends and is affine in t. */
  lemma InterpolateEndsAndAffine(a: real, b: real, s: real, t: real, w: real)
    ensures Interpolate(a, b, 0.0) == a
    ensures Interpolate(a, b, 1.0) == b
    ensures Interpolate(a, b, (1.0 - w) * s + w * t)
         == (1.0 - w) * Interpolate(a, b, s) + w * Interpolate(a, b, t)
  {
    assert (b - a) * ((1.0 - w) * s + w * t) == (1.0 - w) * ((b - a) * s) + w * ((b - a) * t);
  }

  /** For t in [0, 1] the interpolated value lies between the two ends. */
  lemma InterpolateBetween(a: real, b: real, t: real)
    requires 0.0 <= t <= 1.0
    ensures a <= b ==> a <= Interpolate(a, b, t) <= b
    ensures b <= a ==> b <= Interpolate(a, b, t) <= a
  {
    if a <= b {
      var d := (b - a) * t;
      ScaleBetween(b - a, t, d);
      assert Interpolate(a, b, t) == a + d;
    } else {
      var d := (a - b) * t;
      ScaleBetween(a - b, t, d);
      NegateProduct(a - b, t, d);
      assert Interpolate(a, b, t) == a - d;
    }
  }

  lemma NegateProduct(x: real, t: real, d: real)
    requires d == x * t
    ensures (-x) * t == -d
  {
  }

  lemma ScaleBetween(x: real, t: real, d: real)
    requires x >= 0.0 && 0.0 <= t <= 1.0 && d == x * t
    ensures 0.0 <= d <= x
  {
    assert x * (1.0 - t) >= 0.0;
    assert d == x - x * (1.0 - t);
  }

  // ------------------------------------------------------ hexadecimal colours

  predicate IsHexDigit(c: char) {
    ('0' <= c <= '9') || ('a' <= c <= 'f') || ('A' <= c <= 'F')
  }

  predicate AllHexDigits(s: string) {
    forall i :: 0 <= i < |s| ==> IsHexDigit(s[i])
  }

  function HexDigitValue(c: char): (d: nat)
    requires IsHexDigit(c)
    ensures d < 16
  {
    if '0' <= c <= '9' then c as int - '0' as int
    else if 'a' <= c <= 'f' then c as int - 'a' as int + 10
    else c as int - 'A' as int + 10
  }

  /** The lower-case digit of `toString(16)`. */
  function HexDigitChar(d: nat): (c: char)
    requires d < 16
    ensures IsHexDigit(c) && !('A' <= c <= 'F') && HexDigitValue(c) == d
  {
    if d < 10 then ('0' as int + d) as char else ('a' as int + d - 10) as char
  }

  /** ASCII lower-casing of one character; the only letters it meets here are A to F. */
  function LowerChar(c: char): char {
    if 'A' <= c <= 'Z' then (c as int + 32) as char else c
  }

  function Lower(s: string): (r: string)
    ensures |r| == |s|
    ensures forall i :: 0 <= i < |s| ==> r[i] == LowerChar(s[i])
  {
    if s == [] then [] else [LowerChar(s[0])] + Lower(s[1..])
  }

  lemma HexDigitRoundTrip(c: char)
    requires IsHexDigit(c)
    ensures HexDigitChar(HexDigitValue(c)) == LowerChar(c)
  {
  }

  /** The regular expression `^#?([a-f\d]{2})([a-f\d]{2})([a-f\d]{2})$` with the `i` flag. */
  predicate IsHexColor(s: string) {
    (|s| == 7 && s[0] == '#' && AllHexDigits(s[1..])) || (|s| == 6 && AllHexDigits(s))
  }

  /** The six digits the three capture groups cover. */
  function ColorDigits(s: string): (ds: string)
    requires IsHexColor(s)
    ensures |ds| == 6 && AllHexDigits(ds)
  {
    if |s| == 7 then s[1..] else s
  }

  /** `String.prototype.substr(start, length)` for a non-negative start. */
  function Substr(s: string, start: nat, length: nat): (r: string)
    ensures |r| <= length
    ensures start + length <= |s| ==> r == s[start..start + length]
    ensures start >= |s| ==> r == ""
  {
    var from := if start < |s| then start else |s|;
    var to := if start + length < |s| then start + length else |s|;
    s[from..to]
  }

  /** The characters `parseInt` skips at the front (JavaScript's white space and line terminators). */
  predicate IsWhiteSpace(c: char) {
    c == ' ' || c == '\t' || c == '\n' || c == '\r' || c == '\U{000B}' || c == '\U{000C}'
    || c == '\U{00A0}' || c == '\U{1680}' || ('\U{2000}' <= c <= '\U{200A}')
    || c == '\U{2028}' || c == '\U{2029}' || c == '\U{202F}' || c == '\U{205F}'
    || c == '\U{3000}' || c == '\U{FEFF}'
  }

  function TrimStart(s: string): (r: string)
    ensures |r| <= |s| && r == s[|s| - |r|..]
    ensures r == [] || !IsWhiteSpace(r[0])
  {
    if s != [] && IsWhiteSpace(s[0]) then TrimStart(s[1..]) else s
  }

  /** Length of the longest prefix made of hexadecimal digits. */
  function HexPrefixLength(s: string): (n: nat)
    ensures n <= |s| && AllHexDigits(s[..n])
    ensures n < |s| ==> !IsHexDigit(s[n])
  {
    if s != [] && IsHexDigit(s[0]) then
      var n := 1 + HexPrefixLength(s[1..]);
      assert s[..n] == [s[0]] + s[1..][..n - 1];
      n
    else 0
  }

  /** Big-endian value of a string of hexadecimal digits. */
  function HexValue(ds: string): nat
    requires AllHexDigits(ds)
  {
    if ds == [] then 0 else 16 * HexValue(ds[..|ds| - 1]) + HexDigitValue(ds[|ds| - 1])
  }

  /** `Number.parseInt(s, 16)`; `None` is NaN. */
  function ParseIntHex(s: string): Option<int> {
    var t := TrimStart(s);
    var w := StripRadixPrefix(StripSign(t));
    var n := HexPrefixLength(w);
    var magnitude: int := HexValue(w[..n]);
    if n == 0 then None
    else if IsNegative(t) then Some(-magnitude)
    else Some(magnitude)
  }

  predicate IsNegative(t: string) {
    t != [] && t[0] == '-'
  }

  /** One leading sign character is skipped. */
  function StripSign(t: string): (u: string)
    ensures t == [] || (t[0] != '-' && t[0] != '+') ==> u == t
  {
    if t != [] && (t[0] == '-' || t[0] == '+') then t[1..] else t
  }

  /** With radix 16 a leading `0x` or `0X` is skipped. */
  function StripRadixPrefix(u: string): (w: string)
    ensures |u| < 2 || u[0] != '0' || (u[1] != 'x' && u[1] != 'X') ==> w == u
  {
    if |u| >= 2 && u[0] == '0' && (u[1] == 'x' || u[1] == 'X') then u[2..] else u
  }

  /** Value of a two-digit hexadecimal string. */
  function PairValue(s: string): (n: nat)
    requires |s| == 2 && AllHexDigits(s)
    ensures n < 256
  {
    16 * HexDigitValue(s[0]) + HexDigitValue(s[1])
  }

  /** A two-digit hexadecimal string parses to its value. */
  lemma ParseIntHexPair(s: string)
    requires |s| == 2 && AllHexDigits(s)
    ensures ParseIntHex(s) == Some(PairValue(s))
  {
    var c0, c1 := s[0], s[1];
    assert IsHexDigit(c0) && IsHexDigit(c1);
    assert s == [c0, c1];
    ParseIntHexDigits(c0, c1);
  }

  lemma ParseIntHexDigits(c0: char, c1: char)
    requires IsHexDigit(c0) && IsHexDigit(c1)
    ensures ParseIntHex([c0, c1]) == Some(PairValue([c0, c1]))
  {
    var s := [c0, c1];
    var n := HexPrefixLength(s);
    assert n == 2 by { PairPrefixLength(s); }
    var v := HexValue(s[..n]);
    assert v == PairValue(s) by {
      assert s[..n] == s;
      PairHexValue(s);
    }
    ParseIntHexDigitStart(s, n, v);
  }

  /** Text starting with two hexadecimal digits parses to the value of its digit prefix. */
  lemma ParseIntHexDigitStart(s: string, n: nat, v: nat)
    requires |s| >= 2 && IsHexDigit(s[0]) && IsHexDigit(s[1])
    requires n == HexPrefixLength(s) && v == HexValue(s[..n])
    ensures ParseIntHex(s) == Some(v)
  {
    assert TrimStart(s) == s by { HexDigitNotWhiteSpace(s[0]); }
    assert !IsNegative(s);
    assert StripSign(s) == s;
    assert StripRadixPrefix(s) == s;
    assert HexPrefixLength(s) != 0;
  }

  lemma HexDigitNotWhiteSpace(c: char)
    requires IsHexDigit(c)
    ensures !IsWhiteSpace(c)
  {
  }

  lemma PairPrefixLength(s: string)
    requires |s| == 2 && AllHexDigits(s)
    ensures HexPrefixLength(s) == 2
  {
    assert HexPrefixLength(s[1..][1..]) == 0;
    assert HexPrefixLength(s[1..]) == 1;
  }

  lemma PairHexValue(s: string)
    requires |s| == 2 && AllHexDigits(s)
    ensures HexValue(s) == PairValue(s)
  {
    assert s[..1] == [s[0]];
    assert [s[0]][..0] == [];
    assert HexValue(s[..1]) == HexDigitValue(s[0]);
  }

  /** `Math.round` on a finite value: the nearest integer, ties upward. */
  function Round(x: real): (n: int)
    ensures n as real - 0.5 <= x < n as real + 0.5
  {
    (x + 0.5).Floor
  }

  /** `Number.prototype.toString(16)` on a non-negative integer. */
  function ToHexNat(n: nat): (s: string)
    ensures |s| >= 1
  {
    if n < 16 then [HexDigitChar(n)] else ToHexNat(n / 16) + [HexDigitChar(n % 16)]
  }

  /** `Number.prototype.toString(16)` on an integer: a minus sign before negative values. */
  function ToHex(n: int): string {
    if n < 0 then "-" + ToHexNat(-n) else ToHexNat(n)
  }

  /** `padStart(2, "0")`. */
  function PadStart2(s: string): (r: string)
    ensures |r| == if |s| < 2 then 2 else |s|
    ensures |s| >= 2 ==> r == s
  {
    if |s| == 0 then "00" else if |s| == 1 then "0" + s else s
  }

  /** Reference definition: exactly two lower-case hexadecimal digits of a byte. */
  function Hex2(n: nat): (s: string)
    requires n < 256
    ensures |s| == 2 && AllHexDigits(s) && PairValue(s) == n
    ensures !('A' <= s[0] <= 'F') && !('A' <= s[1] <= 'F')
  {
    [HexDigitChar(n / 16), HexDigitChar(n % 16)]
  }

  /** `Math.round(c1 + factor * (c2 - c1))` on two parsed channels. */
  function RoundedMix(c1: int, c2: int, factor: real): int {
    Round(c1 as real + factor * (c2 - c1) as real)
  }

  /** One output channel: NaN when either input channel is NaN. */
  function MixChannel(c1: Option<int>, c2: Option<int>, factor: real): Option<int> {
    if c1.None? || c2.None? then None else Some(RoundedMix(c1.value, c2.value, factor))
  }

  /** A channel's text: "NaN" or the padded hexadecimal digits. */
  function ChannelText(c: Option<int>): (t: string)
    ensures |t| >= 2
  {
    match c
    case None => "NaN"
    case Some(n) => PadStart2(ToHex(n))
  }

  /** `interpolateColor(color1, color2, factor)`: a colour not matching the pattern is returned as is. */
  function InterpolateColor(color1: string, color2: string, factor: real): (r: string)
    ensures !IsHexColor(color1) ==> r == color1
    ensures IsHexColor(color1) ==> |r| >= 7 && r[0] == '#'
  {
    if !IsHexColor(color1) then color1
    else
      var ds := ColorDigits(color1);
      var r1 := ParseIntHex(ds[0..2]);
      var g1 := ParseIntHex(ds[2..4]);
      var b1 := ParseIntHex(ds[4..6]);
      var r2 := ParseIntHex(Substr(color2, 1, 2));
      var g2 := ParseIntHex(Substr(color2, 3, 2));
      var b2 := ParseIntHex(Substr(color2, 5, 2));
      "#" + ChannelText(MixChannel(r1, r2, factor))
          + ChannelText(MixChannel(g1, g2, factor))
          + ChannelText(MixChannel(b1, b2, factor))
  }

  /** A padded `toString(16)` of a byte is its two-digit reference form. */
  lemma ByteText(n: nat)
    requires n < 256
    ensures ChannelText(Some(n)) == Hex2(n)
  {
    if n < 16 {
      assert ToHexNat(n) == [HexDigitChar(n)];
    } else {
      assert ToHexNat(n / 16) == [HexDigitChar(n / 16)];
    }
  }

  /** The two-digit reference form of a parsed pair is the pair lower-cased. */
  lemma Hex2OfPair(s: string)
    requires |s| == 2 && AllHexDigits(s)
    ensures Hex2(PairValue(s)) == Lower(s)
  {
    var n := PairValue(s);
    assert n / 16 == HexDigitValue(s[0]) && n % 16 == HexDigitValue(s[1]);
    HexDigitRoundTrip(s[0]);
    HexDigitRoundTrip(s[1]);
  }

  /** `#` followed by six lower-case hexadecimal digits. */
  predicate IsLowerHexColor(s: string) {
    |s| == 7 && s[0] == '#'
    && forall i :: 1 <= i < 7 ==> IsHexDigit(s[i]) && !('A' <= s[i] <= 'F')
  }

  /** Channel j (0 red, 1 green, 2 blue) of a colour matching the pattern. */
  function Channel(c: string, j: nat): (n: nat)
    requires IsHexColor(c) && j < 3
    ensures n < 256
  {
    var ds := ColorDigits(c);
    if j == 0 then PairValue(ds[0..2]) else if j == 1 then PairValue(ds[2..4]) else PairValue(ds[4..6])
  }

  /** Mixing two bytes with a factor in [0, 1] gives the byte nearest to their interpolation. */
  lemma MixInByte(x: nat, y: nat, f: real)
    requires x < 256 && y < 256 && 0.0 <= f <= 1.0
    ensures 0 <= RoundedMix(x, y, f) < 256
    ensures RoundedMix(x, y, f) as real - 0.5 <= Interpolate(x as real, y as real, f)
                                              < RoundedMix(x, y, f) as real + 0.5
  {
    InterpolateBetween(x as real, y as real, f);
    assert (y - x) as real == y as real - x as real;
    assert x as real + f * (y - x) as real == Interpolate(x as real, y as real, f);
  }

  /** Pair j of a matching colour parses to channel j. */
  lemma ParsedChannel(c: string, j: nat)
    requires IsHexColor(c) && j < 3
    ensures j == 0 ==> ParseIntHex(ColorDigits(c)[0..2]) == Some(Channel(c, 0))
    ensures j == 1 ==> ParseIntHex(ColorDigits(c)[2..4]) == Some(Channel(c, 1))
    ensures j == 2 ==> ParseIntHex(ColorDigits(c)[4..6]) == Some(Channel(c, 2))
  {
    var d := ColorDigits(c);
    if j == 0 {
      ParseIntHexPair(d[0..2]);
    } else if j == 1 {
      ParseIntHexPair(d[2..4]);
    } else {
      ParseIntHexPair(d[4..6]);
    }
  }

  /** For a `#RRGGBB` colour, `substr(1, 2)`, `substr(3, 2)` and `substr(5, 2)` are its three pairs. */
  lemma SubstrPairs(c: string)
    requires IsHexColor(c) && c[0] == '#'
    ensures Substr(c, 1, 2) == ColorDigits(c)[0..2]
    ensures Substr(c, 3, 2) == ColorDigits(c)[2..4]
    ensures Substr(c, 5, 2) == ColorDigits(c)[4..6]
  {
  }

  /** Both colours parse completely, so every channel is a rounded mix. */
  lemma InterpolateColorParsed(c1: string, c2: string, f: real)
    requires IsHexColor(c1) && IsHexColor(c2) && c2[0] == '#'
    ensures InterpolateColor(c1, c2, f)
         == "#" + ChannelText(MixChannel(Some(Channel(c1, 0)), Some(Channel(c2, 0)), f))
                + ChannelText(MixChannel(Some(Channel(c1, 1)), Some(Channel(c2, 1)), f))
                + ChannelText(MixChannel(Some(Channel(c1, 2)), Some(Channel(c2, 2)), f))
  {
    ParsedChannel(c1, 0);
    ParsedChannel(c1, 1);
    ParsedChannel(c1, 2);
    ParsedChannel(c2, 0);
    ParsedChannel(c2, 1);
    ParsedChannel(c2, 2);
    SubstrPairs(c2);
  }

  /**
   * With a `#RRGGBB` second colour and a factor in [0, 1], the result is
   * `#` and, per channel, the two lower-case digits of
   * round(c1 + f (c2 - c1)).
   */
  lemma InterpolateColorChannels(c1: string, c2: string, f: real)
    requires IsHexColor(c1) && IsHexColor(c2) && c2[0] == '#'
    requires 0.0 <= f <= 1.0
    ensures 0 <= RoundedMix(Channel(c1, 0), Channel(c2, 0), f) < 256
    ensures 0 <= RoundedMix(Channel(c1, 1), Channel(c2, 1), f) < 256
    ensures 0 <= RoundedMix(Channel(c1, 2), Channel(c2, 2), f) < 256
    ensures InterpolateColor(c1, c2, f)
         == "#" + Hex2(RoundedMix(Channel(c1, 0), Channel(c2, 0), f))
                + Hex2(RoundedMix(Channel(c1, 1), Channel(c2, 1), f))
                + Hex2(RoundedMix(Channel(c1, 2), Channel(c2, 2), f))
    ensures IsLowerHexColor(InterpolateColor(c1, c2, f))
  {
    InterpolateColorBytes(c1, c2, f);
    LowerHexColorOfBytes(RoundedMix(Channel(c1, 0), Channel(c2, 0), f),
                         RoundedMix(Channel(c1, 1), Channel(c2, 1), f),
                         RoundedMix(Channel(c1, 2), Channel(c2, 2), f));
  }

  lemma InterpolateColorBytes(c1: string, c2: string, f: real)
    requires IsHexColor(c1) && IsHexColor(c2) && c2[0] == '#'
    requires 0.0 <= f <= 1.0
    ensures 0 <= RoundedMix(Channel(c1, 0), Channel(c2, 0), f) < 256
    ensures 0 <= RoundedMix(Channel(c1, 1), Channel(c2, 1), f) < 256
    ensures 0 <= RoundedMix(Channel(c1, 2), Channel(c2, 2), f) < 256
    ensures InterpolateColor(c1, c2, f)
         == "#" + Hex2(RoundedMix(Channel(c1, 0), Channel(c2, 0), f))
                + Hex2(RoundedMix(Channel(c1, 1), Channel(c2, 1), f))
                + Hex2(RoundedMix(Channel(c1, 2), Channel(c2, 2), f))
  {
    InterpolateColorParsed(c1, c2, f);
    MixedText(Channel(c1, 0), Channel(c2, 0), f);
    MixedText(Channel(c1, 1), Channel(c2, 1), f);
    MixedText(Channel(c1, 2), Channel(c2, 2), f);
  }

  /** A mixed byte channel prints as its two-digit reference form. */
  lemma MixedText(x: nat, y: nat, f: real)
    requires x < 256 && y < 256 && 0.0 <= f <= 1.0
    ensures 0 <= RoundedMix(x, y, f) < 256
    ensures ChannelText(MixChannel(Some(x), Some(y), f)) == Hex2(RoundedMix(x, y, f))
  {
    MixInByte(x, y, f);
    ByteText(RoundedMix(x, y, f));
  }

  lemma LowerHexColorOfBytes(x: nat, y: nat, z: nat)
    requires x < 256 && y < 256 && z < 256
    ensures IsLowerHexColor("#" + Hex2(x) + Hex2(y) + Hex2(z))
  {
    var s := "#" + Hex2(x) + Hex2(y) + Hex2(z);
    assert s[1..3] == Hex2(x) && s[3..5] == Hex2(y) && s[5..7] == Hex2(z);
  }

  lemma LowerAppend(a: string, b: string)
    ensures Lower(a + b) == Lower(a) + Lower(b)
  {
    var l, r := Lower(a + b), Lower(a) + Lower(b);
    forall i | 0 <= i < |l| ensures l[i] == r[i] {
      if i < |a| { assert (a + b)[i] == a[i]; } else { assert (a + b)[i] == b[i - |a|]; }
    }
  }

  /** Lower-casing a six-digit string pair by pair. */
  lemma LowerByPairs(d: string)
    requires |d| == 6
    ensures Lower(d) == Lower(d[0..2]) + Lower(d[2..4]) + Lower(d[4..6])
  {
    var a, b, c := d[0..2], d[2..4], d[4..6];
    SixSplit(d, a, b, c);
    LowerJoin(a, b, c, d);
  }

  lemma SixSplit(d: string, a: string, b: string, c: string)
    requires |d| == 6 && a == d[0..2] && b == d[2..4] && c == d[4..6]
    ensures d == a + b + c
  {
  }

  lemma LowerJoin(a: string, b: string, c: string, d: string)
    requires d == a + b + c
    ensures Lower(d) == Lower(a) + Lower(b) + Lower(c)
  {
    LowerAppend(a + b, c);
    LowerAppend(a, b);
  }

  lemma RoundedMixEnds(x: int, y: int)
    ensures RoundedMix(x, y, 0.0) == x
    ensures RoundedMix(x, y, 1.0) == y
  {
    assert x as real + 1.0 * (y - x) as real == y as real;
  }

  /** Channel j of a matching colour prints as pair j lower-cased. */
  lemma ChannelHex(c: string, j: nat)
    requires IsHexColor(c) && j < 3
    ensures j == 0 ==> Hex2(Channel(c, 0)) == Lower(ColorDigits(c)[0..2])
    ensures j == 1 ==> Hex2(Channel(c, 1)) == Lower(ColorDigits(c)[2..4])
    ensures j == 2 ==> Hex2(Channel(c, 2)) == Lower(ColorDigits(c)[4..6])
  {
    var d := ColorDigits(c);
    if j == 0 {
      Hex2OfPair(d[0..2]);
    } else if j == 1 {
      Hex2OfPair(d[2..4]);
    } else {
      Hex2OfPair(d[4..6]);
    }
  }

  /** Reassembling the lower-cased pairs of six digits. */
  lemma LowerPairsJoin(d: string)
    requires |d| == 6
    ensures "#" + Lower(d[0..2]) + Lower(d[2..4]) + Lower(d[4..6]) == "#" + Lower(d)
  {
    LowerByPairs(d);
    AppendAssociative("#", Lower(d[0..2]), Lower(d[2..4]), Lower(d[4..6]));
  }

  lemma AppendAssociative(a: string, b: string, c: string, e: string)
    ensures a + b + c + e == a + (b + c + e)
  {
  }

  /** Factor 0 yields the first colour's digits, lower-cased, after a `#`. */
  lemma InterpolateColorAtZero(c1: string, c2: string)
    requires IsHexColor(c1) && IsHexColor(c2) && c2[0] == '#'
    ensures InterpolateColor(c1, c2, 0.0) == "#" + Lower(ColorDigits(c1))
  {
    var x0, x1, x2 := Channel(c1, 0), Channel(c1, 1), Channel(c1, 2);
    assert InterpolateColor(c1, c2, 0.0) == "#" + Hex2(x0) + Hex2(x1) + Hex2(x2) by {
      InterpolateColorBytes(c1, c2, 0.0);
      RoundedMixEnds(Channel(c1, 0), Channel(c2, 0));
      RoundedMixEnds(Channel(c1, 1), Channel(c2, 1));
      RoundedMixEnds(Channel(c1, 2), Channel(c2, 2));
    }
    ChannelsText(c1, x0, x1, x2);
  }

  /** The three channels of a matching colour print as its digits lower-cased. */
  lemma ChannelsText(c: string, x0: nat, x1: nat, x2: nat)
    requires IsHexColor(c)
    requires x0 == Channel(c, 0) && x1 == Channel(c, 1) && x2 == Channel(c, 2)
    ensures "#" + Hex2(x0) + Hex2(x1) + Hex2(x2) == "#" + Lower(ColorDigits(c))
  {
    var d := ColorDigits(c);
    assert Hex2(x0) == Lower(d[0..2]) by { ChannelHex(c, 0); }
    assert Hex2(x1) == Lower(d[2..4]) by { ChannelHex(c, 1); }
    assert Hex2(x2) == Lower(d[4..6]) by { ChannelHex(c, 2); }
    LowerPairsJoin(d);
  }

  /** Factor 1 yields the second colour, lower-cased. */
  lemma InterpolateColorAtOne(c1: string, c2: string)
    requires IsHexColor(c1) && IsHexColor(c2) && c2[0] == '#'
    ensures InterpolateColor(c1, c2, 1.0) == Lower(c2)
  {
    var x0, x1, x2 := Channel(c2, 0), Channel(c2, 1), Channel(c2, 2);
    assert InterpolateColor(c1, c2, 1.0) == "#" + Hex2(x0) + Hex2(x1) + Hex2(x2) by {
      InterpolateColorBytes(c1, c2, 1.0);
      RoundedMixEnds(Channel(c1, 0), Channel(c2, 0));
      RoundedMixEnds(Channel(c1, 1), Channel(c2, 1));
      RoundedMixEnds(Channel(c1, 2), Channel(c2, 2));
    }
    ChannelsText(c2, x0, x1, x2);
    assert Lower(c2) == "#" + Lower(ColorDigits(c2)) by {
      HashThenDigits(c2);
      LowerAppend("#", ColorDigits(c2));
    }
  }

  lemma HashThenDigits(c: string)
    requires IsHexColor(c) && c[0] == '#'
    ensures c == "#" + ColorDigits(c)
  {
    assert !IsHexDigit(c[0]);
    assert |c| == 7;
    assert c == [c[0]] + c[1..];
  }

  lemma LowerOfLowerHex(s: string)
    requires forall i :: 0 <= i < |s| ==> IsHexDigit(s[i]) && !('A' <= s[i] <= 'F')
    ensures Lower(s) == s
  {
  }

  /** A lower-case `#RRGGBB` colour matches the pattern and is its own lower-casing. */
  lemma LowerHexColorIsHex(c: string)
    requires IsLowerHexColor(c)
    ensures IsHexColor(c) && c[0] == '#'
    ensures ColorDigits(c) == c[1..] && Lower(c[1..]) == c[1..]
    ensures Lower(c) == c
  {
    assert AllHexDigits(c[1..]) by {
      forall i | 0 <= i < 6 ensures IsHexDigit(c[1..][i]) { assert c[1..][i] == c[i + 1]; }
    }
    LowerOfLowerHex(c[1..]);
    assert c == "#" + c[1..];
    LowerAppend("#", c[1..]);
  }

  /** Factor 0 from a lower-case `#RRGGBB` colour gives that colour back. */
  lemma InterpolateFromLowerHex(c1: string, c2: string)
    requires IsLowerHexColor(c1) && IsHexColor(c2) && c2[0] == '#'
    ensures InterpolateColor(c1, c2, 0.0) == c1
  {
    LowerHexColorIsHex(c1);
    InterpolateColorAtZero(c1, c2);
  }

  /** Factor 1 towards a lower-case `#RRGGBB` colour gives that colour. */
  lemma InterpolateToLowerHex(c1: string, c2: string)
    requires IsHexColor(c1) && IsLowerHexColor(c2)
    ensures InterpolateColor(c1, c2, 1.0) == c2
  {
    LowerHexColorIsHex(c2);
    InterpolateColorAtOne(c1, c2);
  }

  // ------------------------------------------------------------- gas colour

  const LightBlue: string := "#ccccff"
  const Pink: string := "#ff6666"
  const Red: string := "#ff3333"

  lemma PaletteIsLowerHex()
    ensures IsLowerHexColor(LightBlue) && IsLowerHexColor(Pink) && IsLowerHexColor(Red)
  {
  }

  /** How far `progress` has come through the quarter cycle that begins at `start`. */
  function StrokeFraction(progress: real, start: real): (t: real)
    ensures start <= progress <= start + 0.25 ==> 0.0 <= t <= 1.0
  {
    (progress - start) / 0.25
  }

  /** The colour of the gas column: blue to pink while compressing, red, red to blue while expanding, blue. */
  function GasColor(progress: real): string {
    if progress < 0.25 then InterpolateColor(LightBlue, Pink, StrokeFraction(progress, 0.0))
    else if progress < 0.5 then Red
    else if progress < 0.75 then InterpolateColor(Red, LightBlue, StrokeFraction(progress, 0.5))
    else LightBlue
  }

  /** An interpolation towards a `#RRGGBB` colour with a factor in [0, 1] is well formed. */
  lemma InterpolateColorWellFormed(c1: string, c2: string, f: real)
    requires IsHexColor(c1) && IsHexColor(c2) && c2[0] == '#'
    requires 0.0 <= f <= 1.0
    ensures IsLowerHexColor(InterpolateColor(c1, c2, f))
  {
    InterpolateColorChannels(c1, c2, f);
  }

  /** For any progress from 0 on, the gas colour is `#` and six lower-case hexadecimal digits. */
  lemma GasColorWellFormed(progress: real)
    requires progress >= 0.0
    ensures IsLowerHexColor(GasColor(progress))
  {
    if progress < 0.25 {
      CompressionGasWellFormed(progress);
    } else if 0.5 <= progress < 0.75 {
      ExpansionGasWellFormed(progress);
    } else {
      PaletteIsLowerHex();
    }
  }

  lemma CompressionGasWellFormed(progress: real)
    requires 0.0 <= progress < 0.25
    ensures IsLowerHexColor(GasColor(progress))
  {
    var t := StrokeFraction(progress, 0.0);
    assert IsLowerHexColor(InterpolateColor(LightBlue, Pink, t)) by {
      PaletteIsHex();
      InterpolateColorWellFormed(LightBlue, Pink, t);
    }
  }

  lemma ExpansionGasWellFormed(progress: real)
    requires 0.5 <= progress < 0.75
    ensures IsLowerHexColor(GasColor(progress))
  {
    var t := StrokeFraction(progress, 0.5);
    assert IsLowerHexColor(InterpolateColor(Red, LightBlue, t)) by {
      PaletteIsHex();
      InterpolateColorWellFormed(Red, LightBlue, t);
    }
  }

  lemma PaletteIsHex()
    ensures IsHexColor(LightBlue) && IsHexColor(Pink) && IsHexColor(Red)
    ensures LightBlue[0] == '#' && Pink[0] == '#' && Red[0] == '#'
  {
    PaletteIsLowerHex();
    LowerHexColorIsHex(LightBlue);
    LowerHexColorIsHex(Pink);
    LowerHexColorIsHex(Red);
  }

  /**
   * The colour is continuous at 0.5 and 0.75, where each interpolation
   * meets the constant beside it; at 0.25 it jumps from pink to red.
   */
  lemma GasColorBoundaries()
    ensures GasColor(0.5) == Red
    ensures InterpolateColor(Red, LightBlue, 1.0) == GasColor(0.75) == LightBlue
    ensures InterpolateColor(LightBlue, Pink, 1.0) == Pink != GasColor(0.25)
  {
    PaletteIsLowerHex();
    LowerHexColorIsHex(LightBlue);
    LowerHexColorIsHex(Red);
    InterpolateFromLowerHex(Red, LightBlue);
    InterpolateToLowerHex(Red, LightBlue);
    InterpolateToLowerHex(LightBlue, Pink);
  }

  // -------------------------------------------------------- piston position

  const Margin: real := 40.0

  /** The drawn cylinder leaves a margin above and below. */
  function CylinderHeight(height: real): (h: real)
    ensures h == height - 80.0
  {
    height - Margin * 2.0
  }

  /** Compression stroke, from the bottom (H) to the top (H / ratio) over [0, 0.25). */
  function CompressionStroke(progress: real, h: real, ratio: real): real
    requires ratio != 0.0
  {
    h * (1.0 - (progress / 0.25) * (1.0 - 1.0 / ratio))
  }

  /** Expansion stroke, from H / ratio back to H over [0.5, expansionEnd). */
  function ExpansionStroke(progress: real, h: real, ratio: real, expansionEnd: real): real
    requires ratio != 0.0 && expansionEnd != 0.5
  {
    h / ratio + ((progress - 0.5) / (expansionEnd - 0.5)) * (h - h / ratio)
  }

  /** Exhaust stroke, from H to H / ratio over [expansionEnd, 1]. */
  function ExhaustStroke(progress: real, h: real, ratio: real, expansionEnd: real): real
    requires ratio != 0.0 && expansionEnd != 1.0
  {
    h - ((progress - expansionEnd) / (1.0 - expansionEnd)) * (h - h / ratio)
  }

  /** Otto and Diesel piston position for a cylinder of height H and a given stroke ratio. */
  function EnginePistonPosition(progress: real, h: real, ratio: real, expansionEnd: real): real
    requires ratio != 0.0 && 0.5 < expansionEnd < 1.0
  {
    if progress < 0.25 then CompressionStroke(progress, h, ratio)
    else if progress < 0.5 then h / ratio
    else if progress < expansionEnd then ExpansionStroke(progress, h, ratio, expansionEnd)
    else ExhaustStroke(progress, h, ratio, expansionEnd)
  }

  lemma CompressionStrokeInterpolates(progress: real, h: real, ratio: real)
    requires ratio != 0.0
    ensures CompressionStroke(progress, h, ratio) == Interpolate(h, h / ratio, progress / 0.25)
  {
    var t := progress / 0.25;
    assert h * (1.0 - t * (1.0 - 1.0 / ratio)) == h + (h / ratio - h) * t;
  }

  lemma ExpansionStrokeInterpolates(progress: real, h: real, ratio: real, e: real)
    requires ratio != 0.0 && e != 0.5
    ensures ExpansionStroke(progress, h, ratio, e) == Interpolate(h / ratio, h, (progress - 0.5) / (e - 0.5))
  {
  }

  lemma ExhaustStrokeInterpolates(progress: real, h: real, ratio: real, e: real)
    requires ratio != 0.0 && e != 1.0
    ensures ExhaustStroke(progress, h, ratio, e) == Interpolate(h, h / ratio, (progress - e) / (1.0 - e))
  {
    var t := (progress - e) / (1.0 - e);
    assert h - t * (h - h / ratio) == h + (h / ratio - h) * t;
  }

  /**
   * The piston starts each cycle at the bottom (H), stays at H / ratio over
   * [0.25, 0.5), and ends it at H / ratio: the intake stroke is not drawn,
   * so the position jumps back to H when progress wraps.
   */
  lemma EnginePistonShape(progress: real, h: real, ratio: real, e: real)
    requires ratio != 0.0 && 0.5 < e < 1.0
    ensures EnginePistonPosition(0.0, h, ratio, e) == h
    ensures 0.25 <= progress < 0.5 ==> EnginePistonPosition(progress, h, ratio, e) == h / ratio
    ensures EnginePistonPosition(1.0, h, ratio, e) == h / ratio
  {
    SelfQuotient(1.0 - e);
  }

  lemma SelfQuotient(x: real)
    requires x != 0.0
    ensures x / x == 1.0
  {
  }

  /** Each stroke ends where the next one starts: at 0.25, at 0.5 and at the end of expansion. */
  lemma EnginePistonContinuous(h: real, ratio: real, e: real)
    requires ratio != 0.0 && 0.5 < e < 1.0
    ensures CompressionStroke(0.25, h, ratio) == EnginePistonPosition(0.25, h, ratio, e) == h / ratio
    ensures EnginePistonPosition(0.5, h, ratio, e) == h / ratio
    ensures ExpansionStroke(e, h, ratio, e) == EnginePistonPosition(e, h, ratio, e) == h
  {
    SelfQuotient(e - 0.5);
    assert h * (1.0 - 1.0 * (1.0 - 1.0 / ratio)) == h * (1.0 / ratio);
  }

  lemma FractionInUnit(a: real, b: real)
    requires 0.0 <= a <= b && b > 0.0
    ensures 0.0 <= a / b <= 1.0
  {
  }

  /** For a stroke ratio of at least 1 the piston stays between H / ratio and H. */
  lemma EnginePistonBetween(progress: real, h: real, ratio: real, e: real)
    requires ratio >= 1.0 && h >= 0.0 && 0.5 < e < 1.0
    requires 0.0 <= progress <= 1.0
    ensures h / ratio <= EnginePistonPosition(progress, h, ratio, e) <= h
  {
    assert h / ratio <= h by {
      assert h / ratio * ratio == h;
      assert h / ratio * 1.0 <= h / ratio * ratio;
    }
    if progress < 0.25 {
      FractionInUnit(progress, 0.25);
      CompressionStrokeInterpolates(progress, h, ratio);
      InterpolateBetween(h, h / ratio, progress / 0.25);
    } else if progress < 0.5 {
    } else if progress < e {
      FractionInUnit(progress - 0.5, e - 0.5);
      ExpansionStrokeInterpolates(progress, h, ratio, e);
      InterpolateBetween(h / ratio, h, (progress - 0.5) / (e - 0.5));
    } else {
      FractionInUnit(progress - e, 1.0 - e);
      ExhaustStrokeInterpolates(progress, h, ratio, e);
      InterpolateBetween(h, h / ratio, (progress - e) / (1.0 - e));
    }
  }

  function PumpStroke(progress: real, h: real): real {
    h * (0.8 - progress * 0.6)
  }

  function TurbineStroke(progress: real, h: real): real {
    h * (0.65 + ((progress - 0.5) / 0.25) * 0.25)
  }

  function CondenserStroke(progress: real, h: real): real {
    h * (0.9 - ((progress - 0.75) / 0.25) * 0.1)
  }

  /** The simplified Rankine animation. */
  function RankinePistonPosition(progress: real, h: real): real {
    if progress < 0.25 then PumpStroke(progress, h)
    else if progress < 0.5 then h * 0.65
    else if progress < 0.75 then TurbineStroke(progress, h)
    else CondenserStroke(progress, h)
  }

  /**
   * The Rankine animation is continuous at 0.25, 0.5 and 0.75 and closes
   * its loop: it starts and ends at 0.8 H.
   */
  lemma RankinePistonLoop(h: real)
    ensures RankinePistonPosition(0.0, h) == h * 0.8
    ensures RankinePistonPosition(1.0, h) == h * 0.8
    ensures PumpStroke(0.25, h) == RankinePistonPosition(0.25, h) == h * 0.65
    ensures RankinePistonPosition(0.5, h) == h * 0.65
    ensures TurbineStroke(0.75, h) == RankinePistonPosition(0.75, h) == h * 0.9
  {
  }

  /** Over one cycle the Rankine piston stays between 0.65 H and 0.9 H. */
  lemma RankinePistonRange(progress: real, h: real)
    requires h >= 0.0 && 0.0 <= progress <= 1.0
    ensures h * 0.65 <= RankinePistonPosition(progress, h) <= h * 0.9
  {
    if progress < 0.25 {
      ScaleBetweenBounds(h, 0.65, 0.8 - progress * 0.6, 0.9);
    } else if progress < 0.5 {
      ScaleBetweenBounds(h, 0.65, 0.65, 0.9);
    } else if progress < 0.75 {
      var t := (progress - 0.5) / 0.25;
      FractionInUnit(progress - 0.5, 0.25);
      ScaleBetweenBounds(h, 0.65, 0.65 + t * 0.25, 0.9);
    } else {
      var t := (progress - 0.75) / 0.25;
      FractionInUnit(progress - 0.75, 0.25);
      ScaleBetweenBounds(h, 0.65, 0.9 - t * 0.1, 0.9);
    }
  }

  lemma ScaleBetweenBounds(h: real, lo: real, x: real, hi: real)
    requires h >= 0.0 && lo <= x <= hi
    ensures h * lo <= h * x <= h * hi
  {
  }

  predicate IsEngine(cycleType: string) {
    cycleType == "otto" || cycleType == "diesel"
  }

  /** The volumes the stroke ratio reads are present and non-zero (otherwise the source divides by zero or throws). */
  predicate PistonDefined(pv: seq<StatePoint>) {
    |pv| >= 2 && pv[0].x != 0.0 && pv[1].x != 0.0
  }

  /** The stroke ratio as the source computes it: v2 / v1, which is 1 / r for the calculators' diagrams. */
  function StrokeRatioAsWritten(pv: seq<StatePoint>): (ratio: real)
    requires PistonDefined(pv)
    ensures ratio != 0.0
  {
    pv[1].x / pv[0].x
  }

  /** The intended stroke ratio v1 / v2, the compression ratio r. */
  function StrokeRatio(pv: seq<StatePoint>): (ratio: real)
    requires PistonDefined(pv)
    ensures ratio != 0.0
    ensures ratio * StrokeRatioAsWritten(pv) == 1.0
  {
    pv[0].x / pv[1].x
  }

  /** Piston position as drawn by the source, with the ratio v2 / v1. */
  function PistonPositionAsWritten(cycleType: string, progress: real, height: real, pv: seq<StatePoint>): real
    requires IsEngine(cycleType) ==> PistonDefined(pv)
  {
    var h := CylinderHeight(height);
    if IsEngine(cycleType) then EnginePistonPosition(progress, h, StrokeRatioAsWritten(pv), ExpansionEnd(cycleType))
    else RankinePistonPosition(progress, h)
  }

  /** Piston position with the intended ratio v1 / v2. */
  function PistonPosition(cycleType: string, progress: real, height: real, pv: seq<StatePoint>): real
    requires IsEngine(cycleType) ==> PistonDefined(pv)
  {
    var h := CylinderHeight(height);
    if IsEngine(cycleType) then EnginePistonPosition(progress, h, StrokeRatio(pv), ExpansionEnd(cycleType))
    else RankinePistonPosition(progress, h)
  }

  lemma QuotientNonZero(a: real, b: real)
    requires a != 0.0 && b != 0.0
    ensures a / b != 0.0
  {
  }

  /** On an Otto diagram the source's ratio is 1 / r and the intended ratio is r. */
  lemma OttoStrokeRatio(m: MathLib, p: OttoParams)
    requires OttoDefined(m, p)
    ensures var pv := CalculateOttoCycle(m, Some(p)).pvData;
      && PistonDefined(pv)
      && StrokeRatio(pv) == p.compressionRatio
      && StrokeRatioAsWritten(pv) == 1.0 / p.compressionRatio
  {
    var pv := CalculateOttoCycle(m, Some(p)).pvData;
    var T1 := p.initialTemperature + 273.15;
    assert pv[0].x == (R * T1) / (p.initialPressure * 1000.0);
    assert pv[0].x != 0.0 by {
      assert R * T1 != 0.0;
      QuotientNonZero(R * T1, p.initialPressure * 1000.0);
    }
    assert pv[1].x * p.compressionRatio == pv[0].x by { OttoStateRelations(m, p); }
    CompressedVolume(pv[0].x, pv[1].x, p.compressionRatio);
  }

  lemma DieselStrokeRatio(m: MathLib, p: DieselParams)
    requires DieselDefined(m, p)
    ensures var pv := CalculateDieselCycle(m, Some(p)).pvData;
      && PistonDefined(pv)
      && StrokeRatio(pv) == p.compressionRatio
      && StrokeRatioAsWritten(pv) == 1.0 / p.compressionRatio
  {
    var pv := CalculateDieselCycle(m, Some(p)).pvData;
    var T1 := p.initialTemperature + 273.15;
    assert pv[0].x == (R * T1) / (p.initialPressure * 1000.0);
    assert pv[0].x != 0.0 by {
      assert R * T1 != 0.0;
      QuotientNonZero(R * T1, p.initialPressure * 1000.0);
    }
    assert pv[1].x == pv[0].x / p.compressionRatio;
    assert pv[1].x * p.compressionRatio == pv[0].x by {
      QuotientTimesDivisor(pv[0].x, p.compressionRatio, pv[1].x);
    }
    CompressedVolume(pv[0].x, pv[1].x, p.compressionRatio);
  }

  lemma QuotientTimesDivisor(a: real, b: real, q: real)
    requires b != 0.0 && q == a / b
    ensures q * b == a
  {
  }

  /** A volume compressed by a non-zero ratio r: v1 / v2 is r and v2 / v1 is 1 / r. */
  lemma CompressedVolume(v1: real, v2: real, r: real)
    requires v1 != 0.0 && v2 * r == v1
    ensures v2 != 0.0 && r != 0.0 && v1 / v2 == r && v2 / v1 == 1.0 / r
  {
  }

  /**
   * As written, for an Otto cycle with r > 1 the piston sits at H r over
   * [0.25, 0.5): below the bottom of the cylinder, and the gas column is
   * drawn longer than the cylinder.
   */
  lemma PistonLeavesCylinderAsWritten(m: MathLib, p: OttoParams, height: real, progress: real)
    requires OttoDefined(m, p) && p.compressionRatio > 1.0
    requires CylinderHeight(height) > 0.0 && 0.25 <= progress < 0.5
    ensures var pv := CalculateOttoCycle(m, Some(p)).pvData;
      && PistonDefined(pv)
      && PistonPositionAsWritten("otto", progress, height, pv) == CylinderHeight(height) * p.compressionRatio
      && PistonPositionAsWritten("otto", progress, height, pv) > CylinderHeight(height)
  {
    OttoStrokeRatio(m, p);
    var h := CylinderHeight(height);
    assert h / (1.0 / p.compressionRatio) == h * p.compressionRatio;
    assert h * p.compressionRatio > h * 1.0;
  }

  /** With the intended ratio the piston of an Otto or Diesel cycle with r >= 1 stays inside the cylinder. */
  lemma PistonStaysInCylinder(cycleType: string, progress: real, height: real, pv: seq<StatePoint>)
    requires IsEngine(cycleType) && PistonDefined(pv) && StrokeRatio(pv) >= 1.0
    requires CylinderHeight(height) >= 0.0 && 0.0 <= progress <= 1.0
    ensures CylinderHeight(height) / StrokeRatio(pv) <= PistonPosition(cycleType, progress, height, pv)
         <= CylinderHeight(height)
  {
    EnginePistonBetween(progress, CylinderHeight(height), StrokeRatio(pv), ExpansionEnd(cycleType));
  }

  /** For the calculator's Otto diagram, the top dead centre is H / r. */
  lemma OttoPistonStaysInCylinder(m: MathLib, p: OttoParams, progress: real, height: real)
    requires OttoDefined(m, p) && p.compressionRatio >= 1.0
    requires CylinderHeight(height) >= 0.0 && 0.0 <= progress <= 1.0
    ensures var pv := CalculateOttoCycle(m, Some(p)).pvData;
      && PistonDefined(pv)
      && CylinderHeight(height) / p.compressionRatio <= PistonPosition("otto", progress, height, pv)
         <= CylinderHeight(height)
  {
    OttoStrokeRatio(m, p);
    PistonStaysInCylinder("otto", progress, height, CalculateOttoCycle(m, Some(p)).pvData);
  }

  /** For the calculator's Diesel diagram, likewise. */
  lemma DieselPistonStaysInCylinder(m: MathLib, p: DieselParams, progress: real, height: real)
    requires DieselDefined(m, p) && p.compressionRatio >= 1.0
    requires CylinderHeight(height) >= 0.0 && 0.0 <= progress <= 1.0
    ensures var pv := CalculateDieselCycle(m, Some(p)).pvData;
      && PistonDefined(pv)
      && CylinderHeight(height) / p.compressionRatio <= PistonPosition("diesel", progress, height, pv)
         <= CylinderHeight(height)
  {
    DieselStrokeRatio(m, p);
    PistonStaysInCylinder("diesel", progress, height, CalculateDieselCycle(m, Some(p)).pvData);
  }

  // ------------------------------------------------------------------ gauges

  /** The quarter of the cycle `progress` lies in, by the gauges' if-chain. */
  function Quarter(progress: real): (i: nat)
    ensures i < 4
    ensures i > 0 ==> 0.25 * (i as real) <= progress
    ensures i < 3 ==> progress < 0.25 * (i as real) + 0.25
  {
    if progress < 0.25 then 0
    else if progress < 0.5 then 1
    else if progress < 0.75 then 2
    else 3
  }

  /** `Math.max(...s)` over a non-empty list. */
  function SeqMax(s: seq<real>): (m: real)
    requires |s| > 0
    ensures m in s
    ensures forall i :: 0 <= i < |s| ==> s[i] <= m
  {
    if |s| == 1 then s[0]
    else
      var rest := SeqMax(s[1..]);
      assert forall i :: 1 <= i < |s| ==> s[i] == s[1..][i - 1];
      if s[0] >= rest then s[0] else rest
  }

  /** `Math.min(...s)` over a non-empty list. */
  function SeqMin(s: seq<real>): (m: real)
    requires |s| > 0
    ensures m in s
    ensures forall i :: 0 <= i < |s| ==> m <= s[i]
  {
    if |s| == 1 then s[0]
    else
      var rest := SeqMin(s[1..]);
      assert forall i :: 1 <= i < |s| ==> s[i] == s[1..][i - 1];
      if s[0] <= rest then s[0] else rest
  }

  /** `points.map((point) => point.y)`. */
  function Ys(points: seq<StatePoint>): (ys: seq<real>)
    ensures |ys| == |points|
    ensures forall i :: 0 <= i < |points| ==> ys[i] == points[i].y
  {
    if |points| == 0 then [] else [points[0].y] + Ys(points[1..])
  }

  /**
   * A gauge's fill level. `Undefined` stands for the NaN (or infinite)
   * level JavaScript computes when a state index is missing or every
   * state has the same value.
   */
  datatype Reading = Level(value: real) | Undefined

  /**
   * The normalised gauge value: in quarter i it interpolates the i-th
   * state value towards the next one (the fourth quarter back to the
   * first), then scales by the smallest and largest state value.
   */
  function GaugeReading(ys: seq<real>, progress: real): (r: Reading)
    ensures |ys| == 0 ==> r == Level(0.5)
  {
    if |ys| == 0 then Level(0.5) else QuarterReading(ys, Quarter(progress), progress)
  }

  /** The reading inside quarter i: from state i towards state (i + 1) mod 4, on the range of all states. */
  function QuarterReading(ys: seq<real>, i: nat, progress: real): Reading
    requires |ys| > 0
  {
    var j := (i + 1) % 4;
    if i >= |ys| || j >= |ys| then Undefined
    else Normalised(Interpolate(ys[i], ys[j], QuarterFraction(progress, i)), SeqMin(ys), SeqMax(ys))
  }

  /** How far `progress` has come through quarter i, scaled to [0, 1]. */
  function QuarterFraction(progress: real, i: nat): (t: real)
    ensures 0.25 * (i as real) <= progress <= 0.25 * (i as real) + 0.25 ==> 0.0 <= t <= 1.0
  {
    (progress - 0.25 * (i as real)) * 4.0
  }

  /** `(v - lo) / (hi - lo)`, undefined when the range is empty. */
  function Normalised(v: real, lo: real, hi: real): (r: Reading)
    ensures lo < hi && lo <= v <= hi ==> r.Level? && 0.0 <= r.value <= 1.0
    ensures r.Level? ==> r.value * (hi - lo) == v - lo
  {
    if hi == lo then Undefined
    else
      FractionInUnitIfOrdered(v - lo, hi - lo);
      Level((v - lo) / (hi - lo))
  }

  lemma FractionInUnitIfOrdered(a: real, b: real)
    requires b != 0.0
    ensures 0.0 <= a <= b ==> 0.0 <= a / b <= 1.0
  {
    if 0.0 <= a <= b {
      FractionInUnit(a, b);
    }
  }

  /** The pressure gauge, fed by the P-V states; 0.5 without cycle data. */
  function PressureGauge(cycleData: Option<CycleResult>, progress: real): (r: Reading)
    ensures cycleData.None? ==> r == Level(0.5)
  {
    match cycleData
    case None => Level(0.5)
    case Some(c) => GaugeReading(Ys(c.pvData), progress)
  }

  /** The temperature gauge, fed by the T-S states; 0.5 without cycle data. */
  function TemperatureGauge(cycleData: Option<CycleResult>, progress: real): (r: Reading)
    ensures cycleData.None? ==> r == Level(0.5)
  {
    match cycleData
    case None => Level(0.5)
    case Some(c) => GaugeReading(Ys(c.tsData), progress)
  }

  /** Over a full cycle, with four states that are not all equal, the gauge reads within [0, 1]. */
  lemma GaugeInRange(ys: seq<real>, progress: real)
    requires |ys| >= 4 && 0.0 <= progress <= 1.0
    requires SeqMin(ys) < SeqMax(ys)
    ensures GaugeReading(ys, progress).Level?
    ensures 0.0 <= GaugeReading(ys, progress).value <= 1.0
  {
    var i := Quarter(progress);
    var t := QuarterFraction(progress, i);
    InterpolateBetween(ys[i], ys[(i + 1) % 4], t);
  }

  /** At progress 0.25 i, the start of quarter i, the gauge shows the i-th state exactly. */
  lemma GaugeAtStatePoint(ys: seq<real>, i: nat, progress: real)
    requires |ys| >= 4 && i < 4 && progress == 0.25 * (i as real)
    ensures GaugeReading(ys, progress) == Normalised(ys[i], SeqMin(ys), SeqMax(ys))
  {
    QuarterStart(i, progress);
    InterpolateEndsAndAffine(ys[i], ys[(i + 1) % 4], 0.0, 0.0, 0.0);
  }

  /** Progress 0.25 i lies at the very start of quarter i. */
  lemma QuarterStart(i: nat, p: real)
    requires i < 4 && p == 0.25 * (i as real)
    ensures Quarter(p) == i && QuarterFraction(p, i) == 0.0
  {
  }

  /** The gauge at progress 1 reads the same as at progress 0: the fourth quarter closes the loop. */
  lemma GaugeLoops(ys: seq<real>)
    requires |ys| >= 4
    ensures GaugeReading(ys, 1.0) == GaugeReading(ys, 0.0)
  {
    InterpolateEndsAndAffine(ys[3], ys[0], 0.0, 0.0, 0.0);
    InterpolateEndsAndAffine(ys[0], ys[1], 0.0, 0.0, 0.0);
  }

  /** The closing fifth state of a calculator's diagram changes no gauge reading. */
  lemma ClosingStateIgnored(ys: seq<real>, progress: real)
    requires |ys| == 5 && ys[4] == ys[0]
    ensures GaugeReading(ys, progress) == GaugeReading(ys[..4], progress)
  {
    ClosingMax(ys);
    ClosingMin(ys);
    var i := Quarter(progress);
    var j := (i + 1) % 4;
    assert ys[..4][i] == ys[i] && ys[..4][j] == ys[j];
  }

  lemma ClosingMax(ys: seq<real>)
    requires |ys| == 5 && ys[4] == ys[0]
    ensures SeqMax(ys) == SeqMax(ys[..4])
  {
    var m, m4 := SeqMax(ys), SeqMax(ys[..4]);
    assert m4 <= m by {
      var k :| 0 <= k < 4 && ys[..4][k] == m4;
      assert ys[k] == m4;
    }
    assert m <= m4 by {
      var k :| 0 <= k < 5 && ys[k] == m;
      assert ys[..4][k % 4] == m;
    }
  }

  lemma ClosingMin(ys: seq<real>)
    requires |ys| == 5 && ys[4] == ys[0]
    ensures SeqMin(ys) == SeqMin(ys[..4])
  {
    var n, n4 := SeqMin(ys), SeqMin(ys[..4]);
    assert n <= n4 by {
      var k :| 0 <= k < 4 && ys[..4][k] == n4;
      assert ys[k] == n4;
    }
    assert n4 <= n by {
      var k :| 0 <= k < 5 && ys[k] == n;
      assert ys[..4][k % 4] == n;
    }
  }

  /** A calculator's closed diagram drives both gauges by its four distinct states. */
  lemma GaugesUseFourStates(r: CycleResult, progress: real)
    requires IsClosedLoop(r)
    ensures PressureGauge(Some(r), progress) == GaugeReading(Ys(r.pvData)[..4], progress)
    ensures TemperatureGauge(Some(r), progress) == GaugeReading(Ys(r.tsData)[..4], progress)
  {
    ClosingStateIgnored(Ys(r.pvData), progress);
    ClosingStateIgnored(Ys(r.tsData), progress);
  }
}
