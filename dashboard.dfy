/** The user dashboard's derived values: the icon tints decoded from the
    chart colours, the counters normalised from the analytics response,
    the conversion rate, and the data, labels and fills of the two charts. */
module Dashboard {

  import opened Js
  import opened Http
  import Analytics

  // ---------------------------------------------------------------------
  // Hex colours

  /** The chart palette. */
  const Colors: seq<string> := ["#60a5fa", "#34d399", "#fbbf24"]

  /** Multiplying by a non-negative factor keeps the order. */
  lemma MulMono(a: int, b: int, c: int)
    requires a <= b && c >= 0
    ensures a * c <= b * c
  {
    assert b * c - a * c == (b - a) * c;
  }

  /** Quotient and remainder are the only ones with `0 <= r < k`. */
  lemma DivModUnique(a: int, k: int, q: int, r: int)
    requires k > 0 && a == q * k + r && 0 <= r < k
    ensures a / k == q && a % k == r
  {
    var q', r' := a / k, a % k;
    if q > q' {
      assert (q - q') * k == q * k - q' * k;
      MulMono(1, q - q', k);
    } else if q < q' {
      assert (q' - q) * k == q' * k - q * k;
      MulMono(1, q' - q, k);
    }
  }

  predicate IsHexDigit(c: char) {
    '0' <= c <= '9' || 'a' <= c <= 'f' || 'A' <= c <= 'F'
  }

  /** `parseInt` of one hexadecimal digit. */
  function HexValue(c: char): (v: nat)
    requires IsHexDigit(c)
    ensures v < 16
  {
    if '0' <= c <= '9' then c as int - '0' as int
    else if 'a' <= c <= 'f' then c as int - 'a' as int + 10
    else c as int - 'A' as int + 10
  }

  /** The lower-case hexadecimal digit of `v`. */
  function HexDigit(v: nat): (c: char)
    requires v < 16
    ensures IsHexDigit(c) && HexValue(c) == v
    ensures !('A' <= c <= 'F')
  {
    if v < 10 then '0' + v as char else 'a' + (v - 10) as char
  }

  /** A colour written `#rrggbb`. */
  predicate HexColor(s: string) {
    |s| == 7 && s[0] == '#' && forall i :: 1 <= i < 7 ==> IsHexDigit(s[i])
  }

  /** The three channels of a colour. */
  datatype Rgb = Rgb(red: nat, green: nat, blue: nat)

  predicate ValidRgb(c: Rgb) {
    c.red < 256 && c.green < 256 && c.blue < 256
  }

  /** `parseInt(pair, 16)` of the pair at `i` and `i + 1`. */
  function PairValue(s: string, i: nat): (v: nat)
    requires i + 1 < |s| && IsHexDigit(s[i]) && IsHexDigit(s[i + 1])
    ensures v < 256
  {
    16 * HexValue(s[i]) + HexValue(s[i + 1])
  }

  /** `color.replace('#', '').match(/../g).map(hex => parseInt(hex, 16))`
      on a `#rrggbb` colour: the pairs after the `#`, each read as a byte. */
  function ParseColor(color: string): (c: Rgb)
    requires HexColor(color)
    ensures ValidRgb(c)
  {
    Rgb(PairValue(color, 1), PairValue(color, 3), PairValue(color, 5))
  }

  /** The lower-case `#rrggbb` spelling of a colour. */
  function FormatColor(c: Rgb): (s: string)
    requires ValidRgb(c)
    ensures HexColor(s)
  {
    ['#', HexDigit(c.red / 16), HexDigit(c.red % 16), HexDigit(c.green / 16),
     HexDigit(c.green % 16), HexDigit(c.blue / 16), HexDigit(c.blue % 16)]
  }

  /** Reading a formatted colour gives the channels back. */
  lemma ParseFormat(c: Rgb)
    requires ValidRgb(c)
    ensures ParseColor(FormatColor(c)) == c
  {
    var s := FormatColor(c);
    assert PairValue(s, 1) == 16 * (c.red / 16) + c.red % 16;
    assert PairValue(s, 3) == 16 * (c.green / 16) + c.green % 16;
    assert PairValue(s, 5) == 16 * (c.blue / 16) + c.blue % 16;
  }

  /** A lower-case digit is the digit of its value. */
  lemma HexDigitOfValue(c: char)
    requires IsHexDigit(c) && !('A' <= c <= 'F')
    ensures HexDigit(HexValue(c)) == c
  {
  }

  /** A pair splits back into its two digits. */
  lemma PairDigits(s: string, i: nat)
    requires i + 1 < |s| && IsHexDigit(s[i]) && IsHexDigit(s[i + 1])
    requires !('A' <= s[i] <= 'F') && !('A' <= s[i + 1] <= 'F')
    ensures HexDigit(PairValue(s, i) / 16) == s[i] && HexDigit(PairValue(s, i) % 16) == s[i + 1]
  {
    DivModUnique(PairValue(s, i), 16, HexValue(s[i]), HexValue(s[i + 1]));
    HexDigitOfValue(s[i]);
    HexDigitOfValue(s[i + 1]);
  }

  /** Every lower-case colour is the formatting of what it parses to, so
      decoding loses nothing. */
  lemma FormatParse(s: string)
    requires HexColor(s) && forall i :: 1 <= i < 7 ==> !('A' <= s[i] <= 'F')
    ensures FormatColor(ParseColor(s)) == s
  {
    PairDigits(s, 1);
    PairDigits(s, 3);
    PairDigits(s, 5);
    var f := FormatColor(ParseColor(s));
    assert forall i :: 0 <= i < 7 ==> f[i] == s[i];
  }

  /** The `r, g, b` text put inside `rgba(…, 0.2)`. */
  function RgbText(color: string): string
    requires HexColor(color)
  {
    var c := ParseColor(color);
    DecimalString(c.red) + ", " + DecimalString(c.green) + ", " + DecimalString(c.blue)
  }

  /** For every colour, the tint text splits at its commas into the three
      channels in decimal, red, green and blue, the last two after a space. */
  lemma RgbTextReadsBack(c: Rgb)
    requires ValidRgb(c)
    ensures var f := Split(RgbText(FormatColor(c)), ',');
      && |f| == 3
      && AllDigits(f[0]) && DigitsValue(f[0]) == c.red
      && f[1] != [] && f[1][0] == ' ' && AllDigits(f[1][1..]) && DigitsValue(f[1][1..]) == c.green
      && f[2] != [] && f[2][0] == ' ' && AllDigits(f[2][1..]) && DigitsValue(f[2][1..]) == c.blue
  {
    var r, g, b := DecimalString(c.red), DecimalString(c.green), DecimalString(c.blue);
    var parts := [r, " " + g, " " + b];
    RgbTextJoined(c);
    NoCommaInDigits(r);
    NoCommaInDigits(g);
    NoCommaInDigits(b);
    SplitUnique(parts, ',');
    assert parts[1][1..] == g && parts[2][1..] == b;
  }

  /** The tint text is the three printed channels joined with commas, the
      last two after a space. */
  lemma RgbTextJoined(c: Rgb)
    requires ValidRgb(c)
    ensures RgbText(FormatColor(c))
      == Join([DecimalString(c.red), " " + DecimalString(c.green), " " + DecimalString(c.blue)], ',')
  {
    RgbTextOf(c);
    JoinThree(DecimalString(c.red), DecimalString(c.green), DecimalString(c.blue));
  }

  /** The tint text of a formatted colour prints that colour's channels. */
  lemma RgbTextOf(c: Rgb)
    requires ValidRgb(c)
    ensures RgbText(FormatColor(c))
      == DecimalString(c.red) + ", " + DecimalString(c.green) + ", " + DecimalString(c.blue)
  {
    ParseFormat(c);
  }

  /** Three parts joined with `", "` are the first and the other two, each
      after a space, joined with commas. */
  lemma JoinThree(r: string, g: string, b: string)
    ensures Join([r, " " + g, " " + b], ',') == r + ", " + g + ", " + b
  {
    var parts := [r, " " + g, " " + b];
    assert Join(parts[2..], ',') == " " + b;
    assert Join(parts[1..], ',') == " " + g + [','] + (" " + b);
  }

  /** A digit string holds no comma. */
  lemma NoCommaInDigits(d: string)
    requires AllDigits(d)
    ensures ',' !in d && ',' !in " " + d
  {
    forall i | 0 <= i < |d| ensures d[i] != ',' {
      assert IsDigit(d[i]);
    }
    assert forall i :: 0 <= i < |" " + d| ==> (" " + d)[i] == ' ' || (" " + d)[i] in d;
  }

  /** The tints of the three summary cards. */
  lemma PaletteTints()
    ensures forall i :: 0 <= i < |Colors| ==> HexColor(Colors[i])
    ensures ParseColor(Colors[0]) == Rgb(96, 165, 250)
    ensures ParseColor(Colors[1]) == Rgb(52, 211, 153)
    ensures ParseColor(Colors[2]) == Rgb(251, 191, 36)
  {
    assert HexColor("#60a5fa") && HexColor("#34d399") && HexColor("#fbbf24");
  }

  // ---------------------------------------------------------------------
  // Counters

  /** `Number(t)` for a trimmed string, when it is an optionally signed
      run of decimal digits (the empty string is 0); None stands for NaN. */
  function DecimalValue(t: string): (n: Option<int>)
    ensures n.None? <==> !SignedDigits(t)
    ensures AllDigits(t) ==> n == Some(DigitsValue(t))
    ensures n.Some? && n.value != 0 ==> t != []
  {
    if AllDigits(t) then Some(DigitsValue(t))
    else if |t| > 1 && (t[0] == '-' || t[0] == '+') && AllDigits(t[1..]) then
      var m: int := DigitsValue(t[1..]);
      Some(if t[0] == '-' then -m else m)
    else None
  }

  /** An optionally signed run of decimal digits; a sign needs a digit after it. */
  predicate SignedDigits(t: string) {
    AllDigits(t) || (|t| > 1 && (t[0] == '-' || t[0] == '+') && AllDigits(t[1..]))
  }

  /** `Number(v) || 0` for a JSON scalar: NaN and 0 both become 0. A
      string is read after trimming. */
  function NumberOr0(v: Scalar): (n: int)
    ensures !Truthy(v) ==> n == 0
    ensures v.Num? ==> n == v.n
    ensures v.Bool? ==> n == (if v.b then 1 else 0)
    ensures v.Str? && !SignedDigits(Trim(v.s)) ==> n == 0
    ensures v.Str? && AllDigits(Trim(v.s)) ==> n == DigitsValue(Trim(v.s))
  {
    match v
    case Missing => 0
    case Null => 0
    case Bool(b) => if b then 1 else 0
    case Num(n) => n
    case Str(s) =>
      match DecimalValue(Trim(s))
      case Some(n) => n
      case None => 0
  }

  /** A string without white space is its own trim. */
  lemma TrimNoSpace(s: string)
    requires forall i :: 0 <= i < |s| ==> !IsSpace(s[i])
    ensures Trim(s) == s
  {
    if s != [] {
      assert !IsSpace(s[0]) && !IsSpace(s[|s| - 1]);
    }
  }

  /** A count sent as its decimal text (as the database driver sends a
      64-bit `COUNT`) is read back as the same number. */
  lemma NumberOfPrinted(n: int)
    ensures NumberOr0(Str(Printed(Num(n)))) == n
  {
    var d := DecimalString(if n < 0 then -n else n);
    DigitsHaveNoSpace(d);
    if n < 0 {
      var p := "-" + d;
      NegativeValue(d);
      assert Printed(Num(n)) == p;
      TrimNoSpace(p);
    } else {
      TrimNoSpace(d);
    }
  }

  /** Digits are not white space. */
  lemma DigitsHaveNoSpace(d: string)
    requires AllDigits(d)
    ensures forall i :: 0 <= i < |d| ==> !IsSpace(d[i])
  {
    forall i | 0 <= i < |d| ensures !IsSpace(d[i]) {
      assert IsDigit(d[i]);
    }
  }

  /** A minus sign before digits is read as the negated value. */
  lemma NegativeValue(d: string)
    requires d != [] && AllDigits(d)
    requires forall i :: 0 <= i < |d| ==> !IsSpace(d[i])
    ensures DecimalValue("-" + d) == Some(0 - DigitsValue(d) as int)
    ensures forall i :: 0 <= i < |"-" + d| ==> !IsSpace(("-" + d)[i])
  {
    var p := "-" + d;
    assert p[1..] == d;
    assert !AllDigits(p) by { assert !IsDigit(p[0]); }
    forall i | 0 <= i < |p| ensures !IsSpace(p[i]) {
      if i > 0 { assert p[i] == d[i - 1]; }
    }
  }

  // ---------------------------------------------------------------------
  // The processed analytics

  /** A chart point: `{ name: entry.day, value: entry.count }`. */
  datatype ChartPoint = ChartPoint(name: string, value: Scalar)

  /** `processedData`. */
  datatype Processed = Processed(totalEmails: int, generatedCount: int, refinedCount: int,
                                 sentCount: int, trendData: seq<ChartPoint>)

  /** `(data.trend || []).map(…)`: one point per entry, in order, values
      passed through as they came. */
  function TrendData(trend: Option<seq<Analytics.TrendEntry>>): (points: seq<ChartPoint>)
    ensures trend.None? ==> points == []
    ensures trend.Some? ==> |points| == |trend.value|
    ensures trend.Some? ==> forall i :: 0 <= i < |points| ==>
      points[i].name == trend.value[i].day && points[i].value == trend.value[i].count
  {
    match trend
    case None => []
    case Some(entries) =>
      seq(|entries|, i requires 0 <= i < |entries| => ChartPoint(entries[i].day, entries[i].count))
  }

  /** The response body normalised into `processedData`. */
  function Process(totals: Analytics.Totals, trend: Option<seq<Analytics.TrendEntry>>): Processed {
    Processed(NumberOr0(totals.totalEmails), NumberOr0(totals.generatedCount),
              NumberOr0(totals.refinedCount), NumberOr0(totals.sentCount), TrendData(trend))
  }

  /** What the analytics endpoint sends becomes seven chart points, Sunday
      first, with the endpoint's counts; the default totals become zeros. */
  lemma ProcessReport(trendMap: map<string, Scalar>)
    ensures var p := Process(Analytics.ZeroTotals, Some(Analytics.Trend(trendMap)));
      && p.totalEmails == 0 && p.generatedCount == 0 && p.refinedCount == 0 && p.sentCount == 0
      && |p.trendData| == 7
      && forall i :: 0 <= i < 7 ==>
           p.trendData[i].name == Analytics.WeekdayOrder[i]
           && p.trendData[i].value == Analytics.Trend(trendMap)[i].count
  {
  }

  /** `conversionRate`: 0 unless generated + refined is positive, else
      `Math.round(sent / (generated + refined) * 100)`, computed exactly
      (the nearest integer, halves rounded up). */
  function ConversionRate(generated: int, refined: int, sent: int): (rate: int)
    ensures generated + refined <= 0 ==> rate == 0
    ensures generated + refined > 0 ==>
      var d := generated + refined;
      2 * d * rate <= 200 * sent + d < 2 * d * (rate + 1)
  {
    var d := generated + refined;
    if d > 0 then (200 * sent + d) / (2 * d) else 0
  }

  /** With sent no larger than generated + refined the rate is a
      percentage. */
  lemma {:induction false} RateIsPercentage(generated: nat, refined: nat, sent: nat)
    requires sent <= generated + refined
    ensures 0 <= ConversionRate(generated, refined, sent) <= 100
  {
    var d := generated + refined;
    if d > 0 {
      var rate := ConversionRate(generated, refined, sent);
      assert 2 * d * rate <= 200 * sent + d <= 201 * d;
      assert 200 * sent + d < 2 * d * (rate + 1);
      if rate > 100 {
        assert 2 * d * rate == rate * (2 * d) && 101 * (2 * d) == 202 * d;
        MulMono(101, rate, 2 * d);
      } else if rate < 0 {
        assert 2 * d * (rate + 1) == (rate + 1) * (2 * d);
        MulMono(rate + 1, 0, 2 * d);
      }
    }
  }

  // ---------------------------------------------------------------------
  // Charts

  datatype Bar = Bar(name: string, count: int)
  datatype PieSlice = PieSlice(name: string, value: int)

  /** `barChartData`: four bars in a fixed order. */
  function BarChartData(p: Processed): (bars: seq<Bar>)
    ensures |bars| == 4
    ensures bars[0] == Bar("Generated", p.generatedCount) && bars[1] == Bar("Refined", p.refinedCount)
    ensures bars[2] == Bar("Sent", p.sentCount) && bars[3] == Bar("Total", p.totalEmails)
  {
    [Bar("Generated", p.generatedCount), Bar("Refined", p.refinedCount),
     Bar("Sent", p.sentCount), Bar("Total", p.totalEmails)]
  }

  /** `pieChartData`: the same three activities as slices. */
  function PieChartData(p: Processed): (slices: seq<PieSlice>)
    ensures |slices| == 3
  {
    [PieSlice("Generated", p.generatedCount), PieSlice("Refined", p.refinedCount),
     PieSlice("Sent", p.sentCount)]
  }

  /** The pie shows the bars without the total, in the same order. */
  lemma PieIsBarsWithoutTotal(p: Processed)
    ensures |PieChartData(p)| == |BarChartData(p)| - 1
    ensures forall i :: 0 <= i < |PieChartData(p)| ==>
      PieChartData(p)[i].name == BarChartData(p)[i].name
      && PieChartData(p)[i].value == BarChartData(p)[i].count
    ensures BarChartData(p)[3].name == "Total"
  {
  }

  /** `data.some(item => item.value > 0)`. */
  function AnyPositive(slices: seq<PieSlice>): (b: bool)
    ensures b <==> exists i :: 0 <= i < |slices| && slices[i].value > 0
  {
    if slices == [] then false
    else if slices[0].value > 0 then true
    else
      var rest := AnyPositive(slices[1..]);
      assert rest <==> exists i :: 1 <= i < |slices| && slices[i].value > 0 by {
        if rest {
          var i :| 0 <= i < |slices[1..]| && slices[1..][i].value > 0;
          assert slices[i + 1].value > 0;
        }
      }
      rest
  }

  /** The pie gives way to its placeholder exactly when none of the three
      activities has a positive count. */
  lemma PlaceholderIffNoActivity(p: Processed)
    ensures !AnyPositive(PieChartData(p)) <==>
      p.generatedCount <= 0 && p.refinedCount <= 0 && p.sentCount <= 0
  {
    var slices := PieChartData(p);
    assert slices[0].value == p.generatedCount && slices[1].value == p.refinedCount;
    assert slices[2].value == p.sentCount;
  }

  const LabelLength: nat := 8

  /** The slice label's name: the first 8 characters and `...` when longer
      than 8, else unchanged. */
  function ShortName(name: string): (short: string)
    ensures |name| <= LabelLength ==> short == name
    ensures |name| > LabelLength ==> |short| == LabelLength + 3
    ensures |name| > LabelLength ==> short[..LabelLength] == name[..LabelLength]
    ensures |name| > LabelLength ==> short[LabelLength..] == "..."
  {
    if |name| > LabelLength then name[..LabelLength] + "..." else name
  }

  /** Of the three slice names only "Generated" is cut. */
  lemma PieLabels()
    ensures ShortName("Generated") == "Generate..."
    ensures ShortName("Refined") == "Refined"
    ensures ShortName("Sent") == "Sent"
  {
    assert "Generated"[..8] == "Generate";
  }

  /** The gradient a slice is filled with: `index % colors.length`, which
      is NaN (no gradient) when there are no colours. */
  function CellGradient(index: nat, colorCount: nat): (g: Option<nat>)
    ensures g.None? <==> colorCount == 0
    ensures g.Some? ==> g.value < colorCount
    ensures index < colorCount ==> g == Some(index)
  {
    if colorCount == 0 then None else Some(index % colorCount)
  }

  /** The fills repeat with the palette's period; with the previous
      contract this fixes every fill. */
  lemma CellsCycle(index: nat, colorCount: nat)
    ensures CellGradient(index + colorCount, colorCount) == CellGradient(index, colorCount)
  {
    if colorCount > 0 {
      var q, r := index / colorCount, index % colorCount;
      assert (q + 1) * colorCount + r == q * colorCount + r + colorCount;
      DivModUnique(index + colorCount, colorCount, q + 1, r);
    }
  }

  /** With the three-colour palette the three slices get three different
      gradients, one each. */
  lemma PieGradients(p: Processed)
    ensures forall i :: 0 <= i < |PieChartData(p)| ==> CellGradient(i, |Colors|) == Some(i)
  {
  }
}
