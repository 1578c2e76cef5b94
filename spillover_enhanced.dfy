/** The enhanced spillover map (scripts/spillover_enhanced.js): Sinaloa's municipalities
    coloured by their monthly total, red circles on the municipalities of the neighbouring
    states sized by the selected crime type, the frontier test of the popups, the fixed
    colour scales and the month-to-month change of the frontier table. */
module SpilloverEnhanced {
  import opened Optional
  import opened JsStrings
  import opened Collections
  import opened Csv
  import opened Periods
  import opened Scales
  import opened Ladders

  // ---------------------------------------------------------------------------------
  // Reading (`parseCSV`, `parseCSVLine`)

  /** Lines cut on newlines, headers split on plain commas, cells split by `parseCSVLine`,
      every `"` removed from headers and cells before trimming, blank lines skipped. */
  const EnhancedFormat := Format(Newline, StripQuotes, StripQuotes, QuoteAware, true)

  /** One row per non-blank line after the header; headers and cells are trimmed and hold
      no `"`, and every row has exactly the headers as keys. */
  lemma ParseCsvFacts(text: string)
    ensures |Parse(EnhancedFormat, text)| == NonBlank(Lines(EnhancedFormat, text)[1..])
    ensures forall h :: h in Headers(EnhancedFormat, text) ==> Trimmed(h) && '"' !in h
    ensures forall r :: r in Parse(EnhancedFormat, text) ==> r.Keys == set h | h in Headers(EnhancedFormat, text)
    ensures forall r, h :: r in Parse(EnhancedFormat, text) && h in r ==> Trimmed(r[h]) && '"' !in r[h]
  {
    var headers, body := Headers(EnhancedFormat, text), Lines(EnhancedFormat, text)[1..];
    RowCount(EnhancedFormat, headers, body);
    RowKeys(EnhancedFormat, headers, body);
    RowsOfClean(EnhancedFormat, headers, body);
    HeadersClean(EnhancedFormat, text);
  }

  // ---------------------------------------------------------------------------------
  // Sinaloa polygons (the `style` callback of `addSinaloaLayer`)

  const ShadeTests: seq<Test> := [AtLeast(0.8), AtLeast(0.6), AtLeast(0.4), AtLeast(0.2)]
  const ShadePalette: seq<string> := ["#8b0000", "#dc143c", "#ff4500", "#ff6347", "#ffb6c1"]

  /** The colour of a positive intensity: inclusive bands at 0.8, 0.6, 0.4 and 0.2, and the
      lightest red below them. */
  function Shade(intensity: real): (c: string)
    ensures c == "#8b0000" <==> intensity >= 0.8
    ensures c == "#dc143c" <==> 0.6 <= intensity < 0.8
    ensures c == "#ff4500" <==> 0.4 <= intensity < 0.6
    ensures c == "#ff6347" <==> 0.2 <= intensity < 0.4
    ensures c == "#ffb6c1" <==> intensity < 0.2
    ensures c != "#f8f9fa"
  {
    PickAt(ShadeTests, ShadePalette, intensity, 0);
    PickAt(ShadeTests, ShadePalette, intensity, 1);
    PickAt(ShadeTests, ShadePalette, intensity, 2);
    PickAt(ShadeTests, ShadePalette, intensity, 3);
    PickAt(ShadeTests, ShadePalette, intensity, 4);
    Pick(ShadeTests, ShadePalette, intensity)
  }

  /** The total of the feature named `nomgeo`: that of the first row of the month with that
      `Municipio`, or 0 when there is none. */
  function FeatureTotal(periodData: seq<Row>, nomgeo: Option<string>): real
  {
    var k := FirstWith(periodData, "Municipio", nomgeo);
    if k < |periodData| then RealField(periodData[k], "Total") else 0.0
  }

  /** `Math.max(...totals, 1)`. */
  function MaxTotal(periodData: seq<Row>): (m: real)
    ensures m >= 1.0
  {
    MaxWith(RealColumn(periodData, "Total"), 1.0)
  }

  /** The fill of the feature named `nomgeo`: the base grey unless its total is positive,
      otherwise a shade of red for its share of the month's largest total. */
  function SinaloaFill(periodData: seq<Row>, nomgeo: Option<string>): (c: string)
    ensures var v := FeatureTotal(periodData, nomgeo);
      && (c == "#f8f9fa" <==> v <= 0.0)
      && (v > 0.0 ==> 0.0 < v / MaxTotal(periodData) <= 1.0 && c == Shade(v / MaxTotal(periodData)))
  {
    var v := FeatureTotal(periodData, nomgeo);
    if v > 0.0 then
      FeatureShare(periodData, nomgeo);
      Shade(v / MaxTotal(periodData))
    else "#f8f9fa"
  }

  /** A positive total of a feature is a share in `(0, 1]` of the month's maximum. */
  lemma FeatureShare(periodData: seq<Row>, nomgeo: Option<string>)
    requires FeatureTotal(periodData, nomgeo) > 0.0
    ensures 0.0 < FeatureTotal(periodData, nomgeo) / MaxTotal(periodData) <= 1.0
  {
    var v, m := FeatureTotal(periodData, nomgeo), MaxTotal(periodData);
    var k := FirstWith(periodData, "Municipio", nomgeo);
    var totals := RealColumn(periodData, "Total");
    assert totals[k] == v;
    assert v in totals;
    assert v <= m;
    UnitRatio(v, m);
  }

  // ---------------------------------------------------------------------------------
  // Frontier circles (`addFronterizosCircles`)

  /** `Math.max(lo, Math.min(hi, x))`. */
  function Clamp(x: real, lo: real, hi: real): (r: real)
    requires lo <= hi
    ensures lo <= r <= hi
    ensures lo <= x <= hi ==> r == x
  {
    if x < lo then lo else if x > hi then hi else x
  }

  /** The radius of a circle: 8 plus 22 times the value's share of the maximum, kept
      between 8 and 30. */
  function Radius(v: real, maxValue: real): (r: real)
    requires maxValue >= 1.0
    ensures 8.0 <= r <= 30.0
  {
    Clamp(8.0 + v / maxValue * 22.0, 8.0, 30.0)
  }

  /** For a positive value no larger than the maximum the bounds never cut in: the radius
      is the linear scale itself, it grows with the value and the maximum gets 30. */
  lemma RadiusLinear(v: real, w: real, maxValue: real)
    requires maxValue >= 1.0 && 0.0 < v <= w <= maxValue
    ensures Radius(v, maxValue) == 8.0 + v / maxValue * 22.0
    ensures Radius(v, maxValue) <= Radius(w, maxValue)
    ensures Radius(maxValue, maxValue) == 30.0
  {
    UnitRatio(v, maxValue);
    UnitRatio(w, maxValue);
    ScaleBounds(v / maxValue, 22.0);
    ScaleBounds(w / maxValue, 22.0);
    assert v / maxValue <= w / maxValue;
  }

  /** `parseFloat(row[crimeType]) || 0` is at most `maxValue` in every row. */
  predicate Bounded(rows: seq<Row>, crimeType: string, maxValue: real)
  {
    forall row :: row in rows ==> RealField(row, crimeType) <= maxValue
  }

  /** The circle of one row: drawn when its value is positive and its municipality and
      state have coordinates (`located`), with the row's names and the radius of its value. */
  function FrontierCircle(row: Row, crimeType: string, maxValue: real, located: set<(string, string)>): (c: Option<(string, string, real)>)
    requires maxValue >= 1.0
    ensures c.Some? <==> (RealField(row, crimeType) > 0.0 && "Municipio" in row && "Entidad" in row
      && (row["Municipio"], row["Entidad"]) in located)
    ensures c.Some? ==> c.value == (row["Municipio"], row["Entidad"], Radius(RealField(row, crimeType), maxValue))
  {
    var v := RealField(row, crimeType);
    if v > 0.0 && "Municipio" in row && "Entidad" in row && (row["Municipio"], row["Entidad"]) in located then
      Some((row["Municipio"], row["Entidad"], Radius(v, maxValue)))
    else None
  }

  /** The circles drawn for `rows`, in row order. */
  function Circles(rows: seq<Row>, crimeType: string, maxValue: real, located: set<(string, string)>): (cs: seq<(string, string, real)>)
    requires maxValue >= 1.0
    ensures |cs| <= |rows|
    ensures forall c :: c in cs ==> (c.0, c.1) in located && 8.0 <= c.2 <= 30.0
  {
    if rows == [] then []
    else
      var n := |rows| - 1;
      var c := FrontierCircle(rows[n], crimeType, maxValue, located);
      Circles(rows[..n], crimeType, maxValue, located) + if c.Some? then [c.value] else []
  }

  /** Every row with a positive value and coordinates has its circle. */
  lemma {:induction false} CirclesComplete(rows: seq<Row>, crimeType: string, maxValue: real, located: set<(string, string)>, k: nat)
    requires maxValue >= 1.0 && k < |rows|
    requires FrontierCircle(rows[k], crimeType, maxValue, located).Some?
    ensures FrontierCircle(rows[k], crimeType, maxValue, located).value in Circles(rows, crimeType, maxValue, located)
  {
    var n := |rows| - 1;
    if k < n {
      assert rows[..n][k] == rows[k];
      CirclesComplete(rows[..n], crimeType, maxValue, located, k);
    }
  }

  /** The values of the rows are bounded by their `Math.max(..., 1)`. */
  lemma MaxBounds(rows: seq<Row>, crimeType: string)
    ensures Bounded(rows, crimeType, MaxWith(RealColumn(rows, crimeType), 1.0))
  {
    forall row | row in rows ensures RealField(row, crimeType) <= MaxWith(RealColumn(rows, crimeType), 1.0) {
      RealColumnMember(rows, crimeType, row);
    }
  }

  /** The circles of the month's frontier rows, sized against their largest value. */
  function FrontierCircles(rows: seq<Row>, crimeType: string, located: set<(string, string)>): seq<(string, string, real)>
  {
    Circles(rows, crimeType, MaxWith(RealColumn(rows, crimeType), 1.0), located)
  }

  /** Each circle of a row is the linear scale of its value, and the row with the largest
      value, when that is at least 1, gets the largest circle. */
  lemma FrontierCirclesFacts(rows: seq<Row>, crimeType: string, located: set<(string, string)>, k: nat)
    requires k < |rows|
    requires FrontierCircle(rows[k], crimeType, MaxWith(RealColumn(rows, crimeType), 1.0), located).Some?
    ensures var m := MaxWith(RealColumn(rows, crimeType), 1.0);
      var v := RealField(rows[k], crimeType);
      && FrontierCircle(rows[k], crimeType, m, located).value in FrontierCircles(rows, crimeType, located)
      && FrontierCircle(rows[k], crimeType, m, located).value.2 == 8.0 + v / m * 22.0
      && (v == m ==> FrontierCircle(rows[k], crimeType, m, located).value.2 == 30.0)
  {
    var m := MaxWith(RealColumn(rows, crimeType), 1.0);
    CirclesComplete(rows, crimeType, m, located, k);
    MaxBounds(rows, crimeType);
    assert rows[k] in rows;
    var v := RealField(rows[k], crimeType);
    RadiusLinear(v, v, m);
  }

  // ---------------------------------------------------------------------------------
  // Frontier municipalities (`isMunicipioFronterizo`)

  /** The information file's `estados`: for each state the `nombre` of each of its entries
      (`None` for an entry that is `null` or has no `nombre`). */
  type FrontierInfo = map<string, seq<Option<string>>>

  /** `entries.some(m => m && m.nombre === name)`. */
  function AnyNamed(entries: seq<Option<string>>, name: string): (b: bool)
    ensures b <==> exists i :: 0 <= i < |entries| && entries[i] == Some(name)
  {
    if entries == [] then false
    else entries[0] == Some(name) || AnyNamed(entries[1..], name)
  }

  /** False when the information, its entry for the state, the name or the state is
      missing (`undefined` or `''`); otherwise whether one of the state's entries carries
      the name. */
  function IsFronterizo(info: Option<FrontierInfo>, municipio: Option<string>, estado: string): (b: bool)
    ensures b <==> (info.Some? && estado in info.value && municipio.Some? && municipio.value != "" && estado != ""
      && Some(municipio.value) in info.value[estado])
  {
    if info.None? || estado !in info.value then false
    else if municipio.None? || municipio.value == "" || estado == "" then false
    else AnyNamed(info.value[estado], municipio.value)
  }

  // ---------------------------------------------------------------------------------
  // Fixed colour scales (`getColorForValue`)

  const SinaloaTests: seq<Test> := [AtLeast(200.0), AtLeast(150.0), AtLeast(100.0), AtLeast(50.0)]
  const FrontierTests: seq<Test> := [AtLeast(10.0), AtLeast(5.0), AtLeast(2.0), AtLeast(1.0)]
  const FrontierPalette: seq<string> := ["#0066cc", "#3399ff", "#66b3ff", "#99ccff", "#cce6ff"]

  /** Light grey for 0; reds by inclusive steps of 200, 150, 100 and 50 for `'sinaloa'`,
      blues by inclusive steps of 10, 5, 2 and 1 for any other kind; the lightest colour of
      the scale below its last step, negative values included. */
  function ColorForValue(value: real, kind: string): (c: string)
    ensures c == "#f8f9fa" <==> value == 0.0
    ensures value != 0.0 && kind == "sinaloa" ==>
      && (c == "#8b0000" <==> value >= 200.0)
      && (c == "#dc143c" <==> 150.0 <= value < 200.0)
      && (c == "#ff4500" <==> 100.0 <= value < 150.0)
      && (c == "#ff6347" <==> 50.0 <= value < 100.0)
      && (c == "#ffb6c1" <==> value < 50.0)
    ensures value != 0.0 && kind != "sinaloa" ==>
      && (c == "#0066cc" <==> value >= 10.0)
      && (c == "#3399ff" <==> 5.0 <= value < 10.0)
      && (c == "#66b3ff" <==> 2.0 <= value < 5.0)
      && (c == "#99ccff" <==> 1.0 <= value < 2.0)
      && (c == "#cce6ff" <==> value < 1.0)
  {
    if value == 0.0 then "#f8f9fa"
    else if kind == "sinaloa" then
      PickAt(SinaloaTests, ShadePalette, value, 0);
      PickAt(SinaloaTests, ShadePalette, value, 1);
      PickAt(SinaloaTests, ShadePalette, value, 2);
      PickAt(SinaloaTests, ShadePalette, value, 3);
      PickAt(SinaloaTests, ShadePalette, value, 4);
      Pick(SinaloaTests, ShadePalette, value)
    else
      PickAt(FrontierTests, FrontierPalette, value, 0);
      PickAt(FrontierTests, FrontierPalette, value, 1);
      PickAt(FrontierTests, FrontierPalette, value, 2);
      PickAt(FrontierTests, FrontierPalette, value, 3);
      PickAt(FrontierTests, FrontierPalette, value, 4);
      Pick(FrontierTests, FrontierPalette, value)
  }

  // ---------------------------------------------------------------------------------
  // Month-to-month change (`generateMunicipalChangesTable`)

  /** The change from `prev` to `cur`: the percentage over a positive base, 100 for a new
      case over a base that is not positive, and 0 otherwise. */
  function MonthChange(prev: real, cur: real): (r: real)
    ensures prev > 0.0 ==> r * prev == (cur - prev) * 100.0
    ensures prev <= 0.0 ==> r == (if cur > 0.0 then 100.0 else 0.0)
    ensures r > 0.0 <==> (prev > 0.0 && cur > prev) || (prev <= 0.0 && cur > 0.0)
    ensures r == 0.0 <==> (prev > 0.0 && cur == prev) || (prev <= 0.0 && cur <= 0.0)
  {
    if prev > 0.0 then
      var r := (cur - prev) / prev * 100.0;
      assert r * prev == (cur - prev) * 100.0;
      r
    else if cur > 0.0 then 100.0
    else 0.0
  }

  /** The test of the `find` calls: the row's municipality, state and period. */
  predicate Matches(row: Row, municipio: string, estado: string, period: string)
  {
    Field(row, "Municipio") == Some(municipio) && Field(row, "Entidad") == Some(estado)
    && Field(row, "Periodo") == Some(period)
  }

  /** `find` of the first row with that municipality, state and period. */
  function FindRow(rows: seq<Row>, municipio: string, estado: string, period: string): (r: Option<Row>)
    ensures r.Some? ==> r.value in rows && Matches(r.value, municipio, estado, period)
    ensures r.None? <==> forall row :: row in rows ==> !Matches(row, municipio, estado, period)
  {
    if rows == [] then None
    else if Matches(rows[0], municipio, estado, period) then Some(rows[0])
    else
      assert forall row :: row in rows ==> row == rows[0] || row in rows[1..];
      FindRow(rows[1..], municipio, estado, period)
  }

  /** The total of the row found, or 0 without one. */
  function TotalOf(found: Option<Row>): real
  {
    if found.Some? then RealField(found.value, "Total") else 0.0
  }

  /** The changes of one municipality, one per pair of consecutive periods. */
  function ChangesRow(rows: seq<Row>, municipio: string, estado: string, periods: seq<string>): (r: seq<real>)
    ensures |r| == if |periods| == 0 then 0 else |periods| - 1
    ensures forall i :: 1 <= i < |periods| ==> (r[i - 1] ==
      MonthChange(TotalOf(FindRow(rows, municipio, estado, periods[i - 1])), TotalOf(FindRow(rows, municipio, estado, periods[i]))))
  {
    if |periods| <= 1 then []
    else
      seq(|periods| - 1, i requires 0 <= i < |periods| - 1 =>
        MonthChange(TotalOf(FindRow(rows, municipio, estado, periods[i])), TotalOf(FindRow(rows, municipio, estado, periods[i + 1]))))
  }

  // ---------------------------------------------------------------------------------
  // The analysis object

  /** The state `SpilloverEnhancedAnalysis` keeps: the rows read, the frontier information,
      the slider's periods and the selected period and crime type. */
  class SpilloverEnhancedAnalysis {
    var fronterizosData: Option<seq<Row>>
    var sinaloaMunicipalData: Option<seq<Row>>
    var fronterizosInfo: Option<FrontierInfo>
    var currentPeriod: Option<string>
    var currentDelito: string
    var periods: seq<string>
    /** The reader the data files go through. */
    const format: Format

    constructor()
      ensures fronterizosData == None && sinaloaMunicipalData == None && fronterizosInfo == None
      ensures currentPeriod == Some("Enero 2024") && currentDelito == "Total"
      ensures format == EnhancedFormat
      ensures periods == TwoYears(7) && |periods| == 19 && NoDuplicates(periods)
      ensures periods[0] == "Enero 2024" && periods[11] == "Diciembre 2024"
      ensures periods[12] == "Enero 2025" && periods[18] == "Julio 2025"
    {
      fronterizosData := None;
      sinaloaMunicipalData := None;
      fronterizosInfo := None;
      currentPeriod := Some("Enero 2024");
      currentDelito := "Total";
      periods := [];
      format := EnhancedFormat;
      new;
      InitPeriods();
      TwoYearsDistinct(7);
    }

    /** `initPeriods`: the twelve months of 2024, then January to July 2025. */
    method InitPeriods()
      modifies this
      ensures periods == old(periods) + TwoYears(7)
      ensures fronterizosData == old(fronterizosData) && sinaloaMunicipalData == old(sinaloaMunicipalData)
      ensures fronterizosInfo == old(fronterizosInfo)
      ensures currentPeriod == old(currentPeriod) && currentDelito == old(currentDelito)
    {
      var ps := AppendMonths(periods, "2024", 12);
      ps := AppendMonths(ps, "2025", 7);
      assert ps == periods + (MonthLabels("2024", 12) + MonthLabels("2025", 7));
      periods := ps;
    }

    /** `loadData` once the frontier rows and the information file are fetched. */
    method LoadData(fronterizosText: string, info: FrontierInfo)
      modifies this
      ensures fronterizosData == Some(Parse(format, fronterizosText))
      ensures fronterizosInfo == Some(info)
      ensures sinaloaMunicipalData == old(sinaloaMunicipalData) && periods == old(periods)
      ensures currentPeriod == old(currentPeriod) && currentDelito == old(currentDelito)
    {
      var rows := ReadRows(format, fronterizosText);
      fronterizosData := Some(rows);
      fronterizosInfo := Some(info);
    }

    /** `loadSinaloaMunicipalData` once the text is fetched. */
    method LoadSinaloaMunicipalData(text: string)
      modifies this
      ensures sinaloaMunicipalData == Some(Parse(format, text))
      ensures fronterizosData == old(fronterizosData) && fronterizosInfo == old(fronterizosInfo)
      ensures periods == old(periods) && currentPeriod == old(currentPeriod) && currentDelito == old(currentDelito)
    {
      var rows := ReadRows(format, text);
      sinaloaMunicipalData := Some(rows);
    }

    /** The slider: the period at `periodIndex`, `undefined` outside the list. */
    method SelectPeriod(periodIndex: int)
      modifies this
      ensures currentPeriod == Element(periods, periodIndex)
      ensures fronterizosData == old(fronterizosData) && sinaloaMunicipalData == old(sinaloaMunicipalData)
      ensures fronterizosInfo == old(fronterizosInfo) && periods == old(periods) && currentDelito == old(currentDelito)
    {
      currentPeriod := Element(periods, periodIndex);
    }

    /** The crime type selector. */
    method SelectDelito(delito: string)
      modifies this
      ensures currentDelito == delito
      ensures fronterizosData == old(fronterizosData) && sinaloaMunicipalData == old(sinaloaMunicipalData)
      ensures fronterizosInfo == old(fronterizosInfo) && periods == old(periods) && currentPeriod == old(currentPeriod)
    {
      currentDelito := delito;
    }

    /** `getSinaloaMunicipalDataForPeriod`: the rows of the month, none before loading. */
    function SinaloaRows(): (rows: seq<Row>)
      reads this
      ensures sinaloaMunicipalData.None? ==> rows == []
      ensures forall row :: row in rows <==>
        sinaloaMunicipalData.Some? && row in sinaloaMunicipalData.value && Field(row, "Periodo") == currentPeriod
    {
      if sinaloaMunicipalData.None? then [] else Where(sinaloaMunicipalData.value, "Periodo", currentPeriod, true)
    }

    /** `getFronterizosDataForPeriod`: the frontier rows of the month, none before loading or
        when the period is `undefined` or empty. */
    function FronterizosRows(): (rows: seq<Row>)
      reads this
      ensures fronterizosData.None? || currentPeriod.None? || currentPeriod == Some("") ==> rows == []
      ensures forall row :: row in rows <==> (fronterizosData.Some? && currentPeriod.Some? && currentPeriod != Some("")
        && row in fronterizosData.value && Field(row, "Periodo") == currentPeriod)
    {
      if fronterizosData.None? || currentPeriod.None? || currentPeriod == Some("") then []
      else Where(fronterizosData.value, "Periodo", currentPeriod, true)
    }

    /** The fill `addSinaloaLayer` gives the feature named `nomgeo`. */
    function PolygonFill(nomgeo: Option<string>): (c: string)
      reads this
      ensures c == "#f8f9fa" <==> FeatureTotal(SinaloaRows(), nomgeo) <= 0.0
    {
      SinaloaFill(SinaloaRows(), nomgeo)
    }

    /** The circles `addFronterizosCircles` draws for the month and crime type. */
    function FrontierLayer(located: set<(string, string)>): (cs: seq<(string, string, real)>)
      reads this
      ensures forall c :: c in cs ==> (c.0, c.1) in located && 8.0 <= c.2 <= 30.0
      ensures |cs| <= |FronterizosRows()|
    {
      FrontierCircles(FronterizosRows(), currentDelito, located)
    }

    /** `isMunicipioFronterizo` against the loaded information. */
    function IsMunicipioFronterizo(municipio: Option<string>, estado: string): (b: bool)
      reads this
      ensures fronterizosInfo.None? ==> !b
      ensures b ==> municipio.Some? && estado in fronterizosInfo.value && Some(municipio.value) in fronterizosInfo.value[estado]
    {
      IsFronterizo(fronterizosInfo, municipio, estado)
    }
  }
}
