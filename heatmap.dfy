/** The municipal heatmap of Sinaloa (scripts/heatmap_sinaloa.js): monthly rows per
    municipality, polygons coloured by their total against the maximum over all months,
    red circles sized by one crime type, and the per-month snapshots with their statistics
    and top-ten tables. */
module Heatmap {
  import opened Optional
  import opened JsStrings
  import opened Collections
  import opened Csv
  import opened Periods
  import opened Scales
  import opened Ladders

  // ---------------------------------------------------------------------------------
  // Reading (`parseCSV`)

  /** Lines cut on newlines, headers and cells trimmed, plain comma split, blank lines
      skipped. */
  const HeatFormat := Format(Newline, TrimOnly, TrimOnly, CommaSplit, true)

  /** One row per non-blank line after the header, with exactly the trimmed headers as
      keys and trimmed values. */
  lemma ParseCsvFacts(text: string)
    ensures |Parse(HeatFormat, text)| == NonBlank(Lines(HeatFormat, text)[1..])
    ensures forall r :: r in Parse(HeatFormat, text) ==> r.Keys == set h | h in Headers(HeatFormat, text)
    ensures forall r, h :: r in Parse(HeatFormat, text) && h in r ==> Trimmed(r[h])
  {
    var headers, body := Headers(HeatFormat, text), Lines(HeatFormat, text)[1..];
    RowCount(HeatFormat, headers, body);
    RowKeys(HeatFormat, headers, body);
    RowsOfClean(HeatFormat, headers, body);
  }

  /** The nineteen months the slider steps through. */
  const HeatPeriods: seq<string> := TwoYears(7)

  lemma HeatPeriodsFacts()
    ensures |HeatPeriods| == 19 && NoDuplicates(HeatPeriods)
    ensures HeatPeriods[0] == "Enero 2024" && HeatPeriods[11] == "Diciembre 2024"
    ensures HeatPeriods[12] == "Enero 2025" && HeatPeriods[18] == "Julio 2025"
  {
    TwoYearsDistinct(7);
  }

  // ---------------------------------------------------------------------------------
  // Polygon colours (`getHeatColor`, the `style` callback of `updateHeatMap`)

  const HeatTests: seq<Test> :=
    [AtLeast(0.9), AtLeast(0.7), AtLeast(0.5), AtLeast(0.3), AtLeast(0.15), AtLeast(0.05), Over(0.0)]
  const HeatPalette: seq<string> :=
    ["#800026", "#BD0026", "#E31A1C", "#FC4E2A", "#FD8D3C", "#FEB24C", "#FFEDA0", "#e8e8e8"]

  /** `getHeatColor`: inclusive bands from 0.9 down to 0.05, then any positive intensity,
      then grey. */
  function HeatColor(intensity: real): (c: string)
    ensures c == "#800026" <==> intensity >= 0.9
    ensures c == "#BD0026" <==> 0.7 <= intensity < 0.9
    ensures c == "#E31A1C" <==> 0.5 <= intensity < 0.7
    ensures c == "#FC4E2A" <==> 0.3 <= intensity < 0.5
    ensures c == "#FD8D3C" <==> 0.15 <= intensity < 0.3
    ensures c == "#FEB24C" <==> 0.05 <= intensity < 0.15
    ensures c == "#FFEDA0" <==> 0.0 < intensity < 0.05
    ensures c == "#e8e8e8" <==> intensity <= 0.0
  {
    PickAt(HeatTests, HeatPalette, intensity, 0);
    PickAt(HeatTests, HeatPalette, intensity, 1);
    PickAt(HeatTests, HeatPalette, intensity, 2);
    PickAt(HeatTests, HeatPalette, intensity, 3);
    PickAt(HeatTests, HeatPalette, intensity, 4);
    PickAt(HeatTests, HeatPalette, intensity, 5);
    PickAt(HeatTests, HeatPalette, intensity, 6);
    PickAt(HeatTests, HeatPalette, intensity, 7);
    Pick(HeatTests, HeatPalette, intensity)
  }

  /** A higher intensity never gets a lighter colour (an earlier entry of the palette is
      darker). */
  lemma HeatColorMonotone(i: real, j: real)
    requires i <= j
    ensures Band(HeatTests, j) <= Band(HeatTests, i)
    ensures HeatColor(i) == HeatPalette[Band(HeatTests, i)] && HeatColor(j) == HeatPalette[Band(HeatTests, j)]
  {
    BandMonotone(HeatTests, i, j);
  }

  /** The key a row or a feature is filed under: the name trimmed and lower-cased. */
  function MunicipioKey(name: string): string
  {
    Lower(Trim(name))
  }

  /** Rows that have a `Municipio` cell; on any other row `row.Municipio.trim()` throws. */
  predicate Named(rows: seq<Row>)
  {
    forall row :: row in rows ==> "Municipio" in row
  }

  /** Rows read from a text whose header has `Municipio` are all named. */
  lemma ParsedNamed(text: string)
    requires "Municipio" in Headers(HeatFormat, text)
    ensures Named(Parse(HeatFormat, text))
  {
    ParseCsvFacts(text);
  }

  function KeyedTotals(rows: seq<Row>): (ps: seq<(string, real)>)
    requires Named(rows)
    ensures |ps| == |rows|
    ensures forall k :: 0 <= k < |rows| ==> ps[k] == (MunicipioKey(rows[k]["Municipio"]), RealField(rows[k], "Total"))
  {
    seq(|rows|, k requires 0 <= k < |rows| => (MunicipioKey(rows[k]["Municipio"]), RealField(rows[k], "Total")))
  }

  /** `dataByMunicipality`: the total of each row, filed under its key, one row after the
      other. */
  function DataByMunicipality(rows: seq<Row>): map<string, real>
    requires Named(rows)
  {
    ObjectOf(KeyedTotals(rows))
  }

  /** The key of row `k`. */
  function KeyOf(rows: seq<Row>, k: nat): string
    requires Named(rows) && k < |rows|
  {
    assert rows[k] in rows;
    MunicipioKey(rows[k]["Municipio"])
  }

  /** Every row's key is filed, and the value filed under a key is the total of a row with
      that key. */
  lemma DataByMunicipalityKeys(rows: seq<Row>)
    requires Named(rows)
    ensures forall k :: 0 <= k < |rows| ==> KeyOf(rows, k) in DataByMunicipality(rows)
    ensures forall key :: key in DataByMunicipality(rows) ==>
      (exists k :: 0 <= k < |rows| && KeyOf(rows, k) == key && DataByMunicipality(rows)[key] == RealField(rows[k], "Total"))
  {
    var ps := KeyedTotals(rows);
    var m := DataByMunicipality(rows);
    ObjectOfKeys(ps);
    forall k | 0 <= k < |rows| ensures KeyOf(rows, k) in m {
      assert ps[k] in ps;
    }
    forall key | key in m
      ensures exists k :: 0 <= k < |rows| && KeyOf(rows, k) == key && m[key] == RealField(rows[k], "Total")
    {
      var k :| 0 <= k < |ps| && ps[k] == (key, m[key]);
      assert KeyOf(rows, k) == key && m[key] == RealField(rows[k], "Total");
    }
  }

  /** A later row with the same key overwrites an earlier one: the value filed under the
      key of a row that no later row shares is that row's total. */
  lemma DataByMunicipalityLastWins(rows: seq<Row>, k: nat)
    requires Named(rows) && k < |rows|
    requires forall j :: k < j < |rows| ==> KeyOf(rows, j) != KeyOf(rows, k)
    ensures KeyOf(rows, k) in DataByMunicipality(rows)
    ensures DataByMunicipality(rows)[KeyOf(rows, k)] == RealField(rows[k], "Total")
  {
    var ps := KeyedTotals(rows);
    forall j | k < j < |ps| ensures ps[j].0 != ps[k].0 {
      assert ps[j].0 == KeyOf(rows, j);
    }
    ObjectOfLastWins(ps, k);
  }

  datatype Style = Style(fillColor: string, fillOpacity: real)

  /** The style of a feature without data or with a value that is not positive. */
  const NoData := Style("#e8e8e8", 0.5)

  /** The intensity of a value: its share of the global maximum, or 0 when that maximum is
      not positive (`Math.max` of no values is `-Infinity`, here `None`). */
  function Intensity(v: real, globalMax: Option<real>): real
  {
    if globalMax.Some? && globalMax.value > 0.0 then v / globalMax.value else 0.0
  }

  /** The `style` callback for the feature named `nomgeo`: coloured by intensity, with
      opacity 0.8, exactly when a period row is filed under its key with a positive value. */
  function PolygonStyle(byMunicipio: map<string, real>, globalMax: Option<real>, nomgeo: string): (s: Style)
    ensures var key := MunicipioKey(nomgeo);
      && (s == NoData <==> !(key in byMunicipio && byMunicipio[key] > 0.0))
      && (key in byMunicipio && byMunicipio[key] > 0.0 ==>
            s == Style(HeatColor(Intensity(byMunicipio[key], globalMax)), 0.8))
  {
    var key := MunicipioKey(nomgeo);
    if key in byMunicipio && byMunicipio[key] > 0.0 then
      Style(HeatColor(Intensity(byMunicipio[key], globalMax)), 0.8)
    else NoData
  }

  /** The rows of a period are rows of the data. */
  lemma WhereValues(data: seq<Row>, period: Option<string>, key: string)
    ensures ValuesIn(Where(data, "Periodo", period, true), key, RealColumn(data, key))
  {
    forall row | row in Where(data, "Periodo", period, true) ensures RealField(row, key) in RealColumn(data, key) {
      RealColumnMember(data, key, row);
    }
  }

  /** With the maximum taken over all rows, a municipality of the month with a positive total
      gets an intensity in `(0, 1]`, so a colour of the ladder other than grey, and every
      other feature stays grey. */
  lemma PolygonColoured(data: seq<Row>, period: Option<string>, nomgeo: string)
    requires Named(Where(data, "Periodo", period, true))
    ensures var byMunicipio := DataByMunicipality(Where(data, "Periodo", period, true));
      var key := MunicipioKey(nomgeo);
      var s := PolygonStyle(byMunicipio, MaxOf(RealColumn(data, "Total")), nomgeo);
      && (key in byMunicipio && byMunicipio[key] > 0.0 ==>
            0.0 < Intensity(byMunicipio[key], MaxOf(RealColumn(data, "Total"))) <= 1.0
            && s.fillColor != "#e8e8e8" && s.fillOpacity == 0.8)
      && (!(key in byMunicipio && byMunicipio[key] > 0.0) ==> s == NoData)
  {
    var rows := Where(data, "Periodo", period, true);
    var byMunicipio := DataByMunicipality(rows);
    var key := MunicipioKey(nomgeo);
    var totals := RealColumn(data, "Total");
    if key in byMunicipio && byMunicipio[key] > 0.0 {
      DataByMunicipalityKeys(rows);
      var k :| 0 <= k < |rows| && KeyOf(rows, k) == key && byMunicipio[key] == RealField(rows[k], "Total");
      WhereValues(data, period, "Total");
      assert rows[k] in rows;
      var v := byMunicipio[key];
      assert v in totals;
      UnitRatio(v, MaxOf(totals).value);
    }
  }

  /** The styles of the features named `features`. */
  function Styles(byMunicipio: map<string, real>, globalMax: Option<real>, features: seq<string>): (r: seq<Style>)
    ensures |r| == |features|
    ensures forall k :: 0 <= k < |features| ==> r[k] == PolygonStyle(byMunicipio, globalMax, features[k])
  {
    seq(|features|, k requires 0 <= k < |features| => PolygonStyle(byMunicipio, globalMax, features[k]))
  }

  // ---------------------------------------------------------------------------------
  // Circles (`addCrimeCircles`, `createSnapshotCircles`)

  const MainCircles := CircleRule(8.0, 35.0, 10.0, 16.0)
  const SnapshotCircles := CircleRule(4.0, 14.0, 5.0, 6.0)

  /** `addCrimeCircles`: 10.0 when the maximum is at most 1, 16.0 when maximum and minimum
      coincide, and otherwise 8.0 + ratio * 27.0 for the value's place between them. */
  lemma MainCircleSizes(v: real, gmin: real, gmax: real)
    ensures gmax <= 1.0 ==> CircleSize(MainCircles, v, gmin, gmax) == 10.0
    ensures gmax > 1.0 && gmax == gmin ==> CircleSize(MainCircles, v, gmin, gmax) == 16.0
    ensures gmax > 1.0 && gmin < gmax && gmin <= v <= gmax ==>
      CircleSize(MainCircles, v, gmin, gmax) == 8.0 + (v - gmin) / (gmax - gmin) * 27.0
  {
    CircleSizeCases(MainCircles, v, gmin, gmax);
  }

  /** `createSnapshotCircles`: 5.0 when the maximum is at most 1, 6.0 when maximum and minimum
      coincide, and otherwise 4.0 + ratio * 10.0 for the value's place between them. */
  lemma SnapshotCircleSizes(v: real, gmin: real, gmax: real)
    ensures gmax <= 1.0 ==> CircleSize(SnapshotCircles, v, gmin, gmax) == 5.0
    ensures gmax > 1.0 && gmax == gmin ==> CircleSize(SnapshotCircles, v, gmin, gmax) == 6.0
    ensures gmax > 1.0 && gmin < gmax && gmin <= v <= gmax ==>
      CircleSize(SnapshotCircles, v, gmin, gmax) == 4.0 + (v - gmin) / (gmax - gmin) * 10.0
  {
    CircleSizeCases(SnapshotCircles, v, gmin, gmax);
  }

  /** The circle of one row: drawn when its municipality has coordinates and its value of
      `crimeType` is positive, named after the municipality and sized by `rule` against the
      smallest positive and the largest value among `global`. */
  function RowCircle(rule: CircleRule, row: Row, global: seq<real>, crimeType: string, coords: set<string>): (c: Option<(string, real)>)
    requires RealField(row, crimeType) in global
    ensures var v := RealField(row, crimeType);
      && (c.Some? <==> "Municipio" in row && row["Municipio"] in coords && v > 0.0)
      && (c.Some? ==>
            (MinPositive(global).Some? && MaxOf(global).Some?
             && c.value == (row["Municipio"], CircleSize(rule, v, MinPositive(global).value, MaxOf(global).value))))
  {
    var v := RealField(row, crimeType);
    if "Municipio" in row && row["Municipio"] in coords && v > 0.0 then
      PositiveBetween(global, v);
      Some((row["Municipio"], CircleSize(rule, v, MinPositive(global).value, MaxOf(global).value)))
    else None
  }

  /** A circle of a valid rule stays within the rule's sizes. */
  lemma RowCircleBounds(rule: CircleRule, row: Row, global: seq<real>, crimeType: string, coords: set<string>)
    requires RealField(row, crimeType) in global
    ensures var c := RowCircle(rule, row, global, crimeType, coords);
      ValidRule(rule) && c.Some? ==> rule.minSize <= c.value.1 <= rule.maxSize
  {
    var v := RealField(row, crimeType);
    if v > 0.0 && ValidRule(rule) {
      CircleSizeBounds(rule, v, global);
    }
  }

  /** The values of `rows` are among `global`. */
  predicate ValuesIn(rows: seq<Row>, crimeType: string, global: seq<real>)
  {
    forall row :: row in rows ==> RealField(row, crimeType) in global
  }

  /** The circles drawn for `rows`, in row order. */
  function Circles(rule: CircleRule, rows: seq<Row>, global: seq<real>, crimeType: string, coords: set<string>): (cs: seq<(string, real)>)
    requires ValuesIn(rows, crimeType, global)
    ensures |cs| <= |rows|
    ensures forall c :: c in cs ==> c.0 in coords
    ensures ValidRule(rule) ==> forall c :: c in cs ==> rule.minSize <= c.1 <= rule.maxSize
  {
    if rows == [] then []
    else
      var n := |rows| - 1;
      assert forall r :: r in rows[..n] ==> r in rows;
      assert rows[n] in rows;
      var c := RowCircle(rule, rows[n], global, crimeType, coords);
      RowCircleBounds(rule, rows[n], global, crimeType, coords);
      Circles(rule, rows[..n], global, crimeType, coords) + if c.Some? then [c.value] else []
  }

  /** The circles of a prefix of the rows are among the circles of the rows, and so is the
      circle of the last row. */
  lemma CirclesStep(rule: CircleRule, rows: seq<Row>, global: seq<real>, crimeType: string, coords: set<string>)
    requires ValuesIn(rows, crimeType, global) && rows != []
    ensures ValuesIn(rows[..|rows| - 1], crimeType, global)
    ensures forall c :: c in Circles(rule, rows[..|rows| - 1], global, crimeType, coords) ==>
      c in Circles(rule, rows, global, crimeType, coords)
    ensures RowCircle(rule, rows[|rows| - 1], global, crimeType, coords).Some? ==>
      RowCircle(rule, rows[|rows| - 1], global, crimeType, coords).value in Circles(rule, rows, global, crimeType, coords)
  {
    assert forall r :: r in rows[..|rows| - 1] ==> r in rows;
    assert rows[|rows| - 1] in rows;
  }

  /** Every row with coordinates and a positive value has its circle. */
  lemma {:induction false} CirclesComplete(rule: CircleRule, rows: seq<Row>, global: seq<real>, crimeType: string, coords: set<string>, k: nat)
    requires ValuesIn(rows, crimeType, global)
    requires k < |rows| && RowCircle(rule, rows[k], global, crimeType, coords).Some?
    ensures RowCircle(rule, rows[k], global, crimeType, coords).value in Circles(rule, rows, global, crimeType, coords)
  {
    var n := |rows| - 1;
    var row := rows[k];
    CirclesStep(rule, rows, global, crimeType, coords);
    if k < n {
      var front := rows[..n];
      assert front[k] == row;
      CirclesComplete(rule, front, global, crimeType, coords, k);
      assert RowCircle(rule, row, global, crimeType, coords).value in Circles(rule, front, global, crimeType, coords);
    } else {
      assert row == rows[|rows| - 1];
    }
  }

  /** The circles of one period (`addCrimeCircles` with `MainCircles`, `createSnapshotCircles`
      with `SnapshotCircles`): at most one per row of the period, each at a municipality
      with coordinates and within the rule's sizes, every size taken against the values of
      all months. */
  function PeriodCircles(rule: CircleRule, data: seq<Row>, period: Option<string>, crimeType: string, coords: set<string>): (cs: seq<(string, real)>)
    ensures |cs| <= |Where(data, "Periodo", period, true)|
    ensures forall c :: c in cs ==> c.0 in coords
    ensures ValidRule(rule) ==> forall c :: c in cs ==> rule.minSize <= c.1 <= rule.maxSize
  {
    WhereValues(data, period, crimeType);
    Circles(rule, Where(data, "Periodo", period, true), RealColumn(data, crimeType), crimeType, coords)
  }

  /** Every row of the period whose municipality has coordinates and whose value is positive
      has its circle among the period's circles, sized by the rule between the smallest
      positive and the largest value of all months. */
  lemma PeriodCirclesComplete(rule: CircleRule, data: seq<Row>, period: Option<string>, crimeType: string, coords: set<string>, k: nat)
    requires k < |Where(data, "Periodo", period, true)|
    ensures var row, global := Where(data, "Periodo", period, true)[k], RealColumn(data, crimeType);
      && RealField(row, crimeType) in global
      && (RowCircle(rule, row, global, crimeType, coords).Some? ==>
            RowCircle(rule, row, global, crimeType, coords).value in PeriodCircles(rule, data, period, crimeType, coords))
  {
    var rows := Where(data, "Periodo", period, true);
    WhereValues(data, period, crimeType);
    assert rows[k] in rows;
    if RowCircle(rule, rows[k], RealColumn(data, crimeType), crimeType, coords).Some? {
      CirclesComplete(rule, rows, RealColumn(data, crimeType), crimeType, coords, k);
    }
  }

  // ---------------------------------------------------------------------------------
  // Snapshot statistics (`updateSnapshotStats`)

  /** The municipality and value the scan of `updateSnapshotStats` ends with: it starts at
      `''` and 0 and takes a row whenever its value beats the running maximum. */
  function Leader(names: seq<Option<string>>, values: seq<real>): (best: (Option<string>, real))
    requires |names| == |values|
    ensures best.1 >= 0.0 && forall x :: x in values ==> x <= best.1
    ensures best.1 == 0.0 ==> best.0 == Some("")
    ensures best.1 > 0.0 ==>
      (exists k :: 0 <= k < |values| && values[k] == best.1 && names[k] == best.0
        && forall j :: 0 <= j < k ==> values[j] < best.1)
  {
    if values == [] then (Some(""), 0.0)
    else
      var n := |values| - 1;
      var prev := Leader(names[..n], values[..n]);
      assert forall x :: x in values ==> x in values[..n] || x == values[n];
      assert forall j :: 0 <= j < n ==> values[j] == values[..n][j] && values[j] in values[..n];
      if values[n] > prev.1 then
        (names[n], values[n])
      else
        assert prev.1 > 0.0 ==>
          (exists k :: 0 <= k < n && values[..n][k] == prev.1 && names[..n][k] == prev.0
            && forall j :: 0 <= j < k ==> values[..n][j] < prev.1);
        prev
  }

  datatype Stats = Stats(total: real, municipios: nat, max: Option<real>, maxMunicipio: Option<string>, maxValue: real)

  /** `updateSnapshotStats`: the sum and the number of the positive values, their maximum,
      and the municipality of the first row with the largest positive value. */
  method UpdateSnapshotStats(periodData: seq<Row>, crimeType: string) returns (stats: Stats)
    ensures var values := RealColumn(periodData, crimeType);
      && stats.total == SumReals(Positives(values))
      && stats.municipios == |Positives(values)|
      && stats.max == MaxOf(Positives(values))
      && (stats.maxMunicipio, stats.maxValue) == Leader(Column(periodData, "Municipio"), values)
  {
    var values := RealColumn(periodData, crimeType);
    var names := Column(periodData, "Municipio");
    var positives := Positives(values);
    var maxMunicipio: Option<string> := Some("");
    var maxValue := 0.0;
    var i := 0;
    while i < |periodData|
      invariant 0 <= i <= |periodData|
      invariant (maxMunicipio, maxValue) == Leader(names[..i], values[..i])
    {
      assert names[..i + 1][..i] == names[..i] && values[..i + 1][..i] == values[..i];
      var value := RealField(periodData[i], crimeType);
      if value > maxValue {
        maxValue := value;
        maxMunicipio := Field(periodData[i], "Municipio");
      }
      i := i + 1;
    }
    assert names[..i] == names && values[..i] == values;
    stats := Stats(SumReals(positives), |positives|, MaxOf(positives), maxMunicipio, maxValue);
  }

  /** The municipality shown as the maximum has the maximum shown: when some value is
      positive the largest positive value is the leader's, and otherwise there is none. */
  lemma LeaderIsMax(names: seq<Option<string>>, values: seq<real>)
    requires |names| == |values|
    ensures var best := Leader(names, values);
      && (best.1 > 0.0 ==> MaxOf(Positives(values)) == Some(best.1))
      && (best.1 == 0.0 ==> MaxOf(Positives(values)) == None)
  {
    var best := Leader(names, values);
    var m := MaxOf(Positives(values));
    if best.1 > 0.0 {
      var k :| 0 <= k < |values| && values[k] == best.1 && names[k] == best.0
        && forall j :: 0 <= j < k ==> values[j] < best.1;
      assert values[k] in values;
      assert m.value in values;
    } else {
      NoPositives(values);
    }
  }

  // ---------------------------------------------------------------------------------
  // Snapshot tables (`generateSnapshotsTable`)

  function Entries(rows: seq<Row>, crimeType: string): (r: seq<Keyed<Option<string>>>)
    ensures |r| == |rows|
    ensures forall k :: 0 <= k < |rows| ==> r[k] == Keyed(Field(rows[k], "Municipio"), RealField(rows[k], crimeType))
  {
    seq(|rows|, k requires 0 <= k < |rows| => Keyed(Field(rows[k], "Municipio"), RealField(rows[k], crimeType)))
  }

  /** The table of one period: its municipalities with a positive value, largest first,
      at most ten. */
  function SnapshotTable(data: seq<Row>, period: Option<string>, crimeType: string): seq<Keyed<Option<string>>>
  {
    Take(SortDesc(Above(Entries(Where(data, "Periodo", period, true), crimeType), 0.0)), 10)
  }

  /** Every entry of a table is a positive entry of the period, the table is in descending
      order, it holds ten entries or every positive one, and no positive entry left out
      ranks above an entry kept. */
  lemma SnapshotTableFacts(data: seq<Row>, period: Option<string>, crimeType: string)
    ensures var all := Entries(Where(data, "Periodo", period, true), crimeType);
      var positive := Above(all, 0.0);
      var r := SnapshotTable(data, period, crimeType);
      && SortedDesc(r)
      && |r| == (if |positive| < 10 then |positive| else 10)
      && (forall e :: e in r ==> e in all && e.key > 0.0)
      && (forall x, y :: x in multiset(positive) - multiset(r) && y in r ==> x.key <= y.key)
  {
    var all := Entries(Where(data, "Periodo", period, true), crimeType);
    var positive := Above(all, 0.0);
    var r := SnapshotTable(data, period, crimeType);
    TopFacts(positive, 10);
    forall e | e in r ensures e in all && e.key > 0.0 {
      assert e in multiset(r);
      assert e in multiset(positive);
    }
  }

  /** The tables of all periods, in order. */
  function SnapshotTables(data: seq<Row>, periods: seq<string>, crimeType: string): (r: seq<seq<Keyed<Option<string>>>>)
    ensures |r| == |periods|
    ensures forall k :: 0 <= k < |periods| ==> r[k] == SnapshotTable(data, Some(periods[k]), crimeType)
  {
    seq(|periods|, k requires 0 <= k < |periods| => SnapshotTable(data, Some(periods[k]), crimeType))
  }

  // ---------------------------------------------------------------------------------
  // The map object

  /** The state `SinaloaHeatMap` keeps: the rows read, the global maximum and smallest
      positive total, and the periods of the slider. */
  class SinaloaHeatMap {
    var municipalData: seq<Row>
    var globalMaxValue: Option<real>
    var globalMinValue: Option<real>
    const periods: seq<string>

    constructor()
      ensures municipalData == [] && globalMaxValue == Some(0.0) && globalMinValue == Some(0.0)
      ensures periods == HeatPeriods
    {
      municipalData := [];
      globalMaxValue := Some(0.0);
      globalMinValue := Some(0.0);
      periods := HeatPeriods;
    }

    /** `loadMunicipalData` once the text is fetched. */
    method LoadMunicipalData(text: string)
      modifies this
      ensures municipalData == Parse(HeatFormat, text)
      ensures globalMaxValue == old(globalMaxValue) && globalMinValue == old(globalMinValue)
    {
      municipalData := ReadRows(HeatFormat, text);
    }

    /** `calculateGlobalMaximum`: the largest total and the smallest positive total over
        every month. */
    method CalculateGlobalMaximum()
      modifies this
      ensures municipalData == old(municipalData)
      ensures globalMaxValue == MaxOf(RealColumn(municipalData, "Total"))
      ensures globalMinValue == MinPositive(RealColumn(municipalData, "Total"))
    {
      var totals := RealColumn(municipalData, "Total");
      globalMaxValue := MaxOf(totals);
      globalMinValue := MinPositive(totals);
    }

    /** The polygon styles `updateHeatMap` gives the features named `features` for the
        period at `periodIndex`, or nothing when that period has no rows. */
    method UpdateHeatMap(periodIndex: int, features: seq<string>) returns (styles: Option<seq<Style>>)
      requires Named(Where(municipalData, "Periodo", Element(periods, periodIndex), true))
      ensures var rows := Where(municipalData, "Periodo", Element(periods, periodIndex), true);
        && (styles.None? <==> rows == [])
        && (styles.Some? ==> styles.value == Styles(DataByMunicipality(rows), globalMaxValue, features))
    {
      var rows := Where(municipalData, "Periodo", Element(periods, periodIndex), true);
      if rows == [] {
        return None;
      }
      styles := Some(Styles(DataByMunicipality(rows), globalMaxValue, features));
    }
  }
}
