/** The municipal map of Sinaloa (scripts/municipal_map.js): monthly rows per municipality,
    one circle marker per municipality with coordinates, sized and coloured by the selected
    crime type against the month's values, and the month's table sorted by a column. */
module MunicipalMap {
  import opened Optional
  import opened JsNumbers
  import opened Collections
  import opened Csv
  import opened Periods
  import opened Ladders
  import Scales
  import Heatmap
  import opened Controls

  // ---------------------------------------------------------------------------------
  // Reading (`loadData`) and the months

  /** `loadData` cuts, trims and splits exactly as the heatmap's `parseCSV` does: lines cut
      on newlines, headers and cells trimmed, a plain comma split and blank lines skipped
      (see `Heatmap.ParseCsvFacts`). */
  const MunicipalFormat := Heatmap.HeatFormat

  /** The nineteen months the constructor spells out, January 2024 to July 2025: the same
      list as the heatmap's (see `Heatmap.HeatPeriodsFacts`). */
  const MunicipalPeriods: seq<string> := Heatmap.HeatPeriods

  const DefaultCrime := "Homicidio doloso"

  // ---------------------------------------------------------------------------------
  // Marker colour (`getCrimeColor`)

  const CrimeTests: seq<Test> := [AtLeast(0.8), AtLeast(0.6), AtLeast(0.4), AtLeast(0.2), Over(0.0)]
  const CrimePalette: seq<string> := ["#8B0000", "#DC143C", "#FF4500", "#FF8C00", "#FFA500", "#cccccc"]
  const NoCases := "#cccccc"

  /** The colour of an intensity: inclusive bands at 0.8, 0.6, 0.4 and 0.2, the lightest
      orange for any other positive intensity and grey for none. */
  function CrimeColor(intensity: real): (c: string)
    ensures c == "#8B0000" <==> intensity >= 0.8
    ensures c == "#DC143C" <==> 0.6 <= intensity < 0.8
    ensures c == "#FF4500" <==> 0.4 <= intensity < 0.6
    ensures c == "#FF8C00" <==> 0.2 <= intensity < 0.4
    ensures c == "#FFA500" <==> 0.0 < intensity < 0.2
    ensures c == NoCases <==> intensity <= 0.0
  {
    PickAt(CrimeTests, CrimePalette, intensity, 0);
    PickAt(CrimeTests, CrimePalette, intensity, 1);
    PickAt(CrimeTests, CrimePalette, intensity, 2);
    PickAt(CrimeTests, CrimePalette, intensity, 3);
    PickAt(CrimeTests, CrimePalette, intensity, 4);
    PickAt(CrimeTests, CrimePalette, intensity, 5);
    Pick(CrimeTests, CrimePalette, intensity)
  }

  /** A higher intensity never gets a lighter band. */
  lemma CrimeColorMonotone(i: real, j: real)
    requires i <= j
    ensures Band(CrimeTests, j) <= Band(CrimeTests, i)
  {
    BandMonotone(CrimeTests, i, j);
  }

  // ---------------------------------------------------------------------------------
  // Markers (`updateMap`)

  /** The municipalities `getMunicipalCoordinates` places, with their latitude and
      longitude. */
  const Coordinates: map<string, (real, real)> := map[
    "Ahome" := (25.8833, -109.0), "Angostura" := (25.3667, -108.15),
    "Badiraguato" := (25.35, -107.55), "Choix" := (26.7167, -108.3167),
    "Concordia" := (23.4167, -105.95), "Cosalá" := (24.4167, -106.6833),
    "Culiacán" := (24.8, -107.4), "El Fuerte" := (26.4167, -108.6167),
    "Eldorado" := (24.6, -107.35), "Elota" := (23.8, -106.55),
    "Escuinapa" := (22.8333, -105.7667), "Guasave" := (25.5667, -108.4667),
    "Juan José Ríos" := (25.75, -108.8), "Mazatlán" := (23.2167, -106.4167),
    "Mocorito" := (25.4833, -107.9167), "Navolato" := (24.7667, -107.7),
    "Rosario" := (22.9833, -105.8667), "Salvador Alvarado" := (25.1667, -108.0833),
    "San Ignacio" := (24.5667, -106.4167), "Sinaloa" := (25.3833, -108.1),
    "Tamazula" := (24.9667, -106.9833)]

  const MinSize := 8.0
  const MaxSize := 30.0
  const EmptyRadius := 4.0

  /** The radius of a marker with a nonzero value `v`, given the month's largest value and
      its smallest positive one (`None` standing for `Infinity`, when no value is
      positive). `None` stands for the `NaN` that the scale then computes. */
  function Radius(v: real, maxSelected: real, minSelected: Option<real>): (r: Option<real>)
    ensures r.None? <==> minSelected.None?
    ensures minSelected.Some? && maxSelected == minSelected.value ==> r == Some((MinSize + MaxSize) / 2.0)
    ensures minSelected.Some? && maxSelected != minSelected.value ==>
      r == Some(Scales.Lerp(MinSize, MaxSize, v, minSelected.value, maxSelected))
  {
    if minSelected.None? then None
    else if maxSelected == minSelected.value then Some((MinSize + MaxSize) / 2.0)
    else Some(Scales.Lerp(MinSize, MaxSize, v, minSelected.value, maxSelected))
  }

  /** `maxSelected > 0 ? selectedCases / maxSelected : 0`. */
  function Intensity(v: real, maxSelected: real): real
  {
    if maxSelected > 0.0 then v / maxSelected else 0.0
  }

  /** A marker: its municipality, where it stands, its radius and its fill colour. */
  datatype Marker = Marker(municipio: string, at: (real, real), radius: Option<real>, fill: string)

  /** What the marker loop reads from a row: its `Municipio` and its value of the crime
      type, `parseFloat(row[crimeType]) || 0`. */
  type Reading = (Option<string>, real)

  function Readings(rows: seq<Row>, crimeType: string): (r: seq<Reading>)
    ensures |r| == |rows|
    ensures forall k :: 0 <= k < |rows| ==> r[k] == (Field(rows[k], "Municipio"), RealField(rows[k], crimeType))
  {
    seq(|rows|, k requires 0 <= k < |rows| => (Field(rows[k], "Municipio"), RealField(rows[k], crimeType)))
  }

  /** The values read are the month's column of the crime type. */
  lemma ReadingValues(rows: seq<Row>, crimeType: string, k: nat)
    requires k < |rows|
    ensures Readings(rows, crimeType)[k].1 in RealColumn(rows, crimeType)
  {
    RealColumnMember(rows, crimeType, rows[k]);
  }

  /** The marker of the reading `(municipio, v)` of one row, given the month's largest
      value and smallest positive value: none for a municipality without coordinates, a
      small grey one for a value of 0, and otherwise one sized and coloured by the value. */
  function MarkerOf(municipio: Option<string>, v: real, coords: map<string, (real, real)>, maxSelected: real, minSelected: Option<real>): (m: Option<Marker>)
    ensures m.Some? <==> municipio.Some? && municipio.value in coords
    ensures m.Some? ==> m.value.municipio == municipio.value && m.value.at == coords[municipio.value]
    ensures m.Some? && v == 0.0 ==> m.value.radius == Some(EmptyRadius) && m.value.fill == NoCases
    ensures m.Some? && v != 0.0 ==>
      (m.value.radius == Radius(v, maxSelected, minSelected) && m.value.fill == CrimeColor(Intensity(v, maxSelected)))
  {
    if municipio.None? || municipio.value !in coords then None
    else if v == 0.0 then Some(Marker(municipio.value, coords[municipio.value], Some(EmptyRadius), NoCases))
    else Some(Marker(municipio.value, coords[municipio.value], Radius(v, maxSelected, minSelected), CrimeColor(Intensity(v, maxSelected))))
  }

  /** For a positive value among the month's `values`, the marker is sized between 8 and
      30: 8 at the smallest positive value and 30 at the largest, when they differ. */
  lemma MarkerRadius(municipio: string, v: real, coords: map<string, (real, real)>, values: seq<real>)
    requires v in values && municipio in coords && v > 0.0
    ensures Scales.MaxOf(values).Some? && Scales.MinPositive(values).Some?
    ensures var mx, mn := Scales.MaxOf(values).value, Scales.MinPositive(values);
      var m := MarkerOf(Some(municipio), v, coords, mx, mn).value;
      && m.radius.Some? && MinSize <= m.radius.value <= MaxSize
      && (mn.value != mx && v == mn.value ==> m.radius == Some(MinSize))
      && (mn.value != mx && v == mx ==> m.radius == Some(MaxSize))
  {
    Scales.PositiveBetween(values, v);
    var mx, mn := Scales.MaxOf(values).value, Scales.MinPositive(values).value;
    if mn != mx {
      Scales.LerpBounds(MinSize, MaxSize, v, mn, mx);
    }
  }

  /** A positive value among the month's `values` is coloured by its share of the maximum,
      which lies in `(0, 1]`, and never grey; the largest value gets the darkest red. */
  lemma MarkerFill(municipio: string, v: real, coords: map<string, (real, real)>, values: seq<real>)
    requires v in values && municipio in coords && v > 0.0
    ensures Scales.MaxOf(values).Some?
    ensures var mx := Scales.MaxOf(values).value;
      var m := MarkerOf(Some(municipio), v, coords, mx, Scales.MinPositive(values)).value;
      && 0.0 < v / mx <= 1.0 && m.fill == CrimeColor(v / mx) && m.fill != NoCases
      && (v == mx ==> m.fill == "#8B0000")
  {
    var mx := Scales.MaxOf(values).value;
    Scales.UnitRatio(v, mx);
    var i := v / mx;
    assert Intensity(v, mx) == i;
    assert i > 0.0;
    if v == mx {
      Scales.LerpBounds(0.0, 1.0, v, 0.0, mx);
      assert Scales.Lerp(0.0, 1.0, v, 0.0, mx) == i;
    }
  }

  /** A zero or negative value is drawn grey. */
  lemma MarkerGrey(municipio: string, v: real, coords: map<string, (real, real)>, maxSelected: real, minSelected: Option<real>)
    requires municipio in coords && v <= 0.0 && maxSelected >= 0.0
    ensures MarkerOf(Some(municipio), v, coords, maxSelected, minSelected).value.fill == NoCases
  {
    if v < 0.0 && maxSelected > 0.0 {
      assert v / maxSelected < 0.0;
    }
  }

  /** The markers of the month's readings, in row order, placed by `coords` (the map
      `getMunicipalCoordinates` returns). */
  function Markers(rs: seq<Reading>, coords: map<string, (real, real)>, maxSelected: real, minSelected: Option<real>): (ms: seq<Marker>)
    ensures |ms| <= |rs|
    ensures forall m :: m in ms ==> m.municipio in coords && m.at == coords[m.municipio]
  {
    if rs == [] then []
    else
      var n := |rs| - 1;
      var m := MarkerOf(rs[n].0, rs[n].1, coords, maxSelected, minSelected);
      Markers(rs[..n], coords, maxSelected, minSelected) + if m.Some? then [m.value] else []
  }

  /** Every reading of a placed municipality has its marker. */
  lemma {:induction false} MarkersComplete(rs: seq<Reading>, coords: map<string, (real, real)>, maxSelected: real, minSelected: Option<real>, k: nat)
    requires k < |rs| && MarkerOf(rs[k].0, rs[k].1, coords, maxSelected, minSelected).Some?
    ensures MarkerOf(rs[k].0, rs[k].1, coords, maxSelected, minSelected).value in Markers(rs, coords, maxSelected, minSelected)
  {
    var n := |rs| - 1;
    if k < n {
      assert rs[..n][k] == rs[k];
      MarkersComplete(rs[..n], coords, maxSelected, minSelected, k);
    }
  }

  /** Every marker comes from a reading of the month. */
  lemma {:induction false} MarkersSound(rs: seq<Reading>, coords: map<string, (real, real)>, maxSelected: real, minSelected: Option<real>, m: Marker)
    requires m in Markers(rs, coords, maxSelected, minSelected)
    ensures exists k :: 0 <= k < |rs| && MarkerOf(rs[k].0, rs[k].1, coords, maxSelected, minSelected) == Some(m)
  {
    var n := |rs| - 1;
    if MarkerOf(rs[n].0, rs[n].1, coords, maxSelected, minSelected) != Some(m) {
      MarkersSound(rs[..n], coords, maxSelected, minSelected, m);
      var k :| 0 <= k < n && MarkerOf(rs[..n][k].0, rs[..n][k].1, coords, maxSelected, minSelected) == Some(m);
      assert rs[..n][k] == rs[k];
    }
  }

  // ---------------------------------------------------------------------------------
  // Table (`updateTable`)

  /** The month's rows sorted by the chosen crime type, `Total` when none is chosen. */
  function Table(rows: seq<Row>, selector: Option<string>): seq<Row>
  {
    SortedBy(rows, Chosen(selector, "Total"))
  }

  /** The table holds the month's rows, each once, with the sort column never increasing. */
  lemma TableFacts(rows: seq<Row>, selector: Option<string>)
    ensures multiset(Table(rows, selector)) == multiset(rows)
    ensures var field := Chosen(selector, "Total"); var t := Table(rows, selector);
      forall i, j :: 0 <= i < j < |t| ==> RealField(t[i], field) >= RealField(t[j], field)
  {
    SortedByFacts(rows, Chosen(selector, "Total"));
  }

  // ---------------------------------------------------------------------------------
  // The map object

  /** The `forEach` loop of `updateMap`: one marker per reading of a placed municipality,
      in row order. */
  method DrawMarkers(rs: seq<Reading>, coords: map<string, (real, real)>, maxSelected: real, minSelected: Option<real>) returns (markers: seq<Marker>)
    ensures markers == Markers(rs, coords, maxSelected, minSelected)
  {
    markers := [];
    var i := 0;
    while i < |rs|
      invariant 0 <= i <= |rs|
      invariant markers == Markers(rs[..i], coords, maxSelected, minSelected)
    {
      assert rs[..i + 1][..i] == rs[..i];
      var m := MarkerOf(rs[i].0, rs[i].1, coords, maxSelected, minSelected);
      if m.Some? {
        markers := markers + [m.value];
      }
      i := i + 1;
    }
    assert rs[..i] == rs;
  }

  /** What one redraw shows: the month, its markers and its table. */
  datatype View = View(period: Option<string>, markers: seq<Marker>, table: seq<Row>)

  /** The rows of the selected month (`row.Periodo === selectedPeriod`). */
  function MonthRows(data: seq<Row>, periods: seq<string>, slider: Option<string>): seq<Row>
  {
    Where(data, "Periodo", SelectedPeriod(periods, slider), true)
  }

  class SinaloaMunicipalMap {
    var municipalData: Option<seq<Row>>
    const periods: seq<string>
    const coordinates: map<string, (real, real)>

    constructor()
      ensures municipalData == None && periods == MunicipalPeriods && coordinates == Coordinates
    {
      municipalData := None;
      periods := MunicipalPeriods;
      coordinates := Coordinates;
    }

    /** `loadData` once the text is fetched: one row per non-blank line. */
    method LoadData(text: string)
      modifies this
      ensures municipalData == Some(Parse(MunicipalFormat, text))
    {
      var rows := ReadRows(MunicipalFormat, text);
      municipalData := Some(rows);
    }

    /** `updateMap` with the crime type selector and the slider as they stand: nothing
        without data or for a month without rows; otherwise the markers of the month's rows
        for the selected crime type (`Homicidio doloso` when none is chosen) and the month's
        table. */
    method UpdateMap(selector: Option<string>, slider: Option<string>) returns (view: Option<View>)
      ensures view.None? <==> municipalData.None? || MonthRows(municipalData.value, periods, slider) == []
      ensures view.Some? ==>
        var rows := MonthRows(municipalData.value, periods, slider);
        var values := RealColumn(rows, Chosen(selector, DefaultCrime));
        && Scales.MaxOf(values).Some?
        && view.value.period == SelectedPeriod(periods, slider)
        && view.value.markers == Markers(Readings(rows, Chosen(selector, DefaultCrime)), coordinates, Scales.MaxOf(values).value, Scales.MinPositive(values))
        && view.value.table == Table(rows, selector)
    {
      if municipalData.None? {
        return None;
      }
      var crimeType := Chosen(selector, DefaultCrime);
      var selectedPeriod := SelectedPeriod(periods, slider);
      var periodData := Where(municipalData.value, "Periodo", selectedPeriod, true);
      if periodData == [] {
        return None;
      }
      var selectedValues := RealColumn(periodData, crimeType);
      var maxSelected := Scales.MaxOf(selectedValues).value;
      var minSelected := Scales.MinPositive(selectedValues);
      var rs := Readings(periodData, crimeType);
      var markers := DrawMarkers(rs, coordinates, maxSelected, minSelected);
      view := Some(View(selectedPeriod, markers, Table(periodData, selector)));
    }
  }
}
