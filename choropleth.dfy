/** The choropleth of Sinaloa (scripts/choropleth_map.js): monthly rows per municipality,
    filed under a normalised name, each municipal polygon coloured by its value of the
    selected crime type against the largest filed value, a legend of the colour bands and
    the month's table sorted by that crime type. */
module Choropleth {
  import opened Optional
  import opened JsStrings
  import opened JsNumbers
  import opened Collections
  import opened Csv
  import opened Ladders
  import opened Controls
  import Scales
  import Heatmap

  // ---------------------------------------------------------------------------------
  // Reading (`loadData`)

  /** The loader cuts the text on the two characters `\` and `n` rather than on newlines;
      it then trims headers and cells, splits on plain commas and skips blank lines. */
  const ChoroplethFormat := Format(BackslashN, TrimOnly, TrimOnly, CommaSplit, true)

  /** One row per non-blank piece after the first; each row has exactly the trimmed
      headers as keys. */
  lemma ParseCsvFacts(text: string)
    ensures |Parse(ChoroplethFormat, text)| == NonBlank(Lines(ChoroplethFormat, text)[1..])
    ensures forall r :: r in Parse(ChoroplethFormat, text) ==> r.Keys == set h | h in Headers(ChoroplethFormat, text)
  {
    var headers, body := Headers(ChoroplethFormat, text), Lines(ChoroplethFormat, text)[1..];
    RowCount(ChoroplethFormat, headers, body);
    RowKeys(ChoroplethFormat, headers, body);
  }

  /** A text in which `\` followed by `n` never occurs (a file whose lines end in real
      newlines, say) is one single piece: the header, and no rows at all. */
  lemma NoRowsWithoutBackslashN(text: string)
    requires forall i: nat :: !OccursAt(Trim(text), "\\n", i)
    ensures Lines(ChoroplethFormat, text) == [Trim(text)]
    ensures Parse(ChoroplethFormat, text) == []
  {
    SplitWithoutSeparator(Trim(text), "\\n");
  }

  // ---------------------------------------------------------------------------------
  // Names (`normalizeMunicipalityName`)

  /** The six replacements, each of one lower-case letter by its plain letter. None of
      them produces a letter another one replaces, so they can be applied in one pass. */
  function Unaccent(c: char): char
  {
    if c == 'á' then 'a'
    else if c == 'é' then 'e'
    else if c == 'í' then 'i'
    else if c == 'ó' then 'o'
    else if c == 'ú' then 'u'
    else if c == 'ñ' then 'n'
    else c
  }

  function Unaccented(s: string): (r: string)
    ensures |r| == |s| && forall k :: 0 <= k < |s| ==> r[k] == Unaccent(s[k])
  {
    if s == [] then [] else [Unaccent(s[0])] + Unaccented(s[1..])
  }

  /** `name.trim()`, the six replacements, then `toLowerCase()`. */
  function NormalizeName(name: string): string
  {
    Lower(Unaccented(Trim(name)))
  }

  /** The upper-case counterparts of the replaced letters. */
  predicate UpperAccented(c: char)
  {
    c == 'Á' || c == 'É' || c == 'Í' || c == 'Ó' || c == 'Ú' || c == 'Ñ'
  }

  predicate LowerAccented(c: char)
  {
    c == 'á' || c == 'é' || c == 'í' || c == 'ó' || c == 'ú' || c == 'ñ'
  }

  /** What one character becomes. */
  function NormalizeChar(c: char): char
  {
    LowerChar(Unaccent(c))
  }

  lemma NormalizeCharFacts(c: char)
    ensures !('A' <= NormalizeChar(c) <= 'Z')
    ensures IsSpace(NormalizeChar(c)) <==> IsSpace(c)
    ensures LowerAccented(NormalizeChar(c)) <==> UpperAccented(c)
    ensures !UpperAccented(c) ==> NormalizeChar(NormalizeChar(c)) == NormalizeChar(c)
  {
  }

  /** What the replacements and the lower-casing make of a trimmed text, character by
      character. */
  lemma NormalizeTrimmed(t: string)
    requires Trimmed(t)
    ensures var r := Lower(Unaccented(t));
      && |r| == |t| && Trimmed(r)
      && (forall k :: 0 <= k < |r| ==> r[k] == NormalizeChar(t[k]))
      && (forall k :: 0 <= k < |r| ==> !('A' <= r[k] <= 'Z'))
      && (forall k :: 0 <= k < |r| ==> (LowerAccented(r[k]) <==> UpperAccented(t[k])))
  {
    var r := Lower(Unaccented(t));
    forall k | 0 <= k < |r|
      ensures r[k] == NormalizeChar(t[k])
    {
    }
    forall k | 0 <= k < |r|
      ensures !('A' <= r[k] <= 'Z') && (IsSpace(r[k]) <==> IsSpace(t[k]))
      ensures LowerAccented(r[k]) <==> UpperAccented(t[k])
    {
      NormalizeCharFacts(t[k]);
    }
  }

  /** The normalised name is trimmed and has no upper-case ASCII letter; an accented
      lower-case letter survives in it exactly where the name had the upper-case one,
      because the replacements run before the lower-casing. */
  lemma NormalizeNameFacts(name: string)
    ensures var t, r := Trim(name), NormalizeName(name);
      && |r| == |t| && Trimmed(r)
      && (forall k :: 0 <= k < |r| ==> r[k] == NormalizeChar(t[k]))
      && (forall k :: 0 <= k < |r| ==> !('A' <= r[k] <= 'Z'))
      && (forall k :: 0 <= k < |r| ==> (LowerAccented(r[k]) <==> UpperAccented(t[k])))
  {
    TrimShape(name);
    NormalizeTrimmed(Trim(name));
  }

  /** Normalising a normalised name changes nothing, as long as the name has none of the
      upper-case accented letters. */
  lemma NormalizeIdempotent(name: string)
    requires forall k :: 0 <= k < |name| ==> !UpperAccented(name[k])
    ensures NormalizeName(NormalizeName(name)) == NormalizeName(name)
  {
    var t, r := Trim(name), NormalizeName(name);
    NormalizeNameFacts(name);
    TrimOfTrimmed(r);
    forall k | 0 <= k < |t| ensures !UpperAccented(t[k]) {
      if UpperAccented(t[k]) {
        TrimKeepsOut(name, t[k]);
      }
    }
    var rr := NormalizeName(r);
    forall k | 0 <= k < |r| ensures rr[k] == r[k] {
      NormalizeCharFacts(t[k]);
    }
  }

  /** With an upper-case accented letter normalising is not idempotent: `Á` becomes `á`,
      which a second pass turns into `a`. */
  lemma NormalizeNotIdempotent()
    ensures NormalizeName("Á") == "á"
    ensures NormalizeName(NormalizeName("Á")) == "a"
  {
    assert !IsSpace('Á') && !IsSpace('á');
    assert Trim("Á") == "Á";
    assert Trim("á") == "á";
  }

  // ---------------------------------------------------------------------------------
  // Colours (`getColorByIntensity`) and the legend (`createLegend`)

  const IntensityTests: seq<Test> := [AtLeast(0.8), AtLeast(0.6), AtLeast(0.4), AtLeast(0.2), Over(0.0)]
  const IntensityPalette: seq<string> := ["#800026", "#BD0026", "#E31A1C", "#FC4E2A", "#FD8D3C", "#cccccc"]
  const Grey := "#cccccc"

  /** The colour of an intensity: inclusive bands at 0.8, 0.6, 0.4 and 0.2, orange for any
      other positive intensity and grey for none. */
  function ColorByIntensity(intensity: real): (c: string)
    ensures c == "#800026" <==> intensity >= 0.8
    ensures c == "#BD0026" <==> 0.6 <= intensity < 0.8
    ensures c == "#E31A1C" <==> 0.4 <= intensity < 0.6
    ensures c == "#FC4E2A" <==> 0.2 <= intensity < 0.4
    ensures c == "#FD8D3C" <==> 0.0 < intensity < 0.2
    ensures c == Grey <==> intensity <= 0.0
  {
    PickAt(IntensityTests, IntensityPalette, intensity, 0);
    PickAt(IntensityTests, IntensityPalette, intensity, 1);
    PickAt(IntensityTests, IntensityPalette, intensity, 2);
    PickAt(IntensityTests, IntensityPalette, intensity, 3);
    PickAt(IntensityTests, IntensityPalette, intensity, 4);
    PickAt(IntensityTests, IntensityPalette, intensity, 5);
    Pick(IntensityTests, IntensityPalette, intensity)
  }

  const Grades: seq<real> := [0.0, 0.2, 0.4, 0.6, 0.8]
  const LegendColors: seq<string> := ["#cccccc", "#FD8D3C", "#FC4E2A", "#E31A1C", "#BD0026", "#800026"]

  /** One line of the legend: its swatch, the percentage it starts at and the one it ends
      at, or none for the last, open-ended line. */
  datatype LegendEntry = LegendEntry(color: string, from: int, to: Option<int>)

  /** Line `i` of the legend: the colour after grade `i`'s own, and `grades[i + 1]` as the
      upper end when it is there and not 0. */
  function LegendEntryAt(i: nat): LegendEntry
    requires i < |Grades|
  {
    var next := Element(Grades, i + 1);
    LegendEntry(LegendColors[i + 1], Round(Grades[i] * 100.0),
      if next.Some? && next.value != 0.0 then Some(Round(next.value * 100.0)) else None)
  }

  /** The loop of `createLegend`, one line per grade. */
  method CreateLegend() returns (entries: seq<LegendEntry>)
    ensures |entries| == |Grades|
    ensures forall i :: 0 <= i < |Grades| ==> entries[i] == LegendEntryAt(i)
  {
    entries := [];
    var i := 0;
    while i < |Grades|
      invariant 0 <= i <= |Grades|
      invariant |entries| == i && forall j :: 0 <= j < i ==> entries[j] == LegendEntryAt(j)
    {
      entries := entries + [LegendEntryAt(i)];
      i := i + 1;
    }
  }

  /** The legend agrees with the colours: line `i` reads `20i% – 20(i+1)%` (the last one
      `80%+`) and its swatch is the colour of every intensity above its lower grade and
      below the next one, and of the lower grade itself except for the first line, whose
      grade 0 is grey. */
  lemma LegendMatchesColors(i: nat, v: real)
    requires i < |Grades|
    ensures LegendEntryAt(i).from == 20 * i
    ensures LegendEntryAt(i).to == if i + 1 < |Grades| then Some(20 * (i + 1)) else None
    ensures Grades[i] < v && (i + 1 == |Grades| || v < Grades[i + 1]) ==> ColorByIntensity(v) == LegendEntryAt(i).color
    ensures 0 < i && v == Grades[i] ==> ColorByIntensity(v) == LegendEntryAt(i).color
    ensures ColorByIntensity(0.0) == Grey && LegendEntryAt(i).color != Grey
  {
    assert Round(0.0) == 0 && Round(20.0) == 20 && Round(40.0) == 40 && Round(60.0) == 60 && Round(80.0) == 80;
  }

  // ---------------------------------------------------------------------------------
  // Polygon styles (`updateMap`, `getFeatureStyle`)

  /** What `dataByMunicipality` files for each row of the month, in order: the normalised
      `Municipio` and `parseFloat(row[crimeType]) || 0`. */
  function Filings(rows: seq<Row>, crimeType: string): (ps: seq<(string, real)>)
    requires Heatmap.Named(rows)
    ensures |ps| == |rows|
    ensures forall k :: 0 <= k < |rows| ==> ps[k] == (NormalizeName(rows[k]["Municipio"]), RealField(rows[k], crimeType))
  {
    seq(|rows|, k requires 0 <= k < |rows| => (NormalizeName(rows[k]["Municipio"]), RealField(rows[k], crimeType)))
  }

  /** The `forEach` that fills `dataByMunicipality`: a later row with the same normalised
      name overwrites an earlier one. */
  method FileByMunicipality(rows: seq<Row>, crimeType: string) returns (m: map<string, real>)
    requires Heatmap.Named(rows)
    ensures m == ObjectOf(Filings(rows, crimeType))
  {
    var ps := Filings(rows, crimeType);
    m := map[];
    var i := 0;
    while i < |rows|
      invariant 0 <= i <= |rows|
      invariant m == ObjectOf(ps[..i])
    {
      assert ps[..i + 1][..i] == ps[..i];
      m := m[ps[i].0 := ps[i].1];
      i := i + 1;
    }
    assert ps[..i] == ps;
  }

  /** The style of a feature: grey at opacity 0.3 unless its normalised name has a
      positive filed value, which is then coloured by its share of `maxValue` at opacity
      0.7. */
  datatype Style = Style(fillColor: string, fillOpacity: real)

  const NoData := Style(Grey, 0.3)

  function FeatureStyle(filed: map<string, real>, maxValue: Option<real>, nomMun: string): (s: Style)
    ensures var key := NormalizeName(nomMun);
      && (key in filed && filed[key] > 0.0 ==> s.fillOpacity == 0.7)
      && (!(key in filed && filed[key] > 0.0) ==> s == NoData)
  {
    var key := NormalizeName(nomMun);
    if key in filed && filed[key] > 0.0 then
      var intensity := if maxValue.Some? && maxValue.value > 0.0 then filed[key] / maxValue.value else 0.0;
      Style(ColorByIntensity(intensity), 0.7)
    else NoData
  }

  /** A feature whose name files a positive value gets a colour band for its share of
      the largest filed value, an intensity in `(0, 1]`, never grey, and the darkest red
      when it holds that maximum. */
  lemma FeatureStyleMeaning(filings: seq<(string, real)>, nomMun: string)
    ensures var filed := ObjectOf(filings);
      var maxValue := Scales.MaxOf(ObjectValues(filings));
      var key := NormalizeName(nomMun);
      key in filed && filed[key] > 0.0 ==>
        && maxValue.Some? && maxValue.value >= filed[key] && 0.0 < filed[key] / maxValue.value <= 1.0
        && FeatureStyle(filed, maxValue, nomMun) == Style(ColorByIntensity(filed[key] / maxValue.value), 0.7)
        && FeatureStyle(filed, maxValue, nomMun).fillColor != Grey
        && (filed[key] == maxValue.value ==> FeatureStyle(filed, maxValue, nomMun).fillColor == "#800026")
  {
    var filed := ObjectOf(filings);
    var vs := ObjectValues(filings);
    var key := NormalizeName(nomMun);
    if key in filed && filed[key] > 0.0 {
      ObjectValuesFacts(filings);
      var v := filed[key];
      assert v in filed.Values;
      assert v in vs;
      var mx := Scales.MaxOf(vs).value;
      Scales.UnitRatio(v, mx);
      if v == mx {
        Scales.LerpBounds(0.0, 1.0, v, 0.0, mx);
        assert Scales.Lerp(0.0, 1.0, v, 0.0, mx) == v / mx;
      }
    }
  }

  /** The styles of the features named `features` (`nom_mun`), in order. */
  function Styles(filed: map<string, real>, maxValue: Option<real>, features: seq<string>): (r: seq<Style>)
    ensures |r| == |features|
    ensures forall k :: 0 <= k < |features| ==> r[k] == FeatureStyle(filed, maxValue, features[k])
  {
    seq(|features|, k requires 0 <= k < |features| => FeatureStyle(filed, maxValue, features[k]))
  }

  /** A month without rows (every month, for a text the loader cannot cut) leaves every
      polygon grey. */
  lemma EmptyMonthAllGrey(crimeType: string, features: seq<string>)
    ensures var st := Styles(ObjectOf(Filings([], crimeType)), Scales.MaxOf(ObjectValues(Filings([], crimeType))), features);
      forall k :: 0 <= k < |features| ==> st[k] == NoData
  {
  }

  // ---------------------------------------------------------------------------------
  // The map object

  /** What one redraw shows: the month, the polygon styles and the sorted table. */
  datatype View = View(period: Option<string>, styles: seq<Style>, table: seq<Row>)

  const DefaultCrime := "Total"

  /** The rows of the selected month (`row.Periodo === selectedPeriod`). */
  function MonthRows(data: seq<Row>, periods: seq<string>, slider: Option<string>): seq<Row>
  {
    Where(data, "Periodo", SelectedPeriod(periods, slider), true)
  }

  /** The state `SinaloaChoroplethMap` keeps: the rows read, the names of the GeoJSON
      features and the months of the slider. */
  class SinaloaChoroplethMap {
    var municipalData: Option<seq<Row>>
    var geojsonData: Option<seq<string>>
    const periods: seq<string>

    constructor()
      ensures municipalData == None && geojsonData == None && periods == Heatmap.HeatPeriods
    {
      municipalData := None;
      geojsonData := None;
      periods := Heatmap.HeatPeriods;
    }

    /** `loadData` once the text is fetched. */
    method LoadData(text: string)
      modifies this
      ensures municipalData == Some(Parse(ChoroplethFormat, text)) && geojsonData == old(geojsonData)
    {
      var rows := ReadRows(ChoroplethFormat, text);
      municipalData := Some(rows);
    }

    /** `loadGeoJSON`, keeping the `nom_mun` of each feature. */
    method LoadGeoJson(names: seq<string>)
      modifies this
      ensures geojsonData == Some(names) && municipalData == old(municipalData)
    {
      geojsonData := Some(names);
    }

    /** `updateMap`: nothing before both the rows and the features are loaded; otherwise
        the styles of the features for the selected crime type (`Total` when none is
        chosen) and month, and the month's rows sorted by that crime type. A month
        without rows is drawn too. Every row of the month must have a `Municipio`, since
        normalising a missing one throws. */
    method UpdateMap(selector: Option<string>, slider: Option<string>) returns (view: Option<View>)
      requires municipalData.Some? ==> Heatmap.Named(MonthRows(municipalData.value, periods, slider))
      ensures view.None? <==> municipalData.None? || geojsonData.None?
      ensures view.Some? ==>
        var rows := MonthRows(municipalData.value, periods, slider);
        var crimeType := Chosen(selector, DefaultCrime);
        view.value == View(SelectedPeriod(periods, slider),
          Styles(ObjectOf(Filings(rows, crimeType)), Scales.MaxOf(ObjectValues(Filings(rows, crimeType))), geojsonData.value),
          SortedBy(rows, crimeType))
    {
      if municipalData.None? || geojsonData.None? {
        return None;
      }
      var crimeType := Chosen(selector, DefaultCrime);
      var selectedPeriod := SelectedPeriod(periods, slider);
      var periodData := Where(municipalData.value, "Periodo", selectedPeriod, true);
      var filed := FileByMunicipality(periodData, crimeType);
      var maxValue := Scales.MaxOf(ObjectValues(Filings(periodData, crimeType)));
      view := Some(View(selectedPeriod, Styles(filed, maxValue, geojsonData.value), SortedBy(periodData, crimeType)));
    }
  }
}
