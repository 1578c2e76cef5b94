/** The analysis of the war period in six municipalities of Sinaloa: the anomalies table
    is read once, cut down to the six municipalities studied, and every municipality that
    has rows gets a section with its ten largest increases above 50% and a summary of all
    its crime types ordered by change. */
module WarAnalysis {
  import opened Optional
  import opened JsStrings
  import opened Collections
  import opened Csv

  /** `parseCSV` of this script: lines cut on newlines, headers and cells stripped of quotes
      and trimmed, fields split by the quote-aware `parseCSVLine`, blank lines skipped. */
  const WarFormat := Format(Newline, StripQuotes, StripQuotes, QuoteAware, true)

  /** The municipalities the analysis covers. */
  const Municipios := ["Mocorito", "Navolato", "Culiacán", "Badiraguato", "Cosalá", "Elota"]

  const Change := "Cambio_porcentual"
  const Crime := "Subtipo_delito"

  /** The change above which a row counts as a significant anomaly, and the size of the
      anomalies table. */
  const Threshold := 50.0
  const TopN := 10

  // ---------------------------------------------------------------------------------
  // Loading (`loadAnomaliesData`)

  /** The filter applied after reading: the row names one of `municipios` and is not a
      repeated header line. A row without the column has `undefined` there, which no list
      includes. */
  predicate Studied(row: Row, municipios: seq<string>)
  {
    "Municipio" in row && row["Municipio"] in municipios && row["Municipio"] != "Municipio"
  }

  /** `rows.filter(row => studied)`. */
  function StudiedRows(rows: seq<Row>, municipios: seq<string>): (r: seq<Row>)
    ensures forall row :: row in r <==> row in rows && Studied(row, municipios)
    ensures multiset(r) <= multiset(rows)
  {
    if rows == [] then []
    else
      var n := |rows| - 1;
      assert rows == rows[..n] + [rows[n]];
      StudiedRows(rows[..n], municipios) + if Studied(rows[n], municipios) then [rows[n]] else []
  }

  /** No municipality of the analysis is spelled like the header, so the second test of the
      filter never removes a row the first one keeps. */
  lemma HeaderTestRedundant(row: Row)
    ensures Studied(row, Municipios) <==> "Municipio" in row && row["Municipio"] in Municipios
  {
    if "Municipio" in row && row["Municipio"] in Municipios {
      var k :| 0 <= k < |Municipios| && Municipios[k] == row["Municipio"];
      assert Municipios[k] != "Municipio";
    }
  }

  /** What the loader stores: the parsed rows of the six municipalities, every one with
      exactly the header columns and quote-free trimmed cells, and none lost that
      qualified. */
  lemma LoadedFacts(text: string)
    ensures var rows := StudiedRows(Parse(WarFormat, text), Municipios);
      && (forall r :: r in rows ==> r.Keys == set h | h in Headers(WarFormat, text))
      && (forall r, h :: r in rows && h in r ==> Trimmed(r[h]) && '"' !in r[h])
      && (forall r :: r in rows ==> r["Municipio"] in Municipios)
      && forall r :: r in Parse(WarFormat, text) && Studied(r, Municipios) ==> r in rows
  {
    var headers, body := Headers(WarFormat, text), Lines(WarFormat, text)[1..];
    RowKeys(WarFormat, headers, body);
    RowsOfClean(WarFormat, headers, body);
  }

  // ---------------------------------------------------------------------------------
  // The municipalities with data (`generateMunicipalAnalysis`)

  predicate Named(rows: seq<Row>)
  {
    forall r :: r in rows ==> "Municipio" in r
  }

  /** `rows.map(row => row.Municipio)`. */
  function MunicipioNames(rows: seq<Row>): (ns: seq<string>)
    requires Named(rows)
    ensures |ns| == |rows| && forall k :: 0 <= k < |rows| ==> ns[k] == rows[k]["Municipio"]
  {
    seq(|rows|, k requires 0 <= k < |rows| => rows[k]["Municipio"])
  }

  /** `[...new Set(rows.map(row => row.Municipio))]`. */
  function WithData(rows: seq<Row>): seq<string>
    requires Named(rows)
  {
    Distinct(MunicipioNames(rows))
  }

  /** Over loaded rows the municipalities with data are each named once, all of them among
      the six, so there are at most six of them, and a municipality is listed exactly when
      some row names it. */
  lemma WithDataFacts(rows: seq<Row>)
    requires forall r :: r in rows ==> Studied(r, Municipios)
    ensures Named(rows)
    ensures NoDuplicates(WithData(rows))
    ensures forall m :: m in WithData(rows) ==> m in Municipios
    ensures forall m :: m in WithData(rows) <==> exists r :: r in rows && r["Municipio"] == m
    ensures |WithData(rows)| <= |Municipios|
  {
    var names := MunicipioNames(rows);
    forall m | m in WithData(rows) ensures m in Municipios {
      var k :| 0 <= k < |names| && names[k] == m;
      assert rows[k] in rows;
    }
    forall m ensures m in WithData(rows) <==> exists r :: r in rows && r["Municipio"] == m {
      if m in names {
        var k :| 0 <= k < |names| && names[k] == m;
        assert rows[k] in rows;
      }
      if exists r :: r in rows && r["Municipio"] == m {
        var r :| r in rows && r["Municipio"] == m;
        var k :| 0 <= k < |rows| && rows[k] == r;
        assert names[k] == m;
      }
    }
    NoDuplicatesWithin(WithData(rows), Municipios);
  }

  // ---------------------------------------------------------------------------------
  // Table 1: the significant anomalies of a municipality

  /** `anomaliesData.filter(row => row.Municipio === municipio)`. */
  function MunicipioRows(rows: seq<Row>, municipio: string): seq<Row>
  {
    Where(rows, "Municipio", Some(municipio), true)
  }

  /** `parseFloat(row.Cambio_porcentual)`, with 0 where the source gets `NaN`. Every
      comparison the script makes with this value (`> 50`, `> 100`) is false for `NaN`
      and for 0 alike. */
  function ChangeOf(row: Row): real
  {
    RealField(row, Change)
  }

  /** The rows whose change exceeds 50%, each with its change. */
  function Exceeding(rows: seq<Row>): seq<Keyed<Row>>
  {
    Above(KeyedBy(rows, ChangeOf), Threshold)
  }

  /** `filter(change > 50).sort(by change, descending).slice(0, 10)`; within the kept rows
      every change is a number, so the comparator is the one on the keys. */
  function Significant(rows: seq<Row>): seq<Row>
  {
    Items(Take(SortDesc(Exceeding(rows)), TopN))
  }

  /** Every kept row is one of the rows with its change above 50%; they are in descending
      order; there are ten of them, or all of them when fewer exceed 50%; and no row above
      50% that was left out has a larger change than a row kept. */
  lemma SignificantFacts(rows: seq<Row>)
    ensures var r := Significant(rows);
      && |r| == (if |Exceeding(rows)| < TopN then |Exceeding(rows)| else TopN)
      && (forall x :: x in r ==> x in rows && ChangeOf(x) > Threshold)
      && (forall i, j :: 0 <= i < j < |r| ==> ChangeOf(r[i]) >= ChangeOf(r[j]))
      && (forall x, y :: x in rows && ChangeOf(x) > Threshold && x !in r && y in r ==>
            ChangeOf(x) <= ChangeOf(y))
  {
    TopAboveFacts(rows, ChangeOf, Threshold, TopN);
    forall x, y | x in rows && ChangeOf(x) > Threshold && x !in Significant(rows) && y in Significant(rows)
      ensures ChangeOf(x) <= ChangeOf(y)
    {
      TopAboveLeftOut(rows, ChangeOf, Threshold, TopN, x, y);
    }
  }

  /** One line of the anomalies table: its rank from 1 and whether the increase is above
      100% (`high-change`) rather than between 50% and 100% (`moderate-change`). */
  datatype AnomalyLine = AnomalyLine(rank: nat, anomaly: Row, high: bool)

  function AnomalyLines(anomalies: seq<Row>): (ls: seq<AnomalyLine>)
    ensures |ls| == |anomalies|
    ensures forall i :: 0 <= i < |ls| ==> ls[i].rank == i + 1 && ls[i].anomaly == anomalies[i]
    ensures forall i :: 0 <= i < |ls| ==> (ls[i].high <==> ChangeOf(anomalies[i]) > 100.0)
  {
    seq(|anomalies|, i requires 0 <= i < |anomalies| =>
      AnomalyLine(i + 1, anomalies[i], ChangeOf(anomalies[i]) > 100.0))
  }

  // ---------------------------------------------------------------------------------
  // Table 2: the summary of every crime type of a municipality

  /** `rows.map(row => row.Subtipo_delito)`; a row without the column gives `undefined`. */
  function Crimes(rows: seq<Row>): (cs: seq<Option<string>>)
    ensures |cs| == |rows| && forall k :: 0 <= k < |rows| ==> cs[k] == Field(rows[k], Crime)
  {
    seq(|rows|, k requires 0 <= k < |rows| => Field(rows[k], Crime))
  }

  /** `rows.find(row => row.Subtipo_delito === delito)` for a crime type taken from the
      rows themselves: it always finds one. */
  function FirstRow(rows: seq<Row>, delito: Option<string>): (row: Row)
    requires delito in Crimes(rows)
    ensures row in rows && Field(row, Crime) == delito
    ensures row == rows[FirstWith(rows, Crime, delito)]
  {
    var k := FirstWith(rows, Crime, delito);
    assert k < |rows| by {
      var j :| 0 <= j < |rows| && Crimes(rows)[j] == delito;
    }
    rows[k]
  }

  /** The sort key of a crime type: the change of its first row (`find` never fails for a
      type taken from the rows, so the other case does not arise). */
  function FirstChange(rows: seq<Row>, delito: Option<string>): real
  {
    if delito in Crimes(rows) then ChangeOf(FirstRow(rows, delito)) else 0.0
  }

  /** The crime types in the order of the summary: `[...new Set(...)].sort(...)`, stable, by
      the change of each type's first row. */
  function OrderedCrimes(rows: seq<Row>): seq<Option<string>>
  {
    Items(SortDesc(KeyedBy(Distinct(Crimes(rows)), d => FirstChange(rows, d))))
  }

  /** The summary lists every crime type of the rows and nothing else, as many entries as
      there are distinct types, ordered by the change of each type's first row, largest
      first. */
  lemma OrderedCrimesFacts(rows: seq<Row>)
    ensures var ds := OrderedCrimes(rows);
      && |ds| == |Distinct(Crimes(rows))|
      && (forall d :: d in ds <==> d in Crimes(rows))
      && forall i, j :: 0 <= i < j < |ds| ==>
           ChangeOf(FirstRow(rows, ds[i])) >= ChangeOf(FirstRow(rows, ds[j]))
  {
    var key := d => FirstChange(rows, d);
    var distinct := Distinct(Crimes(rows));
    var ds := OrderedCrimes(rows);
    SortedByKeyFacts(distinct, key);
    forall d ensures d in ds <==> d in Crimes(rows) {
      assert d in ds <==> d in multiset(ds);
      assert d in distinct <==> d in multiset(distinct);
    }
    forall i, j | 0 <= i < j < |ds| ensures ChangeOf(FirstRow(rows, ds[i])) >= ChangeOf(FirstRow(rows, ds[j])) {
      assert key(ds[i]) >= key(ds[j]);
      assert ds[i] in ds && ds[j] in ds;
    }
  }

  /** One line of the summary: the crime type, the first row of that type, and whether the
      absolute and the relative change are positive (`positive-change`) or not. */
  datatype SummaryLine = SummaryLine(delito: Option<string>, anomaly: Row, absoluteUp: bool, relativeUp: bool)

  /** `parseFloat(row.Cambio_absoluto)`, with 0 where the source gets `NaN`; only its
      sign is tested. */
  function AbsoluteOf(row: Row): real
  {
    RealField(row, "Cambio_absoluto")
  }

  /** The line of one crime type: the row `find` returns for it and the signs of its changes. */
  function SummaryLineOf(rows: seq<Row>, delito: Option<string>): (l: SummaryLine)
    requires delito in Crimes(rows)
    ensures l.delito == delito && l.anomaly in rows && Field(l.anomaly, Crime) == delito
    ensures l.anomaly == rows[FirstWith(rows, Crime, delito)]
    ensures (l.absoluteUp <==> AbsoluteOf(l.anomaly) > 0.0) && (l.relativeUp <==> ChangeOf(l.anomaly) > 0.0)
  {
    var anomaly := FirstRow(rows, delito);
    SummaryLine(delito, anomaly, AbsoluteOf(anomaly) > 0.0, ChangeOf(anomaly) > 0.0)
  }

  /** `generateMunicipalSummaryTable`: one line per crime type in the order of the summary,
      each describing the first row of its type. */
  function Summary(rows: seq<Row>): (lines: seq<SummaryLine>)
    ensures |lines| == |OrderedCrimes(rows)|
    ensures forall i :: 0 <= i < |lines| ==> lines[i].delito == OrderedCrimes(rows)[i]
    ensures forall l :: l in lines ==>
      l.anomaly in rows && Field(l.anomaly, Crime) == l.delito && l.anomaly == rows[FirstWith(rows, Crime, l.delito)]
  {
    var ds := OrderedCrimes(rows);
    OrderedCrimesFacts(rows);
    seq(|ds|, i requires 0 <= i < |ds| => SummaryLineOf(rows, ds[i]))
  }

  /** A municipality with rows always has a summary, and one without rows has none (the
      "no data" message). */
  lemma SummaryNonEmpty(rows: seq<Row>)
    ensures rows != [] <==> Summary(rows) != []
  {
    OrderedCrimesFacts(rows);
    if rows != [] {
      assert Crimes(rows)[0] in Crimes(rows);
      assert OrderedCrimes(rows) != [];
    }
  }

  // ---------------------------------------------------------------------------------
  // Sections (`generateMunicipalSection`)

  /** The content of one municipality's section: an empty `anomalies` is the "no
      significant anomalies" message, an empty `summary` the "no data" one. */
  datatype Section = Section(municipio: string, anomalies: seq<AnomalyLine>, summary: seq<SummaryLine>)

  function SectionOf(rows: seq<Row>, municipio: string): Section
  {
    var own := MunicipioRows(rows, municipio);
    Section(municipio, AnomalyLines(Significant(own)), Summary(own))
  }

  /** `generateMunicipalSection` over the loaded rows, as a value the sections are built
      from. */
  function SectionFor(rows: seq<Row>): string -> Section
  {
    m => SectionOf(rows, m)
  }

  /** The id of the element a section is written into. */
  function ContainerId(municipio: string): string
  {
    "sinaloa-war-" + Lower(municipio) + "-section"
  }

  /** The sections written for `municipios`, in order; a municipality whose element is not
      on the page (`containers`) is skipped. */
  function Sections(section: string -> Section, municipios: seq<string>, containers: set<string>): (ss: seq<Section>)
    ensures |ss| <= |municipios|
  {
    if municipios == [] then []
    else
      var n := |municipios| - 1;
      var m := municipios[n];
      Sections(section, municipios[..n], containers) + if ContainerId(m) in containers then [section(m)] else []
  }

  /** A section is written exactly for each listed municipality whose element exists. */
  lemma {:induction false} SectionsFacts(section: string -> Section, municipios: seq<string>, containers: set<string>)
    ensures forall s :: s in Sections(section, municipios, containers) <==>
      exists m :: m in municipios && ContainerId(m) in containers && s == section(m)
  {
    if municipios != [] {
      var n := |municipios| - 1;
      var front, m := municipios[..n], municipios[n];
      SectionsFacts(section, front, containers);
      assert municipios == front + [m];
    }
  }

  /** One more municipality adds its section at the end, when its element exists. */
  lemma SectionsStep(section: string -> Section, municipios: seq<string>, i: nat, containers: set<string>)
    requires i < |municipios|
    ensures Sections(section, municipios[..i + 1], containers)
      == Sections(section, municipios[..i], containers)
         + if ContainerId(municipios[i]) in containers then [section(municipios[i])] else []
  {
    assert municipios[..i + 1][..i] == municipios[..i];
  }

  /** `generateMunicipalAnalysis`: a section for every municipality with data. */
  function Analysis(rows: seq<Row>, containers: set<string>): seq<Section>
    requires Named(rows)
  {
    Sections(SectionFor(rows), WithData(rows), containers)
  }

  /** Over loaded rows there are at most six sections, each for one of the six
      municipalities, each written only where its element exists, and each with a
      non-empty summary, because its municipality has rows. */
  lemma AnalysisFacts(rows: seq<Row>, containers: set<string>)
    requires forall r :: r in rows ==> Studied(r, Municipios)
    ensures Named(rows)
    ensures |Analysis(rows, containers)| <= |Municipios|
    ensures forall s :: s in Analysis(rows, containers) ==>
      s.municipio in Municipios && ContainerId(s.municipio) in containers && s.summary != []
  {
    WithDataFacts(rows);
    SectionsFacts(SectionFor(rows), WithData(rows), containers);
    forall s | s in Analysis(rows, containers)
      ensures s.municipio in Municipios && ContainerId(s.municipio) in containers && s.summary != []
    {
      var m :| m in WithData(rows) && ContainerId(m) in containers && s == SectionFor(rows)(m);
      assert s == SectionOf(rows, m);
      var r :| r in rows && r["Municipio"] == m;
      assert r in MunicipioRows(rows, m);
      SummaryNonEmpty(MunicipioRows(rows, m));
    }
  }

  /** The loop of `generateMunicipalAnalysis` over the municipalities with data. */
  method BuildSections(section: string -> Section, municipios: seq<string>, containers: set<string>)
    returns (out: seq<Section>)
    ensures out == Sections(section, municipios, containers)
  {
    out := [];
    var i := 0;
    while i < |municipios|
      invariant 0 <= i <= |municipios|
      invariant out == Sections(section, municipios[..i], containers)
    {
      SectionsStep(section, municipios, i, containers);
      var m := municipios[i];
      if ContainerId(m) in containers {
        out := out + [section(m)];
      }
      i := i + 1;
    }
    assert municipios[..i] == municipios;
  }

  // ---------------------------------------------------------------------------------
  // The page object

  class SinaloaWarAnalysis {
    /** `null` until the table is loaded. */
    var anomaliesData: Option<seq<Row>>
    const municipios: seq<string>

    /** Loaded rows are always rows of the studied municipalities. */
    predicate Valid()
      reads this
    {
      municipios == Municipios &&
      (anomaliesData.Some? ==> forall r :: r in anomaliesData.value ==> Studied(r, municipios))
    }

    constructor()
      ensures anomaliesData == None && municipios == Municipios
      ensures Valid()
    {
      anomaliesData := None;
      municipios := Municipios;
    }

    /** `loadAnomaliesData`: `response` is the fetched text, `None` when the request
        fails, in which case the data is the empty list. */
    method LoadAnomaliesData(response: Option<string>)
      requires Valid()
      modifies this
      ensures Valid()
      ensures anomaliesData == Some(if response.None? then [] else StudiedRows(Parse(WarFormat, response.value), Municipios))
    {
      if response.None? {
        anomaliesData := Some([]);
      } else {
        var rows := ReadRows(WarFormat, response.value);
        anomaliesData := Some(rows);
        anomaliesData := Some(StudiedRows(anomaliesData.value, municipios));
      }
    }

    /** `generateMunicipalAnalysis` with the sections returned rather than written into
        the page; `None` when nothing is loaded, where the source's `map` on `null` throws. */
    method GenerateMunicipalAnalysis(containers: set<string>) returns (sections: Option<seq<Section>>)
      requires Valid()
      ensures sections.None? <==> anomaliesData.None?
      ensures anomaliesData.Some? ==> Named(anomaliesData.value) && sections == Some(Analysis(anomaliesData.value, containers))
    {
      if anomaliesData.None? {
        return None;
      }
      var rows := anomaliesData.value;
      var out := BuildSections(SectionFor(rows), WithData(rows), containers);
      sections := Some(out);
    }

    /** `init`: load, then analyse. */
    method Init(response: Option<string>, containers: set<string>) returns (sections: seq<Section>)
      requires Valid()
      modifies this
      ensures Valid()
      ensures anomaliesData.Some? && Named(anomaliesData.value)
      ensures sections == Analysis(anomaliesData.value, containers)
      ensures anomaliesData.value == if response.None? then [] else StudiedRows(Parse(WarFormat, response.value), Municipios)
    {
      LoadAnomaliesData(response);
      var result := GenerateMunicipalAnalysis(containers);
      sections := result.value;
    }
  }
}
