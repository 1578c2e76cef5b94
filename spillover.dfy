/** The state-level spillover map (scripts/spillover.js): one marker per state, sized by its
    count against the largest count and coloured either by that share or by the change
    from a base month, with the table of the month read from a CSV file. */
module Spillover {
  import opened Optional
  import opened JsStrings
  import opened JsNumbers
  import opened Collections
  import opened Csv
  import opened Periods
  import opened Ladders
  import Scales

  // ---------------------------------------------------------------------------------
  // Reading (`parseCSV`)

  /** Lines cut on newlines, headers and cells split on commas and kept as they are, blank
      lines kept. */
  const SpilloverFormat := Format(Newline, AsIs, AsIs, CommaSplit, false)

  /** One row per line after the header, blank ones included; row `k` has exactly the
      headers as keys, and a header that occurs once holds field `j` of line `k + 1`
      untouched, or `''` when the line is shorter. */
  lemma ParseCsvFacts(text: string)
    ensures |Parse(SpilloverFormat, text)| == |Lines(SpilloverFormat, text)| - 1
    ensures forall r :: r in Parse(SpilloverFormat, text) ==> r.Keys == set h | h in Headers(SpilloverFormat, text)
    ensures var headers, lines := Headers(SpilloverFormat, text), Lines(SpilloverFormat, text);
      forall k, j :: 0 <= k < |lines| - 1 && 0 <= j < |headers| && headers[j] !in headers[j + 1..] ==>
        Parse(SpilloverFormat, text)[k][headers[j]] == Cell(AsIs, Split(lines[k + 1], ","), j)
  {
    var lines := Lines(SpilloverFormat, text);
    var headers, body := Headers(SpilloverFormat, text), lines[1..];
    RowCount(SpilloverFormat, headers, body);
    RowKeys(SpilloverFormat, headers, body);
    forall k | 0 <= k < |lines| - 1
      ensures Parse(SpilloverFormat, text)[k] == BuildRow(headers, Split(lines[k + 1], ","), AsIs)
    {
      RowPerLine(SpilloverFormat, headers, body, k);
      assert body[k] == lines[k + 1];
    }
    forall k | 0 <= k < |lines| - 1 {
      RowFacts(headers, Split(lines[k + 1], ","), AsIs);
    }
  }

  // ---------------------------------------------------------------------------------
  // The data file (`spilloverData`)

  /** `spilloverData[estado][year][mes][delito]`: a count per state, year, month and crime
      type. */
  type SpilloverData = map<string, map<int, map<string, map<string, real>>>>

  /** Whether the state, year and month levels are all present. */
  predicate HasMonth(data: SpilloverData, estado: string, year: int, mes: string)
  {
    estado in data && year in data[estado] && mes in data[estado][year]
  }

  /** `spilloverData[estado][year][mes][delito] || 0` once the three levels are present, and
      0 when one of them is missing. */
  function Cases(data: SpilloverData, estado: string, year: int, mes: string, delito: string): real
  {
    if HasMonth(data, estado, year, mes) && delito in data[estado][year][mes] then data[estado][year][mes][delito]
    else 0.0
  }

  /** `meses.indexOf(mes)`, or `|Months|` when it is not a month name. */
  function MonthIndex(mes: string): (i: nat)
    ensures i <= |Months|
    ensures i < |Months| ==> Months[i] == mes
    ensures i == |Months| <==> mes !in Months
  {
    if mes in Months then FirstIndex(Months, mes) else |Months|
  }

  /** The count a month is compared with: the same month of 2024 for a month of 2025, the
      previous month of the same year otherwise, and nothing (0) for January or a name that
      is not a month. */
  function Base(data: SpilloverData, delito: string, estado: string, mes: string, year: int): real
  {
    if year == 2025 then Cases(data, estado, 2024, mes, delito)
    else
      var i := MonthIndex(mes);
      if 0 < i < |Months| then Cases(data, estado, year, Months[i - 1], delito) else 0.0
  }

  /** The percentage change from `base` to `cur`, or 0 over a base of 0 (a negative base
      is divided by like any other). */
  function Change(cur: real, base: real): (v: real)
    ensures base == 0.0 ==> v == 0.0
  {
    if base == 0.0 then 0.0 else (cur - base) / base * 100.0
  }

  /** The last step of `calculateVariacion`: 0 over a base of 0, the percentage otherwise. */
  method PercentFrom(valorActual: real, valorAnterior: real) returns (v: real)
    ensures v == Change(valorActual, valorAnterior)
  {
    if valorAnterior == 0.0 {
      return 0.0;
    }
    v := (valorActual - valorAnterior) / valorAnterior * 100.0;
  }

  /** Over a base other than 0 the change times the base is the difference times 100. */
  lemma ChangeMeaning(cur: real, base: real)
    requires base != 0.0
    ensures Change(cur, base) * base == (cur - base) * 100.0
  {
    var q := (cur - base) / base;
    assert q * base == cur - base;
    assert q * 100.0 * base == q * base * 100.0;
  }

  /** `calculateVariacion`: the change of the month's count from its base. */
  function Variacion(data: SpilloverData, delito: string, estado: string, mes: string, year: int): real
  {
    Change(Cases(data, estado, year, mes, delito), Base(data, delito, estado, mes, year))
  }

  /** A 2025 month is compared with the same month of 2024, another month with the month
      before it, and January outside 2025, or a name that is not a month, with nothing, so
      its change is 0. */
  lemma VariacionFacts(data: SpilloverData, delito: string, estado: string, mes: string, year: int)
    ensures var base := Base(data, delito, estado, mes, year);
      && (year == 2025 ==> base == Cases(data, estado, 2024, mes, delito))
      && (year != 2025 && (mes == "Enero" || mes !in Months) ==> base == 0.0 && Variacion(data, delito, estado, mes, year) == 0.0)
      && (forall k :: 1 <= k < |Months| && year != 2025 && mes == Months[k] ==>
            base == Cases(data, estado, year, Months[k - 1], delito))
  {
    MonthsHaveNoSpace();
    if year != 2025 && mes in Months {
      forall k | 1 <= k < |Months| && mes == Months[k] ensures MonthIndex(mes) == k {
        assert Months[k] == mes;
      }
    }
  }

  // ---------------------------------------------------------------------------------
  // Markers (`getMarkerSize`, `getMarkerColor`, `getIntensidadColor`, `updateMapMarkers`)

  function Abs(x: real): (r: real)
    ensures r >= 0.0 && (r == x || r == -x)
  {
    if x < 0.0 then -x else x
  }

  /** `getMarkerSize`: 30 plus 50 times the share of the maximum, 30 when the maximum is
      not positive. */
  function MarkerSize(valor: real, maxValor: real): (r: real)
    ensures maxValor <= 0.0 ==> r == 30.0
    ensures maxValor > 0.0 ==> (r - 30.0) * maxValor == 50.0 * valor
    ensures 0.0 <= valor <= maxValor ==> 30.0 <= r <= 80.0
    ensures 0.0 < valor == maxValor ==> r == 80.0
  {
    ShareBounds(valor, maxValor);
    30.0 + (80.0 - 30.0) * Share(valor, maxValor)
  }

  /** `maxValor > 0 ? valor / maxValor : 0`. */
  function Share(valor: real, maxValor: real): real
  {
    if maxValor > 0.0 then valor / maxValor else 0.0
  }

  lemma ShareBounds(valor: real, maxValor: real)
    ensures maxValor > 0.0 ==> Share(valor, maxValor) * maxValor == valor
    ensures 0.0 <= valor <= maxValor ==> 0.0 <= Share(valor, maxValor) <= 1.0
  {
    if maxValor > 0.0 && 0.0 <= valor <= maxValor {
      Scales.RatioBounds(valor, 0.0, maxValor);
    }
  }

  /** The share the absolute view bins: `|valor| / maxValor`, 0 when the maximum is not
      positive. */
  function Ratio(valor: real, maxValor: real): real
  {
    Share(Abs(valor), maxValor)
  }

  const VariacionTests: seq<Test> := [Over(50.0), Over(20.0), Over(0.0), Over(-20.0)]
  const AbsolutoTests: seq<Test> := [Over(0.8), Over(0.6), Over(0.4), Over(0.2)]
  const MarkerPalette: seq<string> := ["#8e44ad", "#e74c3c", "#e67e22", "#f39c12", "#27ae60"]
  const IntensidadClasses: seq<string> :=
    ["intensidad-muy-alta", "intensidad-alta", "intensidad-media", "intensidad-baja", "intensidad-muy-baja"]

  /** The rungs of a view and the value they are applied to: the marker's raw value (its
      case count, as the caller passes it) in the `'variacion'` view, the share of the
      maximum in any other. */
  function Tests(vista: string): seq<Test>
  {
    if vista == "variacion" then VariacionTests else AbsolutoTests
  }

  function Binned(vista: string, valor: real, maxValor: real): real
  {
    if vista == "variacion" then valor else Ratio(valor, maxValor)
  }

  /** `getMarkerColor`: strict steps at 50, 20, 0 and -20 of the raw value in the variation
      view, strict steps at 0.8, 0.6, 0.4 and 0.2 of the maximum otherwise. */
  function MarkerColor(vista: string, valor: real, maxValor: real): (c: string)
    ensures vista == "variacion" ==>
      && (c == "#8e44ad" <==> valor > 50.0)
      && (c == "#e74c3c" <==> 20.0 < valor <= 50.0)
      && (c == "#e67e22" <==> 0.0 < valor <= 20.0)
      && (c == "#f39c12" <==> -20.0 < valor <= 0.0)
      && (c == "#27ae60" <==> valor <= -20.0)
    ensures vista != "variacion" ==> var r := Ratio(valor, maxValor);
      && (c == "#8e44ad" <==> r > 0.8)
      && (c == "#e74c3c" <==> 0.6 < r <= 0.8)
      && (c == "#e67e22" <==> 0.4 < r <= 0.6)
      && (c == "#f39c12" <==> 0.2 < r <= 0.4)
      && (c == "#27ae60" <==> r <= 0.2)
  {
    var x := Binned(vista, valor, maxValor);
    PickAt(Tests(vista), MarkerPalette, x, 0);
    PickAt(Tests(vista), MarkerPalette, x, 1);
    PickAt(Tests(vista), MarkerPalette, x, 2);
    PickAt(Tests(vista), MarkerPalette, x, 3);
    PickAt(Tests(vista), MarkerPalette, x, 4);
    Pick(Tests(vista), MarkerPalette, x)
  }

  /** `getIntensidadColor`: the class of the same rung. */
  function IntensidadColor(vista: string, valor: real, maxValor: real): (c: string)
    ensures c in IntensidadClasses
  {
    Pick(Tests(vista), IntensidadClasses, Binned(vista, valor, maxValor))
  }

  /** The class a value gets is the one named in the same position as its marker colour,
      so the two always agree. */
  lemma IntensidadMatchesMarker(vista: string, valor: real, maxValor: real, k: nat)
    requires k < |MarkerPalette|
    ensures MarkerColor(vista, valor, maxValor) == MarkerPalette[k] <==> IntensidadColor(vista, valor, maxValor) == IntensidadClasses[k]
  {
    var x := Binned(vista, valor, maxValor);
    PickAt(Tests(vista), MarkerPalette, x, k);
    PickAt(Tests(vista), IntensidadClasses, x, k);
  }

  /** Two values share a marker colour exactly when they share an intensity class. */
  lemma SameColourSameClass(vista: string, v: real, w: real, maxValor: real)
    ensures MarkerColor(vista, v, maxValor) == MarkerColor(vista, w, maxValor) <==>
      IntensidadColor(vista, v, maxValor) == IntensidadColor(vista, w, maxValor)
  {
    SameRungs(Tests(vista), MarkerPalette, IntensidadClasses, Binned(vista, v, maxValor), Binned(vista, w, maxValor));
  }

  /** The states drawn, in order. */
  const Estados: seq<string> := ["Sinaloa", "Sonora", "Chihuahua", "Durango", "Nayarit"]

  datatype Marker = Marker(estado: string, valor: real, variacion: real, size: real, color: string)

  /** A state's count and change for the month: both 0 when its month is missing. */
  function ValorOf(data: SpilloverData, delito: string, estado: string, mes: string, year: Option<int>): (real, real)
  {
    if year.Some? && HasMonth(data, estado, year.value, mes) then
      (Cases(data, estado, year.value, mes, delito), Variacion(data, delito, estado, mes, year.value))
    else (0.0, 0.0)
  }

  function AbsValues(data: SpilloverData, delito: string, mes: string, year: Option<int>): (r: seq<real>)
    ensures |r| == |Estados|
    ensures forall i :: 0 <= i < |Estados| ==> r[i] == Abs(ValorOf(data, delito, Estados[i], mes, year).0)
  {
    seq(|Estados|, i requires 0 <= i < |Estados| => Abs(ValorOf(data, delito, Estados[i], mes, year).0))
  }

  /** `Math.max(...valores.map(v => Math.abs(v.valor)))`. */
  function MaxValor(data: SpilloverData, delito: string, mes: string, year: Option<int>): (m: real)
    ensures m >= 0.0
    ensures forall i :: 0 <= i < |Estados| ==> Abs(ValorOf(data, delito, Estados[i], mes, year).0) <= m
  {
    var vs := AbsValues(data, delito, mes, year);
    assert vs[0] in vs;
    assert forall i :: 0 <= i < |Estados| ==> vs[i] in vs;
    Scales.MaxOf(vs).value
  }

  /** The markers of `updateMapMarkers` for a month and year: one per state, in order. */
  function Markers(data: SpilloverData, delito: string, vista: string, mes: string, year: Option<int>): (ms: seq<Marker>)
    ensures |ms| == |Estados|
    ensures forall i :: 0 <= i < |Estados| ==> (ms[i].estado == Estados[i]
      && (ms[i].valor, ms[i].variacion) == ValorOf(data, delito, Estados[i], mes, year)
      && ms[i].color == MarkerColor(vista, ms[i].valor, MaxValor(data, delito, mes, year))
      && ms[i].size == MarkerSize(Abs(ms[i].valor), MaxValor(data, delito, mes, year))
      && 30.0 <= ms[i].size <= 80.0)
  {
    var m := MaxValor(data, delito, mes, year);
    seq(|Estados|, i requires 0 <= i < |Estados| =>
      var (valor, variacion) := ValorOf(data, delito, Estados[i], mes, year);
      Marker(Estados[i], valor, variacion, MarkerSize(Abs(valor), m), MarkerColor(vista, valor, m)))
  }

  // ---------------------------------------------------------------------------------
  // The table (`generateTable`)

  /** The rows of `generateTable`: `Mes` equal to the first word of the period and `Año`
      equal to its second word (`undefined` when there is none). */
  function TableRows(rows: seq<Row>, period: string): seq<Row>
  {
    var words := Split(period, " ");
    Where(Where(rows, "Mes", Some(words[0]), true), "Año", Element(words, 1), true)
  }

  /** For a label's own period the table keeps exactly the rows of that month and year. */
  lemma TableOfLabel(rows: seq<Row>, month: string, year: string)
    requires NoSpace(month) && NoSpace(year)
    ensures forall row :: row in TableRows(rows, Label(month, year)) <==>
      row in rows && Field(row, "Mes") == Some(month) && Field(row, "Año") == Some(year)
  {
    LabelWords(month, year);
  }

  /** The eighteen months of the slider all have one space, so each keeps the rows of its
      own month and year. */
  lemma TableOfPeriod(rows: seq<Row>, k: nat)
    requires k < 18
    ensures var (month, year) := if k < 12 then (Months[k], "2024") else (Months[k - 12], "2025");
      && TwoYears(6)[k] == Label(month, year)
      && forall row :: row in TableRows(rows, TwoYears(6)[k]) <==>
        row in rows && Field(row, "Mes") == Some(month) && Field(row, "Año") == Some(year)
  {
    MonthsHaveNoSpace();
    if k < 12 {
      assert Months[k] in Months;
      TableOfLabel(rows, Months[k], "2024");
    } else {
      assert Months[k - 12] in Months;
      TableOfLabel(rows, Months[k - 12], "2025");
    }
  }

  // ---------------------------------------------------------------------------------
  // The analysis object

  /** The state `SpilloverAnalysis` keeps: the data file, the table rows, the slider's
      periods and the selected period, crime type and view. */
  class SpilloverAnalysis {
    var spilloverData: Option<SpilloverData>
    var tableData: Option<seq<Row>>
    var currentPeriod: Option<string>
    var currentDelito: string
    var currentVista: string
    var periodos: seq<string>
    /** The reader the table file goes through. */
    const format: Format

    constructor()
      ensures spilloverData == None && tableData == None
      ensures currentPeriod == Some("Enero 2024") && currentDelito == "Total" && currentVista == "absolutos"
      ensures format == SpilloverFormat
      ensures periodos == TwoYears(6) && |periodos| == 18 && NoDuplicates(periodos)
      ensures periodos[0] == "Enero 2024" && periodos[17] == "Junio 2025"
    {
      spilloverData := None;
      tableData := None;
      currentPeriod := Some("Enero 2024");
      currentDelito := "Total";
      currentVista := "absolutos";
      periodos := [];
      format := SpilloverFormat;
      new;
      InitPeriodos();
      TwoYearsDistinct(6);
    }

    /** `initPeriodos`: the twelve months of 2024, then January to June 2025. */
    method InitPeriodos()
      modifies this
      ensures periodos == old(periodos) + TwoYears(6)
      ensures spilloverData == old(spilloverData) && tableData == old(tableData)
      ensures currentPeriod == old(currentPeriod) && currentDelito == old(currentDelito) && currentVista == old(currentVista)
    {
      var ps := AppendMonths(periodos, "2024", 12);
      ps := AppendMonths(ps, "2025", 6);
      assert ps == periodos + (MonthLabels("2024", 12) + MonthLabels("2025", 6));
      periodos := ps;
    }

    /** `loadData` once the data file and the table text are fetched. */
    method LoadData(data: SpilloverData, text: string)
      modifies this
      ensures spilloverData == Some(data) && tableData == Some(Parse(format, text))
      ensures periodos == old(periodos)
      ensures currentPeriod == old(currentPeriod) && currentDelito == old(currentDelito) && currentVista == old(currentVista)
    {
      var rows := ReadRows(format, text);
      spilloverData, tableData := Some(data), Some(rows);
    }

    /** The slider: the period at `index`, `undefined` outside the list. */
    method SelectPeriod(index: int)
      modifies this
      ensures currentPeriod == Element(periodos, index)
      ensures spilloverData == old(spilloverData) && tableData == old(tableData) && periodos == old(periodos)
      ensures currentDelito == old(currentDelito) && currentVista == old(currentVista)
    {
      currentPeriod := Element(periodos, index);
    }

    method SelectDelito(delito: string)
      modifies this
      ensures currentDelito == delito
      ensures spilloverData == old(spilloverData) && tableData == old(tableData) && periodos == old(periodos)
      ensures currentPeriod == old(currentPeriod) && currentVista == old(currentVista)
    {
      currentDelito := delito;
    }

    method SelectVista(vista: string)
      modifies this
      ensures currentVista == vista
      ensures spilloverData == old(spilloverData) && tableData == old(tableData) && periodos == old(periodos)
      ensures currentPeriod == old(currentPeriod) && currentDelito == old(currentDelito)
    {
      currentVista := vista;
    }

    /** `calculateVariacion` for the selected crime type: the current count, then the base
        count, each left at 0 when its month is missing. */
    method CalculateVariacion(estado: string, mes: string, year: int) returns (v: real)
      requires spilloverData.Some?
      ensures v == Variacion(spilloverData.value, currentDelito, estado, mes, year)
    {
      var data := spilloverData.value;
      var valorActual := 0.0;
      var valorAnterior := 0.0;
      if HasMonth(data, estado, year, mes) {
        valorActual := Cases(data, estado, year, mes, currentDelito);
      }
      if year == 2025 {
        if HasMonth(data, estado, 2024, mes) {
          valorAnterior := Cases(data, estado, 2024, mes, currentDelito);
        }
      } else {
        var mesIndex := MonthIndex(mes);
        if 0 < mesIndex < |Months| {
          var mesAnterior := Months[mesIndex - 1];
          if HasMonth(data, estado, year, mesAnterior) {
            valorAnterior := Cases(data, estado, year, mesAnterior, currentDelito);
          }
        }
      }
      assert valorActual == Cases(data, estado, year, mes, currentDelito);
      assert valorAnterior == Base(data, currentDelito, estado, mes, year);
      v := PercentFrom(valorActual, valorAnterior);
    }

    /** The markers of the selected month, crime type and view; nothing when no period is
        selected or the data is not loaded (where `updateMapMarkers` would throw). */
    function MapMarkers(): (ms: Option<seq<Marker>>)
      reads this
      ensures ms.Some? <==> currentPeriod.Some? && spilloverData.Some?
      ensures ms.Some? ==> |ms.value| == |Estados| && forall m :: m in ms.value ==> 30.0 <= m.size <= 80.0
      ensures ms.Some? ==>
        var words := Split(currentPeriod.value, " ");
        var year := if |words| > 1 then ParseInt(words[1]) else None;
        var top := MaxValor(spilloverData.value, currentDelito, words[0], year);
        forall i :: 0 <= i < |Estados| ==>
          && ms.value[i].estado == Estados[i]
          && (ms.value[i].valor, ms.value[i].variacion) == ValorOf(spilloverData.value, currentDelito, Estados[i], words[0], year)
          && ms.value[i].size == MarkerSize(Abs(ms.value[i].valor), top)
          && ms.value[i].color == MarkerColor(currentVista, ms.value[i].valor, top)
    {
      if currentPeriod.None? || spilloverData.None? then None
      else
        var words := Split(currentPeriod.value, " ");
        var year := if |words| > 1 then ParseInt(words[1]) else None;
        Some(Markers(spilloverData.value, currentDelito, currentVista, words[0], year))
    }

    /** The rows of the table for the selected period; nothing when no period is selected
        or no table is loaded. */
    function Table(): (rows: Option<seq<Row>>)
      reads this
      ensures rows.Some? <==> currentPeriod.Some? && tableData.Some?
      ensures rows.Some? ==> var words := Split(currentPeriod.value, " ");
        forall row :: row in rows.value <==>
          row in tableData.value && Field(row, "Mes") == Some(words[0]) && Field(row, "Año") == Element(words, 1)
    {
      if currentPeriod.None? || tableData.None? then None
      else Some(TableRows(tableData.value, currentPeriod.value))
    }
  }
}
