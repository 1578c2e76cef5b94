/** The change tables and national sums of the national report (scripts/main.js): yearly
    and monthly percent changes per crime, per-state monthly changes, and national totals. */
module ReportChanges {
  import opened Optional
  import opened Collections
  import opened Csv
  import opened PercentChanges

  const OtrosDelitos := "Otros delitos que atentan contra la vida y la integridad corporal"

  /** The label of the row added after the crimes. */
  const TotalLabel := "TOTAL VIOLENCIA HOMICIDA"

  /** The label a crime is shown with: the long name of the last category is shortened. */
  function DisplayName(delito: string): string
  {
    if delito == OtrosDelitos then "Otros delitos contra la vida" else delito
  }

  // ---------------------------------------------------------------------------------
  // Yearly changes (`calculateCambiosPorcentuales`)

  /** The crimes of the yearly table, in its order. */
  const YearlyDelitos: seq<string> := ["Feminicidio", "Homicidio culposo", "Homicidio doloso", OtrosDelitos]

  /** The years that get a change, and the year each is compared with. */
  const ChangeYears: seq<string> := ["2019", "2020", "2021", "2022", "2023", "2024", "2025"]
  const BaseYears: seq<string> := ["2018", "2019", "2020", "2021", "2022", "2023", "2024"]

  /** A row of a change table: its label and one change per year. */
  datatype ChangeRow = ChangeRow(delito: string, changes: seq<real>)

  /** The change of each year 2019–2025 in a row over the year before it (see
      `PercentChangeMeaning`); a year whose previous count is 0 or missing gets 0. */
  function YearlyChanges(row: Row): (r: seq<real>)
    ensures |r| == |ChangeYears|
    ensures forall k :: 0 <= k < |ChangeYears| && IntField(row, BaseYears[k]) <= 0 ==> r[k] == 0.0
  {
    seq(|ChangeYears|, k requires 0 <= k < |ChangeYears| =>
      PercentChange(IntField(row, ChangeYears[k]) as real, IntField(row, BaseYears[k]) as real))
  }

  predicate HasRow(data: seq<Row>, delito: string)
  {
    FirstWith(data, "Delito", Some(delito)) < |data|
  }

  /** The crimes of `delitos` that have a row in `data`, in the order of `delitos`. */
  function Found(data: seq<Row>, delitos: seq<string>): (r: seq<string>)
    ensures forall d :: d in r <==> d in delitos && HasRow(data, d)
    ensures |r| <= |delitos|
    ensures (forall d :: d in delitos ==> HasRow(data, d)) ==> r == delitos
  {
    if delitos == [] then []
    else (if HasRow(data, delitos[0]) then [delitos[0]] else []) + Found(data, delitos[1..])
  }

  /** The crime rows of the yearly table: one per crime found, in the same order, each
      labelled with the crime's display name and holding the changes of the first row of
      that crime. */
  function CrimeRows(data: seq<Row>, delitos: seq<string>): (r: seq<ChangeRow>)
    ensures |r| == |Found(data, delitos)|
    ensures forall k :: 0 <= k < |r| ==>
      var d := Found(data, delitos)[k];
      HasRow(data, d)
      && r[k] == ChangeRow(DisplayName(d), YearlyChanges(data[FirstWith(data, "Delito", Some(d))]))
  {
    if delitos == [] then []
    else
      var rest := CrimeRows(data, delitos[1..]);
      var d := delitos[0];
      if HasRow(data, d) then
        var row := ChangeRow(DisplayName(d), YearlyChanges(data[FirstWith(data, "Delito", Some(d))]));
        assert Found(data, delitos) == [d] + Found(data, delitos[1..]);
        [row] + rest
      else
        rest
  }

  /** `calculateCambiosPorcentuales(data)`: the crime rows followed by the total row, which
      is computed from the last input row whatever crime it holds. `None` for an empty
      table, on which the script fails reading the missing last row. */
  function CalculateCambiosPorcentuales(data: seq<Row>): (r: Option<seq<ChangeRow>>)
    ensures r.None? <==> data == []
    ensures r.Some? ==>
      && |r.value| == |Found(data, YearlyDelitos)| + 1
      && r.value[..|r.value| - 1] == CrimeRows(data, YearlyDelitos)
      && r.value[|r.value| - 1] == ChangeRow(TotalLabel, YearlyChanges(data[|data| - 1]))
  {
    if data == [] then None
    else Some(CrimeRows(data, YearlyDelitos) + [ChangeRow(TotalLabel, YearlyChanges(data[|data| - 1]))])
  }

  // ---------------------------------------------------------------------------------
  // Monthly changes (`calculateCambiosPorcentualesMensuales`)

  /** The crimes of the monthly table, in its order. */
  const MonthlyDelitos: seq<string> := ["Homicidio doloso", "Homicidio culposo", "Feminicidio", OtrosDelitos]

  /** The December 2023 counts the January 2024 changes are measured against. */
  const December2023: map<string, int> := map[
    "Homicidio doloso" := 1994,
    "Homicidio culposo" := 1581,
    "Feminicidio" := 61,
    OtrosDelitos := 1105,
    "Total" := 4741]

  /** `diciembre2023[col] || 0`. */
  function Baseline(col: string): int
  {
    if col in December2023 then December2023[col] else 0
  }

  /** The key `obj[row.Periodo] = ...` writes: a missing period becomes `"undefined"`. */
  function PeriodKey(p: Option<string>): string
  {
    p.GetOr("undefined")
  }

  /** The change the monthly table stores for row `i`. */
  function MonthChange(data: seq<Row>, i: nat, col: string): real
    requires i < |data|
  {
    if i == 0 then
      if Field(data[0], "Periodo") == Some("Enero 2024") then
        PercentChange(IntField(data[0], col) as real, Baseline(col) as real)
      else 0.0
    else PercentChange(IntField(data[i], col) as real, IntField(data[i - 1], col) as real)
  }

  /** The assignments `filaCambios[row.Periodo] = cambio`, row by row. */
  function MonthPairs(data: seq<Row>, col: string): seq<(string, real)>
  {
    seq(|data|, i requires 0 <= i < |data| => (PeriodKey(Field(data[i], "Periodo")), MonthChange(data, i, col)))
  }

  /** The object of changes of one column, keyed by period. */
  function MonthlyChanges(data: seq<Row>, col: string): map<string, real>
  {
    ObjectOf(MonthPairs(data, col))
  }

  /** A row of the monthly table. */
  datatype MonthlyRow = MonthlyRow(delito: string, cambios: map<string, real>)

  /** `calculateCambiosPorcentualesMensuales(data)`: one row per crime in a fixed order, then
      the total row over the `Total` column. */
  function CalculateCambiosPorcentualesMensuales(data: seq<Row>): (r: seq<MonthlyRow>)
    ensures |r| == |MonthlyDelitos| + 1
    ensures forall k :: 0 <= k < |MonthlyDelitos| ==>
      r[k] == MonthlyRow(DisplayName(MonthlyDelitos[k]), MonthlyChanges(data, MonthlyDelitos[k]))
    ensures r[|MonthlyDelitos|] == MonthlyRow(TotalLabel, MonthlyChanges(data, "Total"))
  {
    seq(|MonthlyDelitos|, k requires 0 <= k < |MonthlyDelitos| =>
      MonthlyRow(DisplayName(MonthlyDelitos[k]), MonthlyChanges(data, MonthlyDelitos[k])))
    + [MonthlyRow(TotalLabel, MonthlyChanges(data, "Total"))]
  }

  /** The monthly object has one key per period of the table. */
  lemma MonthlyKeys(data: seq<Row>, col: string)
    ensures MonthlyChanges(data, col).Keys == set i | 0 <= i < |data| :: PeriodKey(Field(data[i], "Periodo"))
  {
    var ps := MonthPairs(data, col);
    ObjectOfKeys(ps);
    assert (set p | p in ps :: p.0) == set i | 0 <= i < |data| :: PeriodKey(Field(data[i], "Periodo")) by {
      forall i | 0 <= i < |data| ensures PeriodKey(Field(data[i], "Periodo")) in set p | p in ps :: p.0 {
        assert ps[i] in ps;
      }
    }
  }

  /** For a period no later row repeats: the first row of the table, when it is January
      2024, is compared with the December 2023 baseline; any other first period gets 0;
      every later row is compared with the row just before it. */
  lemma MonthlyChangeAt(data: seq<Row>, col: string, i: nat)
    requires i < |data|
    requires forall j :: i < j < |data| ==> PeriodKey(Field(data[j], "Periodo")) != PeriodKey(Field(data[i], "Periodo"))
    ensures var m, key := MonthlyChanges(data, col), PeriodKey(Field(data[i], "Periodo"));
      && key in m
      && (i == 0 && Field(data[0], "Periodo") == Some("Enero 2024") ==>
            m[key] == PercentChange(IntField(data[0], col) as real, Baseline(col) as real))
      && (i == 0 && Field(data[0], "Periodo") != Some("Enero 2024") ==> m[key] == 0.0)
      && (i > 0 ==> m[key] == PercentChange(IntField(data[i], col) as real, IntField(data[i - 1], col) as real))
  {
    ObjectOfLastWins(MonthPairs(data, col), i);
  }

  // ---------------------------------------------------------------------------------
  // Per-state monthly changes (`calculateMonthlyStateChanges`)

  /** The entry of one state in the per-state table. */
  datatype StateChanges = StateChanges(estado: Option<string>, cambios: map<string, real>)

  /** The change of a state at period number `i`, or `None` when the current or the
      previous row is missing and the period gets no entry. January 2024 in first place
      is compared with the state's December 2023 row; otherwise the previous period is
      the one before in the list, which for the first period is `undefined` and so finds
      only a row without a period. */
  function StateChangeAt(data: seq<Row>, dec: seq<Row>, estado: Option<string>,
                         periodos: seq<Option<string>>, i: nat, col: string): Option<real>
    requires i < |periodos|
  {
    var cur := RowAt(data, FirstWithBoth(data, "Estado", estado, "Periodo", periodos[i]));
    var prev :=
      if i == 0 && periodos[0] == Some("Enero 2024") then RowAt(dec, FirstWith(dec, "Estado", estado))
      else RowAt(data, FirstWithBoth(data, "Estado", estado, "Periodo", if i == 0 then None else periodos[i - 1]));
    if cur.Some? && prev.Some? then
      Some(PercentChange(IntField(cur.value, col) as real, IntField(prev.value, col) as real))
    else None
  }

  /** The change of the state at each period, in order. */
  function StateChangeList(data: seq<Row>, dec: seq<Row>, estado: Option<string>,
                           periodos: seq<Option<string>>, col: string): (r: seq<Option<real>>)
    ensures |r| == |periodos|
    ensures forall i :: 0 <= i < |periodos| ==> r[i] == StateChangeAt(data, dec, estado, periodos, i, col)
  {
    seq(|periodos|, i requires 0 <= i < |periodos| => StateChangeAt(data, dec, estado, periodos, i, col))
  }

  /** The keys of the periods, in order. */
  function PeriodKeys(periodos: seq<Option<string>>): (r: seq<string>)
    ensures |r| == |periodos| && forall i :: 0 <= i < |periodos| ==> r[i] == PeriodKey(periodos[i])
  {
    seq(|periodos|, i requires 0 <= i < |periodos| => PeriodKey(periodos[i]))
  }

  /** The `cambios` object of a state: `cambios[periodo] = ...` for each period with a change. */
  function StateCambios(data: seq<Row>, dec: seq<Row>, estado: Option<string>,
                        periodos: seq<Option<string>>, col: string): map<string, real>
  {
    ObjectOf(PresentPairs(PeriodKeys(periodos), StateChangeList(data, dec, estado, periodos, col)))
  }

  /** `calculateMonthlyStateChanges(col)`: one entry per distinct state, in order of first
      appearance, over the distinct periods in order of first appearance. */
  function CalculateMonthlyStateChanges(data: seq<Row>, dec: seq<Row>, col: string): (r: seq<StateChanges>)
    ensures var estados := Distinct(Column(data, "Estado"));
      && |r| == |estados|
      && forall k :: 0 <= k < |r| ==>
           (r[k].estado == estados[k]
            && r[k].cambios == StateCambios(data, dec, estados[k], Distinct(Column(data, "Periodo")), col))
  {
    var estados := Distinct(Column(data, "Estado"));
    var periodos := Distinct(Column(data, "Periodo"));
    seq(|estados|, k requires 0 <= k < |estados| =>
      StateChanges(estados[k], StateCambios(data, dec, estados[k], periodos, col)))
  }

  /** A period whose key no other period shares has an entry exactly when both rows the
      change needs exist, and then the entry is that change. */
  lemma StateChangeKey(data: seq<Row>, dec: seq<Row>, estado: Option<string>,
                       periodos: seq<Option<string>>, col: string, i: nat)
    requires i < |periodos|
    requires forall j :: 0 <= j < |periodos| && j != i ==> PeriodKey(periodos[j]) != PeriodKey(periodos[i])
    ensures var m, key := StateCambios(data, dec, estado, periodos, col), PeriodKey(periodos[i]);
      && (key in m <==> StateChangeAt(data, dec, estado, periodos, i, col).Some?)
      && (key in m ==> m[key] == StateChangeAt(data, dec, estado, periodos, i, col).value)
  {
    var keys, vals := PeriodKeys(periodos), StateChangeList(data, dec, estado, periodos, col);
    PresentPairsKey(keys, vals, i);
  }

  // ---------------------------------------------------------------------------------
  // National sums

  /** The sum of `parseInt(row[col]) || 0` over the rows. */
  function ColumnSum(rows: seq<Row>, col: string): int
  {
    if rows == [] then 0
    else
      var n := |rows| - 1;
      ColumnSum(rows[..n], col) + IntField(rows[n], col)
  }

  lemma {:induction false} ColumnSumAppend(a: seq<Row>, b: seq<Row>, col: string)
    ensures ColumnSum(a + b, col) == ColumnSum(a, col) + ColumnSum(b, col)
  {
    if b == [] {
      assert a + b == a;
    } else {
      var n := |b| - 1;
      ColumnSumAppend(a, b[..n], col);
      assert (a + b)[..|a + b| - 1] == a + b[..n];
    }
  }

  /** `calculateNationalForPeriod(periodo, col)`. */
  function NationalForPeriod(rows: seq<Row>, periodo: Option<string>, col: string): int
  {
    ColumnSum(Where(rows, "Periodo", periodo, true), col)
  }

  /** A period's national figure and the figure of all other periods add up to the
      national total of the column. */
  lemma {:induction false} NationalForPeriodSplit(rows: seq<Row>, periodo: Option<string>, col: string)
    ensures NationalForPeriod(rows, periodo, col) + ColumnSum(Where(rows, "Periodo", periodo, false), col)
      == ColumnSum(rows, col)
  {
    if rows != [] {
      var n := |rows| - 1;
      NationalForPeriodSplit(rows[..n], periodo, col);
      var inP := Field(rows[n], "Periodo") == periodo;
      ColumnSumAppend(Where(rows[..n], "Periodo", periodo, true), if inP then [rows[n]] else [], col);
      ColumnSumAppend(Where(rows[..n], "Periodo", periodo, false), if inP then [] else [rows[n]], col);
      assert ColumnSum([rows[n]], col) == IntField(rows[n], col) by {
        assert [rows[n]][..0] == [];
      }
    }
  }

  /** The object `calculateNationalAbsolute` returns. */
  datatype NationalTotals = NationalTotals(
    clave: int, entidad: string,
    doloso: int, culposo: int, feminicidio: int, otros: int, total: int)

  /** The national totals: each crime column summed over every state row. */
  function NationalOf(rows: seq<Row>): NationalTotals
  {
    NationalTotals(0, "NACIONAL",
      ColumnSum(rows, "Homicidio doloso"), ColumnSum(rows, "Homicidio culposo"),
      ColumnSum(rows, "Feminicidio"), ColumnSum(rows, OtrosDelitos), ColumnSum(rows, "Total"))
  }

  /** National totals of two batches of rows add up, column by column. */
  lemma NationalOfAppend(a: seq<Row>, b: seq<Row>)
    ensures NationalOf(a + b).doloso == NationalOf(a).doloso + NationalOf(b).doloso
    ensures NationalOf(a + b).culposo == NationalOf(a).culposo + NationalOf(b).culposo
    ensures NationalOf(a + b).feminicidio == NationalOf(a).feminicidio + NationalOf(b).feminicidio
    ensures NationalOf(a + b).otros == NationalOf(a).otros + NationalOf(b).otros
    ensures NationalOf(a + b).total == NationalOf(a).total + NationalOf(b).total
  {
    ColumnSumAppend(a, b, "Homicidio doloso");
    ColumnSumAppend(a, b, "Homicidio culposo");
    ColumnSumAppend(a, b, "Feminicidio");
    ColumnSumAppend(a, b, OtrosDelitos);
    ColumnSumAppend(a, b, "Total");
  }

  /** `calculateNationalAbsolute()`: the `forEach` that adds each state row into the five
      counters. */
  method CalculateNationalAbsolute(rows: seq<Row>) returns (t: NationalTotals)
    ensures t == NationalOf(rows)
  {
    t := NationalTotals(0, "NACIONAL", 0, 0, 0, 0, 0);
    var i := 0;
    while i < |rows|
      invariant 0 <= i <= |rows|
      invariant t == NationalOf(rows[..i])
    {
      var row := rows[i];
      assert rows[..i + 1][..i] == rows[..i];
      t := t.(
        doloso := t.doloso + IntField(row, "Homicidio doloso"),
        culposo := t.culposo + IntField(row, "Homicidio culposo"),
        feminicidio := t.feminicidio + IntField(row, "Feminicidio"),
        otros := t.otros + IntField(row, OtrosDelitos),
        total := t.total + IntField(row, "Total"));
      i := i + 1;
    }
    assert rows[..|rows|] == rows;
  }
}
