/** Rates per 100,000 inhabitants in the national report (scripts/main.js): the
    population lookup, the rate itself and the conversion of a table of yearly counts
    into a table of yearly rates with a weighted total. */
module ReportRates {
  import opened Optional
  import opened JsStrings
  import opened JsNumbers
  import opened Collections
  import opened Csv

  /** `calculateRate(casos, poblacion)`: cases per 100,000 inhabitants, and 0 when the
      population is `null` or 0. */
  function CalculateRate(casos: real, poblacion: Option<real>): (r: real)
    ensures poblacion == None || poblacion == Some(0.0) ==> r == 0.0
  {
    match poblacion
    case None => 0.0
    case Some(p) => if p == 0.0 then 0.0 else casos / p * 100000.0
  }

  /** A rate times its population gives back the cases times 100,000. */
  lemma RateTimesPopulation(c: real, p: real)
    requires p != 0.0
    ensures CalculateRate(c, Some(p)) * p == c * 100000.0
  {
  }

  /** The row's entity key reads as the number `clave`. */
  predicate HasClave(row: Row, clave: int)
  {
    "Clave_Entidad" in row && ParseInt(row["Clave_Entidad"]) == Some(clave)
  }

  /** Index of the row `find` returns, or `|rows|` when no row has the key. */
  function FirstWithClave(rows: seq<Row>, clave: int): (k: nat)
    ensures k <= |rows|
    ensures k < |rows| ==> HasClave(rows[k], clave)
    ensures forall j :: 0 <= j < k ==> !HasClave(rows[j], clave)
  {
    if rows == [] then 0
    else if HasClave(rows[0], clave) then 0
    else 1 + FirstWithClave(rows[1..], clave)
  }

  /** `getPoblacion(clave, year)`: the year's cell of the first row with that key, with
      every non-digit removed, read as a number; `null` (here `None`) unless that number
      is positive (see `GetPoblacionCases`). */
  function GetPoblacion(rows: seq<Row>, clave: int, year: string): (r: Option<int>)
    ensures r.Some? ==> r.value > 0
  {
    var k := FirstWithClave(rows, clave);
    if k == |rows| then None
    else
      var row := rows[k];
      if year !in row || row[year] == "" then None
      else
        var cleaned := DigitsOnly(row[year]);
        ParseIntOfDigits(cleaned);
        match ParseInt(cleaned)
        case Some(p) => if p != 0 then Some(p) else None
        case None => None
  }

  /** The population is `null` when no row has the key, when the year's cell is missing or
      empty, and when the cell's digits spell 0 or there are none; otherwise it is the
      number the cell's digits spell, whatever else the cell holds (`"1,234,567"`). */
  lemma GetPoblacionCases(rows: seq<Row>, clave: int, year: string)
    ensures var k := FirstWithClave(rows, clave);
      GetPoblacion(rows, clave, year)
        == if k == |rows| || year !in rows[k] || rows[k][year] == "" then None
           else if ValueOf(DigitsOnly(rows[k][year]), 10) == 0 then None
           else Some(ValueOf(DigitsOnly(rows[k][year]), 10) as int)
  {
    var k := FirstWithClave(rows, clave);
    if k < |rows| && year in rows[k] && rows[k][year] != "" {
      ParseIntOfDigits(DigitsOnly(rows[k][year]));
    }
  }

  /** The years `convertToRates` covers. */
  const Years: seq<string> := ["2019", "2020", "2021", "2022", "2023", "2024", "2025"]

  /** A converted row: the `Delito` label it was copied from, one rate per year and `Total`. */
  datatype RateRow = RateRow(delito: Option<string>, yearly: seq<real>, total: real)

  /** `getPoblacion(clave, year)` as a number. */
  function PopulationOf(pop: seq<Row>, clave: int, year: string): (r: Option<real>)
    ensures r.Some? <==> GetPoblacion(pop, clave, year).Some?
    ensures r.Some? ==> r.value > 0.0
  {
    var g := GetPoblacion(pop, clave, year);
    if g.Some? then Some(g.value as real) else None
  }

  /** The population of each year, in order. */
  function YearPopulations(pop: seq<Row>, clave: int, years: seq<string>): (r: seq<Option<real>>)
    ensures |r| == |years| && forall k :: 0 <= k < |years| ==> r[k] == PopulationOf(pop, clave, years[k])
  {
    seq(|years|, k requires 0 <= k < |years| => PopulationOf(pop, clave, years[k]))
  }

  /** `parseInt(row[año]) || 0` for each year, in order. */
  function Counts(row: Row, years: seq<string>): (r: seq<int>)
    ensures |r| == |years| && forall k :: 0 <= k < |years| ==> r[k] == IntField(row, years[k])
  {
    seq(|years|, k requires 0 <= k < |years| => IntField(row, years[k]))
  }

  /** The yearly rates of counts whose populations are `pops`: a rate when there is a
      population, 0 otherwise (see `YearRateMeaning`). */
  function YearRates(counts: seq<int>, pops: seq<Option<real>>): (r: seq<real>)
    requires |pops| == |counts|
    ensures |r| == |counts|
  {
    if counts == [] then []
    else
      var n := |counts| - 1;
      YearRates(counts[..n], pops[..n]) + [if pops[n].Some? then CalculateRate(counts[n] as real, pops[n]) else 0.0]
  }

  /** The sum of the years' populations, a missing one counting as 0. */
  function PopulationSum(pops: seq<Option<real>>): real
  {
    if pops == [] then 0.0
    else
      var n := |pops| - 1;
      PopulationSum(pops[..n]) + pops[n].GetOr(0.0)
  }

  /** One row of `convertToRates`: the yearly rates, and a total that is the rate of all
      cases over the mean population of the years, or 0 when no year has a population. */
  function RateRowOf(row: Row, years: seq<string>, pops: seq<Option<real>>): (r: RateRow)
    requires |pops| == |years|
    ensures r.delito == Field(row, "Delito") && |r.yearly| == |years|
  {
    var counts := Counts(row, years);
    var totalPob := PopulationSum(pops);
    RateRow(
      Field(row, "Delito"),
      YearRates(counts, pops),
      if totalPob > 0.0 then CalculateRate(SumInts(counts) as real, Some(totalPob / |years| as real)) else 0.0)
  }

  /** `convertToRates(data, clave)`: one converted row per input row, in order, each over
      the populations of the seven years. */
  function ConvertToRates(data: seq<Row>, pop: seq<Row>, clave: int): (r: seq<RateRow>)
    ensures |r| == |data|
    ensures forall k :: 0 <= k < |data| ==> r[k] == RateRowOf(data[k], Years, YearPopulations(pop, clave, Years))
  {
    var pops := YearPopulations(pop, clave, Years);
    seq(|data|, k requires 0 <= k < |data| => RateRowOf(data[k], Years, pops))
  }

  /** The rate of year `k` is `calculateRate` of that year's count and population (so, by
      `RateTimesPopulation`, times the population it gives the count times 100,000), and 0
      for a year without population. */
  lemma {:induction false} YearRateMeaning(counts: seq<int>, pops: seq<Option<real>>, k: nat)
    requires |pops| == |counts| && k < |counts|
    ensures YearRates(counts, pops)[k]
      == if pops[k].Some? then CalculateRate(counts[k] as real, pops[k]) else 0.0
  {
    var n := |counts| - 1;
    if k < n {
      YearRateMeaning(counts[..n], pops[..n], k);
      assert counts[..n][k] == counts[k] && pops[..n][k] == pops[k];
    }
  }

  lemma {:induction false} ConstantPopulationSum(pops: seq<Option<real>>, p: real)
    requires forall k :: 0 <= k < |pops| ==> pops[k] == Some(p)
    ensures PopulationSum(pops) == |pops| as real * p
  {
    if pops != [] {
      var n := |pops| - 1;
      ConstantPopulationSum(pops[..n], p);
      assert |pops[..n]| == n && |pops| as real == n as real + 1.0;
      MulSucc(n as real, p);
    }
  }

  /** Over one population the yearly rates add up to the rate of all the cases. */
  lemma {:induction false} ConstantPopulationRates(counts: seq<int>, pops: seq<Option<real>>, p: real)
    requires |pops| == |counts| && p > 0.0
    requires forall k :: 0 <= k < |pops| ==> pops[k] == Some(p)
    ensures SumReals(YearRates(counts, pops)) == SumInts(counts) as real / p * 100000.0
  {
    if counts != [] {
      var n := |counts| - 1;
      ConstantPopulationRates(counts[..n], pops[..n], p);
      var c0, c := SumInts(counts[..n]) as real, counts[n] as real;
      var rates, prev := YearRates(counts, pops), YearRates(counts[..n], pops[..n]);
      assert rates == prev + [c / p * 100000.0];
      assert rates[..n] == prev;
      DivSum(c0, c, p);
    }
  }

  lemma MulSucc(n: real, p: real)
    ensures (n + 1.0) * p == n * p + p
  {
  }

  lemma MulDiv(m: real, p: real)
    requires m > 0.0
    ensures m * p / m == p
  {
  }

  lemma DivSum(a: real, b: real, p: real)
    requires p > 0.0
    ensures a / p * 100000.0 + b / p * 100000.0 == (a + b) / p * 100000.0
  {
    assert a / p + b / p == (a + b) / p;
  }

  /** Over one population the total of the counts over the mean population is the sum
      of the yearly rates. */
  lemma ConstantTotal(counts: seq<int>, pops: seq<Option<real>>, p: real)
    requires |pops| == |counts| && |counts| > 0 && p > 0.0
    requires forall k :: 0 <= k < |pops| ==> pops[k] == Some(p)
    ensures PopulationSum(pops) > 0.0
    ensures CalculateRate(SumInts(counts) as real, Some(PopulationSum(pops) / |pops| as real))
      == SumReals(YearRates(counts, pops))
  {
    MeanPopulation(pops, p);
    ConstantPopulationRates(counts, pops, p);
  }

  /** The mean of equal populations is that population. */
  lemma MeanPopulation(pops: seq<Option<real>>, p: real)
    requires |pops| > 0 && p > 0.0
    requires forall k :: 0 <= k < |pops| ==> pops[k] == Some(p)
    ensures PopulationSum(pops) > 0.0 && PopulationSum(pops) / |pops| as real == p
  {
    ConstantPopulationSum(pops, p);
    MulDiv(|pops| as real, p);
  }

  /** When every year has the same population, the weighted `Total` is the sum of the
      yearly rates (it is the rate of all cases over one year's population). */
  lemma ConstantPopulationTotal(row: Row, years: seq<string>, pops: seq<Option<real>>, p: real)
    requires |pops| == |years| && |years| > 0 && p > 0.0
    requires forall k :: 0 <= k < |pops| ==> pops[k] == Some(p)
    ensures RateRowOf(row, years, pops).total == SumReals(RateRowOf(row, years, pops).yearly)
  {
    var counts := Counts(row, years);
    ConstantTotal(counts, pops, p);
  }

  lemma {:induction false} NoPopulationSum(pops: seq<Option<real>>)
    requires forall k :: 0 <= k < |pops| ==> pops[k] == None
    ensures PopulationSum(pops) == 0.0
  {
    if pops != [] {
      NoPopulationSum(pops[..|pops| - 1]);
    }
  }

  /** Without any population every rate, the total included, is 0. */
  lemma NoPopulationNoRates(row: Row, years: seq<string>, pops: seq<Option<real>>)
    requires |pops| == |years|
    requires forall k :: 0 <= k < |pops| ==> pops[k] == None
    ensures PopulationSum(pops) == 0.0 && RateRowOf(row, years, pops).total == 0.0
    ensures forall k :: 0 <= k < |years| ==> RateRowOf(row, years, pops).yearly[k] == 0.0
  {
    forall k | 0 <= k < |years| ensures RateRowOf(row, years, pops).yearly[k] == 0.0 {
      YearRateMeaning(Counts(row, years), pops, k);
    }
    NoPopulationSum(pops);
  }
}
