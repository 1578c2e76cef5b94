/** The contribution analysis of the national report (scripts/main.js): how much each
    homicide category's change from 2024 to 2025 weighs in the change of their total. */
module ReportContribution {
  import opened Optional
  import opened Csv
  import opened PercentChanges
  import opened ReportChanges

  /** The categories of the analysis, in the order they are looked up. */
  const ContributionDelitos: seq<string> := ["Homicidio doloso", "Homicidio culposo", "Feminicidio", OtrosDelitos]

  /** One line of the analysis: the display name, the two yearly counts, the absolute and
      relative change, and the share of the total change (`pesoContribucion`). */
  datatype Contribution = Contribution(
    delito: string, valor2024: int, valor2025: int, cambioAbsoluto: int, cambioRelativo: real, peso: real)

  /** The totals line: both yearly totals and their absolute and relative change. */
  datatype Totals = Totals(total2024: int, total2025: int, cambioAbsoluto: int, cambioRelativo: real)

  /** A line whose absolute change is the difference of its counts and whose relative change
      is the percent change between them. */
  predicate Consistent(e: Contribution)
  {
    e.cambioAbsoluto == e.valor2025 - e.valor2024
    && e.cambioRelativo == PercentChange(e.valor2025 as real, e.valor2024 as real)
  }

  /** The line of a category, from the first row of that category, before its weight is set. */
  function EntryOf(data: seq<Row>, delito: string): (e: Contribution)
    requires HasRow(data, delito)
    ensures Consistent(e) && e.delito == DisplayName(delito) && e.peso == 0.0
    ensures var row := data[FirstWith(data, "Delito", Some(delito))];
      e.valor2024 == IntField(row, "2024") && e.valor2025 == IntField(row, "2025")
  {
    var row := data[FirstWith(data, "Delito", Some(delito))];
    var v2024 := IntField(row, "2024");
    var v2025 := IntField(row, "2025");
    Contribution(DisplayName(delito), v2024, v2025, v2025 - v2024, PercentChange(v2025 as real, v2024 as real), 0.0)
  }

  /** The lines of the categories of `ds` that have a row, in the order of `ds`. */
  function Entries(data: seq<Row>, ds: seq<string>): seq<Contribution>
  {
    if ds == [] then []
    else
      var n := |ds| - 1;
      Entries(data, ds[..n]) + if HasRow(data, ds[n]) then [EntryOf(data, ds[n])] else []
  }

  /** Every line is the line of a category of `ds` that has a row. */
  lemma {:induction false} EntriesFacts(data: seq<Row>, ds: seq<string>)
    ensures |Entries(data, ds)| <= |ds|
    ensures forall e :: e in Entries(data, ds) ==> Consistent(e) && e.peso == 0.0
    ensures forall e :: e in Entries(data, ds) ==> exists d :: d in ds && HasRow(data, d) && e == EntryOf(data, d)
  {
    if ds != [] {
      var n := |ds| - 1;
      var prev := ds[..n];
      EntriesFacts(data, prev);
      assert forall d :: d in prev ==> d in ds;
      var r := Entries(data, ds);
      forall e | e in r ensures exists d :: d in ds && HasRow(data, d) && e == EntryOf(data, d) {
        if e !in Entries(data, prev) {
          assert HasRow(data, ds[n]) && e == EntryOf(data, ds[n]);
        }
      }
    }
  }

  /** When every category has a row, there is one line per category, in order. */
  lemma {:induction false} EntriesAllPresent(data: seq<Row>, ds: seq<string>)
    requires forall d :: d in ds ==> HasRow(data, d)
    ensures |Entries(data, ds)| == |ds|
    ensures forall k :: 0 <= k < |ds| ==> Entries(data, ds)[k] == EntryOf(data, ds[k])
  {
    if ds != [] {
      var n := |ds| - 1;
      var prev := ds[..n];
      assert forall d :: d in prev ==> d in ds;
      EntriesAllPresent(data, prev);
      assert ds[n] in ds;
      var r, front, last := Entries(data, ds), Entries(data, prev), EntryOf(data, ds[n]);
      assert r == front + [last];
      forall k | 0 <= k < |ds| ensures r[k] == EntryOf(data, ds[k]) {
        if k < n {
          assert r[k] == front[k] && prev[k] == ds[k];
        } else {
          assert r[k] == last;
        }
      }
    }
  }

  function Sum2024(es: seq<Contribution>): int
  {
    if es == [] then 0 else Sum2024(es[..|es| - 1]) + es[|es| - 1].valor2024
  }

  function Sum2025(es: seq<Contribution>): int
  {
    if es == [] then 0 else Sum2025(es[..|es| - 1]) + es[|es| - 1].valor2025
  }

  function SumChanges(es: seq<Contribution>): int
  {
    if es == [] then 0 else SumChanges(es[..|es| - 1]) + es[|es| - 1].cambioAbsoluto
  }

  function SumWeights(es: seq<Contribution>): real
  {
    if es == [] then 0.0 else SumWeights(es[..|es| - 1]) + es[|es| - 1].peso
  }

  /** The totals line of the lines `es`. */
  function TotalsOf(es: seq<Contribution>): (t: Totals)
    ensures t.total2024 == Sum2024(es) && t.total2025 == Sum2025(es)
    ensures t.cambioAbsoluto == t.total2025 - t.total2024
    ensures t.cambioRelativo == PercentChange(t.total2025 as real, t.total2024 as real)
  {
    var t2024, t2025 := Sum2024(es), Sum2025(es);
    Totals(t2024, t2025, t2025 - t2024, PercentChange(t2025 as real, t2024 as real))
  }

  /** The weight of a line: its change as a percentage of the total change, or 0 when the
      total did not change. */
  function Weight(cambio: int, total: int): real
  {
    if total != 0 then cambio as real / total as real * 100.0 else 0.0
  }

  /** The lines with their weights set. */
  function Weighted(es: seq<Contribution>, total: int): (r: seq<Contribution>)
    ensures |r| == |es|
    ensures forall k :: 0 <= k < |es| ==> r[k] == es[k].(peso := Weight(es[k].cambioAbsoluto, total))
  {
    seq(|es|, k requires 0 <= k < |es| => es[k].(peso := Weight(es[k].cambioAbsoluto, total)))
  }

  /** The changes of consistent lines add up to the change of the totals. */
  lemma {:induction false} ChangesAddUp(es: seq<Contribution>)
    requires forall e :: e in es ==> Consistent(e)
    ensures SumChanges(es) == Sum2025(es) - Sum2024(es)
  {
    if es != [] {
      var n := |es| - 1;
      assert forall e :: e in es[..n] ==> e in es;
      ChangesAddUp(es[..n]);
      assert es[n] in es;
    }
  }

  lemma DivAdd(a: real, b: real, t: real)
    requires t != 0.0
    ensures a / t * 100.0 + b / t * 100.0 == (a + b) / t * 100.0
  {
    assert a / t + b / t == (a + b) / t;
  }

  /** The weights add up to the sum of the changes as a percentage of `total`. */
  lemma {:induction false} WeightsLinear(es: seq<Contribution>, total: int)
    requires total != 0
    ensures SumWeights(Weighted(es, total)) == SumChanges(es) as real / total as real * 100.0
  {
    if es != [] {
      var n := |es| - 1;
      var w := Weighted(es, total);
      WeightsLinear(es[..n], total);
      assert w[..n] == Weighted(es[..n], total);
      DivAdd(SumChanges(es[..n]) as real, es[n].cambioAbsoluto as real, total as real);
    }
  }

  lemma SelfPercent(t: real)
    requires t != 0.0
    ensures t / t * 100.0 == 100.0
  {
  }

  /** When the total changed, the weights of the lines add up to 100; when it did not, every
      weight is 0. */
  lemma WeightsSumTo100(es: seq<Contribution>)
    requires forall e :: e in es ==> Consistent(e)
    ensures var total := TotalsOf(es).cambioAbsoluto;
      && (total != 0 ==> SumWeights(Weighted(es, total)) == 100.0)
      && (total == 0 ==> forall e :: e in Weighted(es, total) ==> e.peso == 0.0)
  {
    var total := TotalsOf(es).cambioAbsoluto;
    ChangesAddUp(es);
    if total != 0 {
      WeightsLinear(es, total);
      SelfPercent(total as real);
    }
  }

  /** The loop of `generateAnalisisContribucion` over the categories `ds`. */
  method Analyse(data: seq<Row>, ds: seq<string>) returns (items: seq<Contribution>, totals: Totals)
    ensures totals == TotalsOf(Entries(data, ds))
    ensures items == Weighted(Entries(data, ds), totals.cambioAbsoluto)
  {
    var contribuciones: seq<Contribution> := [];
    var total2024, total2025 := 0, 0;
    var i := 0;
    while i < |ds|
      invariant 0 <= i <= |ds|
      invariant contribuciones == Entries(data, ds[..i])
      invariant total2024 == Sum2024(contribuciones) && total2025 == Sum2025(contribuciones)
    {
      assert ds[..i + 1][..i] == ds[..i];
      var k := FirstWith(data, "Delito", Some(ds[i]));
      if k < |data| {
        var row := data[k];
        var valor2024 := IntField(row, "2024");
        var valor2025 := IntField(row, "2025");
        total2024 := total2024 + valor2024;
        total2025 := total2025 + valor2025;
        contribuciones := contribuciones + [Contribution(
          DisplayName(ds[i]), valor2024, valor2025, valor2025 - valor2024,
          PercentChange(valor2025 as real, valor2024 as real), 0.0)];
      }
      i := i + 1;
    }
    assert ds[..|ds|] == ds;
    var cambioTotal := total2025 - total2024;
    totals := Totals(total2024, total2025, cambioTotal, PercentChange(total2025 as real, total2024 as real));
    items := SetWeights(contribuciones, cambioTotal);
  }

  /** The second loop of `generateAnalisisContribucion`: each line's weight is set from its
      change and the total change. */
  method SetWeights(contribuciones: seq<Contribution>, cambioTotal: int) returns (items: seq<Contribution>)
    ensures items == Weighted(contribuciones, cambioTotal)
  {
    items := contribuciones;
    var j := 0;
    while j < |items|
      invariant 0 <= j <= |items| && |items| == |contribuciones|
      invariant forall k :: 0 <= k < j ==> items[k] == contribuciones[k].(peso := Weight(contribuciones[k].cambioAbsoluto, cambioTotal))
      invariant forall k :: j <= k < |items| ==> items[k] == contribuciones[k]
    {
      items := items[j := items[j].(peso := Weight(items[j].cambioAbsoluto, cambioTotal))];
      j := j + 1;
    }
  }

  /** `generateAnalisisContribucion`: the lines of the four categories that have a row, with
      their weights, and the totals line. */
  method GenerateAnalisisContribucion(data: seq<Row>) returns (items: seq<Contribution>, totals: Totals)
    ensures totals == TotalsOf(Entries(data, ContributionDelitos))
    ensures items == Weighted(Entries(data, ContributionDelitos), totals.cambioAbsoluto)
  {
    items, totals := Analyse(data, ContributionDelitos);
  }
}
