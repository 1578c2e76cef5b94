/** The regional analysis of Sinaloa (`SinaloaRegionalAnalysis`): the twenty
    municipalities grouped into four regions, each region's total and positive members for
    a month, the table of totals over the months, the monthly ranking of the regions, the
    circles of a regional snapshot and the darkening of a region's base colour. The rows
    are read like the heatmap's (`Heatmap.HeatFormat`) and the months are the heatmap's
    (`Heatmap.HeatPeriods`). */
module Regional {
  import opened Optional
  import opened JsStrings
  import opened JsNumbers
  import opened Collections
  import opened Csv
  import opened Scales
  import opened Periods
  import opened Heatmap

  datatype Region = Region(name: string, municipios: seq<string>)

  /** `regiones`, in the order its keys are listed. */
  const Regiones: seq<Region> := [
    Region("Norte", ["Ahome", "El Fuerte", "Choix"]),
    Region("Centro Norte", ["Angostura", "Guasave", "Mocorito", "Salvador Alvarado", "Sinaloa", "Juan José Ríos"]),
    Region("Centro", ["Badiraguato", "Eldorado", "Cosalá", "Culiacán", "Elota", "Navolato"]),
    Region("Sur", ["Concordia", "Rosario", "Escuinapa", "Mazatlán", "San Ignacio"])]

  const NoRegion := "Sin región"

  /** All members of the regions, region after region. */
  function Members(rs: seq<Region>): seq<string>
  {
    if rs == [] then [] else rs[0].municipios + Members(rs[1..])
  }

  function Names(rs: seq<Region>): (r: seq<string>)
    ensures |r| == |rs| && forall i :: 0 <= i < |rs| ==> r[i] == rs[i].name
  {
    seq(|rs|, i requires 0 <= i < |rs| => rs[i].name)
  }

  /** No municipality is in two regions, no two regions share a name and no region is
      called `'Sin región'`. */
  predicate Partition(rs: seq<Region>)
  {
    && (forall i, j, m :: 0 <= i < j < |rs| && m in rs[i].municipios ==> m !in rs[j].municipios)
    && NoDuplicates(Names(rs))
    && NoRegion !in Names(rs)
  }

  predicate Disjoint(a: seq<string>, b: seq<string>)
  {
    forall m :: m in a ==> m !in b
  }

  /** Regions `i` and `j` share no municipality. */
  lemma RegionPairDisjoint(i: nat, j: nat)
    requires i < j < |Regiones|
    ensures Disjoint(Regiones[i].municipios, Regiones[j].municipios)
  {
    var a, b := Regiones[i].municipios, Regiones[j].municipios;
    forall m | m in a ensures m !in b {
      var k :| 0 <= k < |a| && a[k] == m;
      forall l | 0 <= l < |b| ensures b[l] != m {
        assert |b[l]| != |m| || b[l][0] != m[0] || b[l][1] != m[1] || b[l][2] != m[2];
      }
    }
  }

  /** The four regions form a partition. */
  lemma RegionesPartition()
    ensures Partition(Regiones)
  {
    forall i, j, m | 0 <= i < j < |Regiones| && m in Regiones[i].municipios
      ensures m !in Regiones[j].municipios
    {
      RegionPairDisjoint(i, j);
    }
    assert Names(Regiones) == ["Norte", "Centro Norte", "Centro", "Sur"];
  }

  /** A municipality is a member exactly when some region lists it. */
  lemma {:induction false} InMembers(rs: seq<Region>, m: string)
    ensures m in Members(rs) <==> exists i :: 0 <= i < |rs| && m in rs[i].municipios
  {
    if rs != [] {
      InMembers(rs[1..], m);
      if m in Members(rs[1..]) {
        var i :| 0 <= i < |rs[1..]| && m in rs[1..][i].municipios;
        assert m in rs[i + 1].municipios;
      }
      forall i | 0 <= i < |rs| && m in rs[i].municipios ensures m in Members(rs) {
        if i > 0 {
          assert rs[1..][i - 1] == rs[i];
        }
      }
    }
  }

  /** Disjoint regions without repeats list each member once. */
  lemma {:induction false} MembersDistinct(rs: seq<Region>)
    requires forall i, j, m :: 0 <= i < j < |rs| && m in rs[i].municipios ==> m !in rs[j].municipios
    requires forall i :: 0 <= i < |rs| ==> NoDuplicates(rs[i].municipios)
    ensures NoDuplicates(Members(rs))
  {
    if rs != [] {
      var tail := rs[1..];
      assert forall i :: 0 <= i < |tail| ==> tail[i] == rs[i + 1];
      MembersDistinct(tail);
      forall m | m in rs[0].municipios ensures m !in Members(tail) {
        InMembers(tail, m);
      }
      ConcatDistinct(rs[0].municipios, Members(tail));
    }
  }

  /** The regions list twenty different municipalities. */
  lemma RegionesMembers()
    ensures |Members(Regiones)| == 20 && NoDuplicates(Members(Regiones))
  {
    RegionesPartition();
    assert Regiones[1..][1..][1..][1..] == [];
    assert |Members(Regiones[1..][1..][1..])| == 5;
    assert |Members(Regiones[1..][1..])| == 11;
    assert |Members(Regiones[1..])| == 17;
    assert forall i :: 0 <= i < |Regiones| ==> NoDuplicates(Regiones[i].municipios);
    MembersDistinct(Regiones);
  }

  /** The index of the first region that lists `m`, or `|rs|`. */
  function FindRegion(rs: seq<Region>, m: string): (k: nat)
    ensures k <= |rs|
    ensures k < |rs| ==> m in rs[k].municipios
    ensures forall j :: 0 <= j < k ==> m !in rs[j].municipios
  {
    if rs == [] then 0
    else if m in rs[0].municipios then 0
    else 1 + FindRegion(rs[1..], m)
  }

  /** On a partition, the region named `rs[i].name` is found exactly for the members of
      `rs[i]`. */
  lemma FindRegionNamed(rs: seq<Region>, m: string, i: nat)
    requires Partition(rs) && i < |rs|
    ensures var k := FindRegion(rs, m);
      (k < |rs| && rs[k].name == rs[i].name) <==> m in rs[i].municipios
  {
    var k := FindRegion(rs, m);
    assert Names(rs)[i] == rs[i].name;
    if k < |rs| {
      assert Names(rs)[k] == rs[k].name;
    }
  }

  // ---------------------------------------------------------------------------------
  // Regional data of a month (`calculateRegionalData`)

  /** The value of a member: that of the first row of the month for it, `parseFloat(...) || 0`,
      and 0 without a row. */
  function MemberValue(periodData: seq<Row>, crimeType: string, m: string): real
  {
    var k := FirstWith(periodData, "Municipio", Some(m));
    if k < |periodData| then RealField(periodData[k], crimeType) else 0.0
  }

  /** A member's value is that of the first row of the month that names it. */
  lemma MemberValueFirst(periodData: seq<Row>, crimeType: string, m: string, k: nat)
    requires k < |periodData| && Field(periodData[k], "Municipio") == Some(m)
    requires forall j :: 0 <= j < k ==> Field(periodData[j], "Municipio") != Some(m)
    ensures MemberValue(periodData, crimeType, m) == RealField(periodData[k], crimeType)
  {
    FirstWithAt(periodData, "Municipio", Some(m), k);
  }

  /** A member no row of the month names counts as 0. */
  lemma MemberValueMissing(periodData: seq<Row>, crimeType: string, m: string)
    requires forall j :: 0 <= j < |periodData| ==> Field(periodData[j], "Municipio") != Some(m)
    ensures MemberValue(periodData, crimeType, m) == 0.0
  {
  }

  /** Each member's value in a month, as a function of the member's name. */
  function Valuation(periodData: seq<Row>, crimeType: string): string -> real
  {
    m => MemberValue(periodData, crimeType, m)
  }

  lemma EntriesPrefix(members: seq<string>, value: string -> real, i: nat)
    requires i < |members|
    ensures KeyedBy(members[..i + 1], value) == KeyedBy(members[..i], value) + [Keyed(members[i], value(members[i]))]
  {
    assert members[..i + 1][..i] == members[..i];
  }

  /** The entries are the members, each with its value. */
  lemma EntriesOfMembers(members: seq<string>, value: string -> real)
    ensures var es := KeyedBy(members, value);
      && (forall e :: e in es ==> e.item in members && e.key == value(e.item))
      && (forall m :: m in members ==> Keyed(m, value(m)) in es)
  {
    var es := KeyedBy(members, value);
    forall e | e in es ensures e.item in members && e.key == value(e.item) {
      var k :| 0 <= k < |es| && es[k] == e;
    }
    forall m | m in members ensures Keyed(m, value(m)) in es {
      var k :| 0 <= k < |members| && members[k] == m;
      assert es[k] in es;
    }
  }

  function SumKeys<T>(es: seq<Keyed<T>>): real
  {
    if es == [] then 0.0 else SumKeys(es[..|es| - 1]) + es[|es| - 1].key
  }

  lemma SumKeysSnoc<T>(s: seq<Keyed<T>>, x: Keyed<T>)
    ensures SumKeys(s + [x]) == SumKeys(s) + x.key
  {
    assert (s + [x])[..|s|] == s;
  }

  /** A region's entry: its total and its members with a positive value. */
  datatype RegionData = RegionData(total: real, municipios: seq<Keyed<string>>)

  /** The sum of the members' values. */
  function RegionTotalOf(periodData: seq<Row>, crimeType: string, members: seq<string>): real
  {
    SumKeys(KeyedBy(members, Valuation(periodData, crimeType)))
  }

  /** The positive members of a region, in member order, before sorting. */
  function PositiveMembers(periodData: seq<Row>, crimeType: string, members: seq<string>): seq<Keyed<string>>
  {
    Above(KeyedBy(members, Valuation(periodData, crimeType)), 0.0)
  }

  /** What `calculateRegionalData` files for a region with the given members. */
  function RegionDataOf(periodData: seq<Row>, crimeType: string, members: seq<string>): RegionData
  {
    RegionData(RegionTotalOf(periodData, crimeType, members), SortDesc(PositiveMembers(periodData, crimeType, members)))
  }

  /** The positive entries, sorted: exactly the members with a positive value, each with
      its value, largest first. */
  lemma PositiveEntries(members: seq<string>, value: string -> real)
    ensures var r := SortDesc(Above(KeyedBy(members, value), 0.0));
      && SortedDesc(r)
      && |r| <= |members|
      && (forall e :: e in r ==> e.item in members && e.key == value(e.item) && e.key > 0.0)
      && (forall m :: m in members && value(m) > 0.0 ==> Keyed(m, value(m)) in r)
  {
    var es := KeyedBy(members, value);
    var a := Above(es, 0.0);
    var r := SortDesc(a);
    forall e | e in r ensures e.item in members && e.key == value(e.item) && e.key > 0.0 {
      assert e in multiset(r);
      assert e in a;
      var k :| 0 <= k < |es| && es[k] == e;
    }
    forall m | m in members && value(m) > 0.0 ensures Keyed(m, value(m)) in r {
      var k :| 0 <= k < |members| && members[k] == m;
      assert es[k] == Keyed(m, value(m));
      assert es[k] in a;
      assert es[k] in multiset(r);
    }
  }

  /** The members listed are exactly those with a positive value, each with its value, in
      descending order of value. */
  lemma RegionMunicipios(periodData: seq<Row>, crimeType: string, members: seq<string>)
    ensures var d := RegionDataOf(periodData, crimeType, members);
      && SortedDesc(d.municipios)
      && |d.municipios| <= |members|
      && (forall e :: e in d.municipios ==> e.item in members && e.key == MemberValue(periodData, crimeType, e.item) && e.key > 0.0)
      && (forall m :: m in members && MemberValue(periodData, crimeType, m) > 0.0 ==>
            Keyed(m, MemberValue(periodData, crimeType, m)) in d.municipios)
  {
    var value := Valuation(periodData, crimeType);
    PositiveEntries(members, value);
    assert forall m :: value(m) == MemberValue(periodData, crimeType, m);
  }

  /** The total adds the members' values one by one: 0 for no member, and one more member
      adds its value. */
  lemma RegionTotal(periodData: seq<Row>, crimeType: string, members: seq<string>, i: nat)
    requires i < |members|
    ensures RegionTotalOf(periodData, crimeType, []) == 0.0
    ensures RegionTotalOf(periodData, crimeType, members[..i + 1])
      == RegionTotalOf(periodData, crimeType, members[..i]) + MemberValue(periodData, crimeType, members[i])
  {
    var value := Valuation(periodData, crimeType);
    EntriesPrefix(members, value, i);
    SumKeysSnoc(KeyedBy(members[..i], value), Keyed(members[i], value(members[i])));
  }

  /** One more member joins the positive members when its value is positive. */
  lemma PositiveStep(periodData: seq<Row>, crimeType: string, members: seq<string>, i: nat)
    requires i < |members|
    ensures var v := MemberValue(periodData, crimeType, members[i]);
      PositiveMembers(periodData, crimeType, members[..i + 1])
        == PositiveMembers(periodData, crimeType, members[..i]) + if v > 0.0 then [Keyed(members[i], v)] else []
  {
    var value := Valuation(periodData, crimeType);
    EntriesPrefix(members, value, i);
    AboveSnoc(KeyedBy(members[..i], value), Keyed(members[i], value(members[i])), 0.0);
  }

  /** One region of `calculateRegionalData`: `totalRegional` adds every member's value and
      `municipiosData` collects the positive ones, sorted at the end. */
  method CalculateRegion(periodData: seq<Row>, crimeType: string, members: seq<string>) returns (d: RegionData)
    ensures d == RegionDataOf(periodData, crimeType, members)
  {
    var totalRegional := 0.0;
    var municipiosData: seq<Keyed<string>> := [];
    var i := 0;
    assert members[..0] == [];
    while i < |members|
      invariant 0 <= i <= |members|
      invariant totalRegional == RegionTotalOf(periodData, crimeType, members[..i])
      invariant municipiosData == PositiveMembers(periodData, crimeType, members[..i])
    {
      var value := MemberValue(periodData, crimeType, members[i]);
      RegionTotal(periodData, crimeType, members, i);
      PositiveStep(periodData, crimeType, members, i);
      totalRegional := totalRegional + value;
      if value > 0.0 {
        municipiosData := municipiosData + [Keyed(members[i], value)];
      }
      i := i + 1;
    }
    assert members[..i] == members;
    d := RegionData(totalRegional, SortDesc(municipiosData));
  }

  /** A region's total for one month. */
  function MonthTotal(data: seq<Row>, period: string, crimeType: string, members: seq<string>): real
  {
    RegionTotalOf(Where(data, "Periodo", Some(period), true), crimeType, members)
  }

  /** The `Total` column of the table: a region's monthly totals added over the months. */
  function PeriodsTotal(data: seq<Row>, periods: seq<string>, crimeType: string, members: seq<string>): real
  {
    if periods == [] then 0.0
    else
      var n := |periods| - 1;
      PeriodsTotal(data, periods[..n], crimeType, members) + MonthTotal(data, periods[n], crimeType, members)
  }

  lemma PeriodsTotalStep(data: seq<Row>, periods: seq<string>, p: nat, crimeType: string, members: seq<string>)
    requires p < |periods|
    ensures PeriodsTotal(data, periods[..p + 1], crimeType, members)
      == PeriodsTotal(data, periods[..p], crimeType, members) + MonthTotal(data, periods[p], crimeType, members)
  {
    assert periods[..p + 1][..p] == periods[..p];
  }

  /** The total over two runs of months is the sum of their totals. */
  lemma {:induction false} PeriodsTotalAppend(data: seq<Row>, p: seq<string>, q: seq<string>, crimeType: string, members: seq<string>)
    ensures PeriodsTotal(data, p + q, crimeType, members)
      == PeriodsTotal(data, p, crimeType, members) + PeriodsTotal(data, q, crimeType, members)
  {
    if q == [] {
      assert p + q == p;
    } else {
      var n := |q| - 1;
      assert (p + q)[..|p + q| - 1] == p + q[..n];
      PeriodsTotalAppend(data, p, q[..n], crimeType, members);
    }
  }

  /** The regions with their totals for a month, in the order of the regions. */
  function RegionTotals(rs: seq<Region>, periodData: seq<Row>, crimeType: string): (r: seq<Keyed<string>>)
    ensures |r| == |rs|
    ensures forall i :: 0 <= i < |rs| ==>
      r[i] == Keyed(rs[i].name, RegionTotalOf(periodData, crimeType, rs[i].municipios))
  {
    seq(|rs|, i requires 0 <= i < |rs| => Keyed(rs[i].name, RegionTotalOf(periodData, crimeType, rs[i].municipios)))
  }

  /** `regionesOrdenadas`: the regions sorted by descending total. */
  function RegionalRanking(rs: seq<Region>, periodData: seq<Row>, crimeType: string): seq<Keyed<string>>
  {
    SortDesc(RegionTotals(rs, periodData, crimeType))
  }

  /** In a sequence without repeats every element occurs once. */
  lemma {:induction false} CountUnique<T>(t: seq<T>, i: nat)
    requires i < |t| && NoDuplicates(t)
    ensures multiset(t)[t[i]] == 1
  {
    var n := |t| - 1;
    var init := t[..n];
    assert t == init + [t[n]];
    assert forall k :: 0 <= k < n ==> init[k] == t[k];
    if i == n {
      assert t[n] !in init;
    } else {
      CountUnique(init, i);
      assert t[n] != t[i];
    }
  }

  /** Entries with different items are different entries. */
  lemma ItemsDistinct<T>(t: seq<Keyed<T>>)
    requires NoDuplicates(Items(t))
    ensures NoDuplicates(t)
  {
    var it := Items(t);
    forall a, b | 0 <= a < b < |t| ensures t[a] != t[b] {
      assert it[a] != it[b];
    }
  }

  /** An element that occurs once is at no second position. */
  lemma OnceAt<T>(r: seq<T>, a: nat, b: nat)
    requires a < b < |r| && multiset(r)[r[a]] == 1
    ensures r[b] != r[a]
  {
    var front := r[..b];
    assert r == front + [r[b]] + r[b + 1..];
    assert front[a] == r[a];
    assert multiset(front)[r[a]] >= 1;
    assert multiset(r)[r[a]] >= multiset(front)[r[a]] + multiset([r[b]])[r[a]];
  }

  /** In a reordering of entries with different items, two positions hold different items. */
  lemma ReorderedItemsDiffer<T>(t: seq<Keyed<T>>, r: seq<Keyed<T>>, a: nat, b: nat)
    requires multiset(r) == multiset(t) && NoDuplicates(Items(t))
    requires a < b < |r|
    ensures r[a].item != r[b].item
  {
    assert r[a] in multiset(t) && r[b] in multiset(t);
    var i :| 0 <= i < |t| && t[i] == r[a];
    var j :| 0 <= j < |t| && t[j] == r[b];
    ItemsDistinct(t);
    CountUnique(t, i);
    OnceAt(r, a, b);
    assert i != j;
    if i < j {
      assert Items(t)[i] != Items(t)[j];
    } else {
      assert Items(t)[j] != Items(t)[i];
    }
  }

  /** The ranking lists every region once, with its total, largest total first. */
  lemma RegionalRankingFacts(rs: seq<Region>, periodData: seq<Row>, crimeType: string)
    requires NoDuplicates(Names(rs))
    ensures var r := RegionalRanking(rs, periodData, crimeType);
      && |r| == |rs| && SortedDesc(r)
      && (forall i :: 0 <= i < |rs| ==> Keyed(rs[i].name, RegionTotalOf(periodData, crimeType, rs[i].municipios)) in r)
      && (forall e :: e in r ==> e.item in Names(rs))
      && NoDuplicates(Items(r))
  {
    var t := RegionTotals(rs, periodData, crimeType);
    assert Items(t) == Names(rs);
    SortedEntries(t);
  }

  /** Sorting entries with different items keeps every entry, brings in no other, and
      keeps the items different. */
  lemma SortedEntries<T>(t: seq<Keyed<T>>)
    requires NoDuplicates(Items(t))
    ensures var r := SortDesc(t);
      && |r| == |t| && SortedDesc(r)
      && (forall i :: 0 <= i < |t| ==> t[i] in r)
      && (forall e :: e in r ==> e.item in Items(t))
      && NoDuplicates(Items(r))
  {
    var r := SortDesc(t);
    forall i | 0 <= i < |t| ensures t[i] in r {
      assert t[i] in multiset(t);
    }
    forall e | e in r ensures e.item in Items(t) {
      assert e in multiset(r);
      var i :| 0 <= i < |t| && t[i] == e;
      assert Items(t)[i] == e.item;
    }
    forall a, b | 0 <= a < b < |r| ensures Items(r)[a] != Items(r)[b] {
      ReorderedItemsDiffer(t, r, a, b);
    }
  }

  // ---------------------------------------------------------------------------------
  // Circles and colours

  const RegionalCircles := CircleRule(3.0, 12.0, 4.0, 7.0)

  /** `createRegionalCircles`: 4.0 when the maximum is at most 1, 7.0 when maximum and minimum
      coincide, and otherwise 3.0 + ratio * 9.0 for the value's place between them. */
  lemma RegionalCircleSizes(v: real, gmin: real, gmax: real)
    ensures gmax <= 1.0 ==> CircleSize(RegionalCircles, v, gmin, gmax) == 4.0
    ensures gmax > 1.0 && gmax == gmin ==> CircleSize(RegionalCircles, v, gmin, gmax) == 7.0
    ensures gmax > 1.0 && gmin < gmax && gmin <= v <= gmax ==>
      CircleSize(RegionalCircles, v, gmin, gmax) == 3.0 + (v - gmin) / (gmax - gmin) * 9.0
  {
    CircleSizeCases(RegionalCircles, v, gmin, gmax);
  }

  /** `regionColors[region] || '#e74c3c'`. */
  function CircleColor(region: string): string
  {
    match region
    case "Norte" => "#c0392b"
    case "Centro Norte" => "#2980b9"
    case "Centro" => "#27ae60"
    case "Sur" => "#d68910"
    case _ => "#e74c3c"
  }

  /** The three channels `parseInt(..., 16)` reads, each `NaN` (`None`) when it has no hex
      digit, then scaled and rounded; the `rgb(...)` text built from them is not modelled. */
  datatype Rgb = Rgb(r: Option<int>, g: Option<int>, b: Option<int>)

  function Channel(c: Option<int>, factor: real): Option<int>
  {
    if c.Some? then Some(Round(c.value as real * factor)) else None
  }

  function HexChannel(hex: string, k: nat): Option<int>
  {
    ParseIntRadix(Substr(hex, 2 * k, 2), 16)
  }

  /** `adjustColorIntensity`: drop the first `#`, read the three two-digit channels and
      scale each by `0.3 + 0.7 * intensity`. */
  function AdjustColorIntensity(baseColor: string, intensity: real): Rgb
  {
    var hex := RemoveFirst(baseColor, '#');
    var factor := 0.3 + intensity * 0.7;
    Rgb(Channel(HexChannel(hex, 0), factor), Channel(HexChannel(hex, 1), factor), Channel(HexChannel(hex, 2), factor))
  }

  predicate HexDigit(c: char)
  {
    DigitValue(c) < 16
  }

  /** A colour `#rrggbb` written with hex digits. */
  predicate HexColor(s: string)
  {
    |s| == 7 && s[0] == '#' && forall k :: 1 <= k < 7 ==> HexDigit(s[k])
  }

  /** Two hex digits read in radix 16. */
  lemma HexPair(s: string)
    requires |s| == 2 && HexDigit(s[0]) && HexDigit(s[1])
    ensures ParseIntRadix(s, 16) == Some(DigitValue(s[0]) * 16 + DigitValue(s[1]))
  {
    assert !IsSpace(s[0]);
    assert TrimStart(s) == s;
    assert SignAndBody(s) == (false, s);
    assert s[1] != 'x' && s[1] != 'X';
    assert s[1..][1..] == [];
    assert DigitRun(s[1..], 16) == 1;
    assert DigitRun(s, 16) == 2;
    assert s[..2] == s && s[..1][..0] == [];
    assert ValueOf(s[..1], 16) == DigitValue(s[0]);
    assert ValueOf(s, 16) == ValueOf(s[..1], 16) * 16 + DigitValue(s[1]);
    assert !(|s| >= 2 && s[0] == '0' && (s[1] == 'x' || s[1] == 'X'));
  }

  /** Rounding keeps a value between `lo` and a whole number `c` between `round(lo)` and `c`. */
  lemma RoundBetween(lo: real, y: real, c: int)
    requires lo <= y <= c as real
    ensures Round(lo) <= Round(y) <= c
  {
  }

  /** `0.3 * x <= x * factor <= x` for a factor in `[0.3, 1]`. */
  lemma FactorBounds(x: real, f: real)
    requires x >= 0.0 && 0.3 <= f <= 1.0
    ensures 0.3 * x <= x * f <= x
  {
    assert x * f - 0.3 * x == x * (f - 0.3);
    assert x - x * f == x * (1.0 - f);
  }

  /** A channel of a non-negative value scaled by a factor in `[0.3, 1]` stays between
      `round(0.3 * c)` and `c`. */
  lemma ChannelBounds(c: int, f: real)
    requires c >= 0 && 0.3 <= f <= 1.0
    ensures Round(0.3 * c as real) <= Channel(Some(c), f).value <= c
  {
    var y := c as real * f;
    assert Channel(Some(c), f) == Some(Round(y));
    FactorBounds(c as real, f);
    RoundBetween(0.3 * c as real, y, c);
  }

  /** The channel value written at positions `2k + 1` and `2k + 2` of a colour. */
  function BaseChannel(s: string, k: nat): int
    requires HexColor(s) && k < 3
  {
    DigitValue(s[2 * k + 1]) * 16 + DigitValue(s[2 * k + 2])
  }

  lemma RemoveLeadingHash(s: string)
    requires |s| > 0 && s[0] == '#'
    ensures RemoveFirst(s, '#') == s[1..]
  {
    assert IndexOfChar(s, '#') == 0;
  }

  /** Channel `k` reads the hex digits at positions `2k` and `2k + 1` of the text. */
  lemma HexChannelPair(hex: string, k: nat)
    requires 2 * k + 2 <= |hex| && HexDigit(hex[2 * k]) && HexDigit(hex[2 * k + 1])
    ensures HexChannel(hex, k) == Some(DigitValue(hex[2 * k]) * 16 + DigitValue(hex[2 * k + 1]))
  {
    var p := Substr(hex, 2 * k, 2);
    assert p[0] == hex[2 * k] && p[1] == hex[2 * k + 1];
    HexPair(p);
  }

  /** Dropping the `#` of a colour leaves its six hex digits; channel `k` is the pair at
      positions `2k` and `2k + 1`. */
  lemma HexOfColor(s: string)
    requires HexColor(s)
    ensures var hex := RemoveFirst(s, '#');
      && |hex| == 6
      && forall k :: 0 <= k < 3 ==>
        && HexDigit(hex[2 * k]) && HexDigit(hex[2 * k + 1])
        && DigitValue(hex[2 * k]) * 16 + DigitValue(hex[2 * k + 1]) == BaseChannel(s, k)
        && 0 <= BaseChannel(s, k) <= 255
  {
    RemoveLeadingHash(s);
    var hex := s[1..];
    forall k | 0 <= k < 3 ensures hex[2 * k] == s[2 * k + 1] && hex[2 * k + 1] == s[2 * k + 2] {
    }
  }

  /** The scaled channel `k` of a colour lies between `round(0.3 * c)` and `c`. */
  lemma AdjustedChannel(baseColor: string, k: nat, f: real)
    requires HexColor(baseColor) && k < 3 && 0.3 <= f <= 1.0
    ensures var v := Channel(HexChannel(RemoveFirst(baseColor, '#'), k), f);
      v.Some? && Round(0.3 * BaseChannel(baseColor, k) as real) <= v.value <= BaseChannel(baseColor, k)
  {
    HexOfColor(baseColor);
    HexChannelPair(RemoveFirst(baseColor, '#'), k);
    ChannelBounds(BaseChannel(baseColor, k), f);
  }

  /** For a `#rrggbb` colour and an intensity in `[0, 1]` every channel is read, and each
      scaled channel lies between `round(0.3 * c)` and the original `c`. */
  lemma AdjustColorBounds(baseColor: string, intensity: real)
    requires HexColor(baseColor) && 0.0 <= intensity <= 1.0
    ensures var rgb := AdjustColorIntensity(baseColor, intensity);
      && rgb.r.Some? && rgb.g.Some? && rgb.b.Some?
      && Round(0.3 * BaseChannel(baseColor, 0) as real) <= rgb.r.value <= BaseChannel(baseColor, 0)
      && Round(0.3 * BaseChannel(baseColor, 1) as real) <= rgb.g.value <= BaseChannel(baseColor, 1)
      && Round(0.3 * BaseChannel(baseColor, 2) as real) <= rgb.b.value <= BaseChannel(baseColor, 2)
  {
    var f := 0.3 + intensity * 0.7;
    AdjustedChannel(baseColor, 0, f);
    AdjustedChannel(baseColor, 1, f);
    AdjustedChannel(baseColor, 2, f);
  }

  /** `parseCSV` reads like the heatmap's reader: one row per non-blank line after the
      header, keyed by the trimmed headers, with trimmed values. */
  lemma ParseCsvFacts(text: string)
    ensures |Parse(HeatFormat, text)| == NonBlank(Lines(HeatFormat, text)[1..])
    ensures forall r :: r in Parse(HeatFormat, text) ==> r.Keys == set h | h in Headers(HeatFormat, text)
    ensures forall r, h :: r in Parse(HeatFormat, text) && h in r ==> Trimmed(r[h])
  {
    Heatmap.ParseCsvFacts(text);
  }

  // ---------------------------------------------------------------------------------
  // The analysis object

  class SinaloaRegionalAnalysis {
    var municipalData: seq<Row>
    const regiones: seq<Region>
    const periods: seq<string>

    /** The regions form a partition and none is named like the `'all'` focus. */
    predicate Valid()
    {
      Partition(regiones) && "all" !in Names(regiones)
    }

    constructor()
      ensures municipalData == [] && regiones == Regiones && periods == HeatPeriods
      ensures Valid() && |periods| == 19 && NoDuplicates(periods)
    {
      municipalData := [];
      regiones := Regiones;
      periods := HeatPeriods;
      RegionesPartition();
      HeatPeriodsFacts();
    }

    /** `loadMunicipalData`, with the fetched text given. */
    method LoadMunicipalData(text: string)
      modifies this
      ensures municipalData == Parse(HeatFormat, text)
    {
      municipalData := Parse(HeatFormat, text);
    }

    /** `getMunicipioRegion`: the first region that lists the municipality, or
        `'Sin región'`. */
    function GetMunicipioRegion(m: string): (r: string)
      ensures var k := FindRegion(regiones, m);
        && (k < |regiones| ==> r == regiones[k].name)
        && (k == |regiones| <==> forall i :: 0 <= i < |regiones| ==> m !in regiones[i].municipios)
        && (k == |regiones| ==> r == NoRegion)
    {
      var k := FindRegion(regiones, m);
      if k < |regiones| then regiones[k].name else NoRegion
    }

    /** On a partition the region found is the one that lists the municipality, and
        `'Sin región'` is given exactly to the names no region lists. */
    lemma GetMunicipioRegionFacts(m: string)
      requires Partition(regiones)
      ensures forall i :: 0 <= i < |regiones| ==> (GetMunicipioRegion(m) == regiones[i].name <==> m in regiones[i].municipios)
      ensures GetMunicipioRegion(m) == NoRegion <==> forall i :: 0 <= i < |regiones| ==> m !in regiones[i].municipios
    {
      forall i | 0 <= i < |regiones|
        ensures GetMunicipioRegion(m) == regiones[i].name <==> m in regiones[i].municipios
      {
        FindRegionNamed(regiones, m, i);
        assert Names(regiones)[i] == regiones[i].name;
      }
      var k := FindRegion(regiones, m);
      if k < |regiones| {
        assert Names(regiones)[k] == regiones[k].name;
      }
    }

    /** `calculateRegionalData`: one entry per region, in the order of `regiones`. */
    method CalculateRegionalData(periodData: seq<Row>, crimeType: string) returns (rd: seq<(string, RegionData)>)
      ensures |rd| == |regiones|
      ensures forall i :: 0 <= i < |regiones| ==>
        rd[i] == (regiones[i].name, RegionDataOf(periodData, crimeType, regiones[i].municipios))
    {
      rd := [];
      var i := 0;
      while i < |regiones|
        invariant 0 <= i <= |regiones| && |rd| == i
        invariant forall j :: 0 <= j < i ==> rd[j] == (regiones[j].name, RegionDataOf(periodData, crimeType, regiones[j].municipios))
      {
        var d := CalculateRegion(periodData, crimeType, regiones[i].municipios);
        rd := rd + [(regiones[i].name, d)];
        i := i + 1;
      }
    }

    /** The rows of `generateRegionalTable`: for each region the loop over the months adds
        the region's total of each month, as that month's regional data gives it. */
    method GenerateRegionalTable(crimeType: string) returns (totals: seq<(string, real)>)
      ensures |totals| == |regiones|
      ensures forall i :: 0 <= i < |regiones| ==>
        totals[i] == (regiones[i].name, PeriodsTotal(municipalData, periods, crimeType, regiones[i].municipios))
    {
      totals := [];
      var i := 0;
      while i < |regiones|
        invariant 0 <= i <= |regiones| && |totals| == i
        invariant forall j :: 0 <= j < i ==> totals[j] == (regiones[j].name, PeriodsTotal(municipalData, periods, crimeType, regiones[j].municipios))
      {
        var totalRegion := 0.0;
        var p := 0;
        while p < |periods|
          invariant 0 <= p <= |periods|
          invariant totalRegion == PeriodsTotal(municipalData, periods[..p], crimeType, regiones[i].municipios)
        {
          PeriodsTotalStep(municipalData, periods, p, crimeType, regiones[i].municipios);
          var periodData := Where(municipalData, "Periodo", Some(periods[p]), true);
          var regionalData := CalculateRegionalData(periodData, crimeType);
          assert regionalData[i].1.total == MonthTotal(municipalData, periods[p], crimeType, regiones[i].municipios);
          totalRegion := totalRegion + regionalData[i].1.total;
          p := p + 1;
        }
        assert periods[..p] == periods;
        totals := totals + [(regiones[i].name, totalRegion)];
        i := i + 1;
      }
    }

    /** The ranking of one month in `generateRegionalRankingSnapshots`: the regional data's
        totals, sorted by descending total. */
    method RankRegions(period: string, crimeType: string) returns (ranking: seq<Keyed<string>>)
      ensures ranking == RegionalRanking(regiones, Where(municipalData, "Periodo", Some(period), true), crimeType)
    {
      var periodData := Where(municipalData, "Periodo", Some(period), true);
      var regionalData := CalculateRegionalData(periodData, crimeType);
      var totals := seq(|regionalData|, i requires 0 <= i < |regionalData| => Keyed(regionalData[i].0, regionalData[i].1.total));
      assert totals == RegionTotals(regiones, periodData, crimeType);
      ranking := SortDesc(totals);
    }

    /** The circle `createRegionalCircles` draws for a row: the heatmap's rule with sizes
        3 to 12 against the values of the whole data set, drawn only inside the focused
        region unless the focus is `'all'`, and coloured after its region. */
    function RegionalCircle(row: Row, global: seq<real>, crimeType: string, coords: set<string>, focus: string): (c: Option<(string, real, string)>)
      requires RealField(row, crimeType) in global
      ensures var base := RowCircle(RegionalCircles, row, global, crimeType, coords);
        && (c.Some? <==> base.Some? && (focus == "all" || GetMunicipioRegion(row["Municipio"]) == focus))
        && (c.Some? ==> c.value == (base.value.0, base.value.1, CircleColor(GetMunicipioRegion(row["Municipio"]))))
    {
      var base := RowCircle(RegionalCircles, row, global, crimeType, coords);
      if base.None? then None
      else
        var region := GetMunicipioRegion(row["Municipio"]);
        if focus != "all" && region != focus then None
        else Some((base.value.0, base.value.1, CircleColor(region)))
    }

    /** A drawn circle is 3 to 12 in size; with a region in focus it belongs to a member of
        that region. */
    lemma RegionalCircleFacts(row: Row, global: seq<real>, crimeType: string, coords: set<string>, focus: string)
      requires Valid() && RealField(row, crimeType) in global
      ensures var c := RegionalCircle(row, global, crimeType, coords, focus);
        && (c.Some? ==> 3.0 <= c.value.1 <= 12.0)
        && (forall i :: 0 <= i < |regiones| && focus == regiones[i].name && c.Some? ==> row["Municipio"] in regiones[i].municipios)
    {
      RowCircleBounds(RegionalCircles, row, global, crimeType, coords);
      var c := RegionalCircle(row, global, crimeType, coords, focus);
      if c.Some? {
        GetMunicipioRegionFacts(row["Municipio"]);
        forall i | 0 <= i < |regiones| && focus == regiones[i].name
          ensures row["Municipio"] in regiones[i].municipios
        {
          assert Names(regiones)[i] == focus;
        }
      }
    }
  }
}
