/** The national report's reader, its per-period ranking tables and the step that makes
    sure the critical states are among the selected states (scripts/main.js). */
module Report {
  import opened Optional
  import opened JsStrings
  import opened Collections
  import opened Csv

  // ---------------------------------------------------------------------------------
  // Reading (`parseCSV`)

  /** The report's reader: cut on newlines, headers and cells trimmed, comma split, blank
      lines kept. */
  const MainFormat := Format(Newline, TrimOnly, TrimOnly, CommaSplit, false)

  function ParseCsv(text: string): (rs: seq<Row>)
    ensures |rs| == |Lines(MainFormat, text)| - 1
    ensures forall r :: r in rs ==> r.Keys == set h | h in Headers(MainFormat, text)
  {
    Parse(MainFormat, text)
  }

  /** One row per newline of the trimmed text, that is, one per line after the header. */
  lemma ParseCsvCount(text: string)
    ensures |ParseCsv(text)| == Count(Trim(text), '\n')
  {
    var lines := Lines(MainFormat, text);
    SplitCharFacts(Trim(text), '\n');
    RowCount(MainFormat, Headers(MainFormat, text), lines[1..]);
  }

  /** Row `k` is built from line `k + 1`. */
  lemma ParseCsvLines(text: string)
    ensures |ParseCsv(text)| == |Lines(MainFormat, text)| - 1
    ensures forall k :: 0 <= k < |ParseCsv(text)| ==>
      ParseCsv(text)[k] == RowOf(MainFormat, Headers(MainFormat, text), Lines(MainFormat, text)[k + 1])
  {
    var lines := Lines(MainFormat, text);
    var body := lines[1..];
    var headers := Headers(MainFormat, text);
    RowCount(MainFormat, headers, body);
    forall k | 0 <= k < |body| ensures ParseCsv(text)[k] == RowOf(MainFormat, headers, lines[k + 1]) {
      RowPerLine(MainFormat, headers, body, k);
      assert body[k] == lines[k + 1];
    }
  }

  /** Every row has exactly the trimmed headers as keys, and every value is trimmed;
      a line with fewer fields than headers gives `''` for the missing ones (`Cell`). */
  lemma ParseCsvKeys(text: string)
    ensures forall r :: r in ParseCsv(text) ==> r.Keys == set h | h in Headers(MainFormat, text)
    ensures forall r, h :: r in ParseCsv(text) && h in r ==> Trimmed(r[h])
  {
    var body := Lines(MainFormat, text)[1..];
    var headers := Headers(MainFormat, text);
    RowKeys(MainFormat, headers, body);
    RowsOfClean(MainFormat, headers, body);
  }

  // ---------------------------------------------------------------------------------
  // Ranking tables (`generateRankingTables`)

  /** The rows a period's table is drawn from: that period, and a state name that is not
      blank. */
  predicate Rankable(row: Row, periodo: Option<string>)
  {
    Field(row, "Periodo") == periodo && "Estado" in row && Trim(row["Estado"]) != ""
  }

  /** The rows of one period whose state name is present and not blank, in order. */
  function PeriodData(data: seq<Row>, periodo: Option<string>): seq<Row>
  {
    if data == [] then []
    else
      var n := |data| - 1;
      PeriodData(data[..n], periodo) + if Rankable(data[n], periodo) then [data[n]] else []
  }

  /** The filter works row by row: filtering two batches of rows one after the other gives
      the filtered first batch followed by the filtered second, so the kept rows stay in
      their order and keep their repeats. */
  lemma {:induction false} PeriodDataAppend(a: seq<Row>, b: seq<Row>, periodo: Option<string>)
    ensures PeriodData(a + b, periodo) == PeriodData(a, periodo) + PeriodData(b, periodo)
  {
    if b == [] {
      assert a + b == a;
    } else {
      var n := |b| - 1;
      PeriodDataAppend(a, b[..n], periodo);
      assert (a + b)[..|a + b| - 1] == a + b[..n];
      assert (a + b)[|a + b| - 1] == b[n];
    }
  }

  /** The filter keeps exactly the rows of the period with a state name (their order is
      stated by `PeriodDataAppend`). */
  lemma {:induction false} PeriodDataFacts(data: seq<Row>, periodo: Option<string>)
    ensures forall row :: row in PeriodData(data, periodo) <==> row in data && Rankable(row, periodo)
    ensures |PeriodData(data, periodo)| <= |data|
  {
    if data != [] {
      var n := |data| - 1;
      PeriodDataFacts(data[..n], periodo);
      assert data == data[..n] + [data[n]];
    }
  }

  /** The rows with the number each is ranked by, `parseInt(row[col])`. */
  function ByValue(rows: seq<Row>, col: string): (r: seq<Keyed<Row>>)
    ensures |r| == |rows| && forall k :: 0 <= k < |rows| ==> r[k] == Keyed(rows[k], IntField(rows[k], col) as real)
  {
    seq(|rows|, k requires 0 <= k < |rows| => Keyed(rows[k], IntField(rows[k], col) as real))
  }

  /** One table: its period and its rows, each with its value. */
  datatype RankingTable = RankingTable(periodo: Option<string>, top: seq<Keyed<Row>>)

  function TopTen(rows: seq<Row>, col: string): seq<Keyed<Row>>
  {
    Take(SortDesc(ByValue(rows, col)), 10)
  }

  /** The tables of the periods `ps`, in that order, leaving out periods without rows. */
  function Tables(data: seq<Row>, col: string, ps: seq<Option<string>>): seq<RankingTable>
  {
    if ps == [] then []
    else
      (if PeriodData(data, ps[0]) == [] then [] else [RankingTable(ps[0], TopTen(PeriodData(data, ps[0]), col))])
      + Tables(data, col, ps[1..])
  }

  lemma TailNoDuplicates<T>(ps: seq<T>)
    requires NoDuplicates(ps) && ps != []
    ensures NoDuplicates(ps[1..]) && ps[0] !in ps[1..]
  {
    var tail := ps[1..];
    forall a, b | 0 <= a < b < |tail| ensures tail[a] != tail[b] {
      assert tail[a] == ps[a + 1] && tail[b] == ps[b + 1];
    }
  }

  /** Every table belongs to a period of `ps` that has rows, and holds that period's top ten. */
  lemma {:induction false} TablesSound(data: seq<Row>, col: string, ps: seq<Option<string>>)
    ensures forall t :: t in Tables(data, col, ps) ==>
      (t.periodo in ps && PeriodData(data, t.periodo) != [] && t.top == TopTen(PeriodData(data, t.periodo), col))
  {
    if ps != [] {
      TablesSound(data, col, ps[1..]);
    }
  }

  /** The periods of the tables, in order. */
  function PeriodsOf(r: seq<RankingTable>): (ps: seq<Option<string>>)
    ensures |ps| == |r| && forall k :: 0 <= k < |r| ==> ps[k] == r[k].periodo
  {
    seq(|r|, k requires 0 <= k < |r| => r[k].periodo)
  }

  /** Every period of `ps` with rows has a table. */
  lemma {:induction false} TablesComplete(data: seq<Row>, col: string, ps: seq<Option<string>>)
    ensures forall p :: p in ps && PeriodData(data, p) != [] ==> p in PeriodsOf(Tables(data, col, ps))
  {
    if ps != [] {
      var tail := ps[1..];
      TablesComplete(data, col, tail);
      var rest := Tables(data, col, tail);
      var r := Tables(data, col, ps);
      var front := if PeriodData(data, ps[0]) == [] then [] else [RankingTable(ps[0], TopTen(PeriodData(data, ps[0]), col))];
      assert r == front + rest;
      assert PeriodsOf(r) == PeriodsOf(front) + PeriodsOf(rest);
      assert forall p :: p in ps ==> p == ps[0] || p in tail;
    }
  }

  lemma {:induction false} TablesIn(data: seq<Row>, col: string, ps: seq<Option<string>>)
    ensures forall t :: t in Tables(data, col, ps) ==> t.periodo in ps
  {
    if ps != [] {
      TablesIn(data, col, ps[1..]);
    }
  }

  /** The tables' periods all come from `ps`. */
  predicate PeriodsWithin(ps: seq<Option<string>>, r: seq<RankingTable>)
  {
    forall t :: t in r ==> t.periodo in ps
  }

  /** The tables follow the order of their periods in `ps`. */
  predicate InOrderOf(ps: seq<Option<string>>, r: seq<RankingTable>)
    requires PeriodsWithin(ps, r)
  {
    forall i, j :: 0 <= i < j < |r| ==> FirstIndex(ps, r[i].periodo) < FirstIndex(ps, r[j].periodo)
  }

  lemma ShiftIndex<T>(ps: seq<T>, x: T)
    requires ps != [] && NoDuplicates(ps) && x in ps[1..]
    ensures x in ps && x != ps[0] && FirstIndex(ps, x) == 1 + FirstIndex(ps[1..], x)
  {
    TailNoDuplicates(ps);
  }

  lemma WithinSkip(ps: seq<Option<string>>, rest: seq<RankingTable>)
    requires ps != [] && PeriodsWithin(ps[1..], rest)
    ensures PeriodsWithin(ps, rest)
  {
    forall t | t in rest ensures t.periodo in ps {
      assert t.periodo in ps[1..];
    }
  }

  lemma WithinCons(ps: seq<Option<string>>, head: RankingTable, rest: seq<RankingTable>)
    requires ps != [] && PeriodsWithin(ps[1..], rest) && head.periodo == ps[0]
    ensures PeriodsWithin(ps, [head] + rest)
  {
    WithinSkip(ps, rest);
  }

  /** Two tables in order within `ps[1..]` stay in order within `ps`. */
  lemma InOrderPair(ps: seq<Option<string>>, rest: seq<RankingTable>, i: nat, j: nat)
    requires ps != [] && NoDuplicates(ps)
    requires PeriodsWithin(ps[1..], rest) && InOrderOf(ps[1..], rest)
    requires i < j < |rest|
    ensures rest[i].periodo in ps && rest[j].periodo in ps
    ensures FirstIndex(ps, rest[i].periodo) < FirstIndex(ps, rest[j].periodo)
  {
    assert rest[i] in rest && rest[j] in rest;
    ShiftIndex(ps, rest[i].periodo);
    ShiftIndex(ps, rest[j].periodo);
  }

  /** The table of `ps[0]` comes before every table of a later period. */
  lemma HeadFirst(ps: seq<Option<string>>, head: RankingTable, rest: seq<RankingTable>, j: nat)
    requires ps != [] && NoDuplicates(ps)
    requires PeriodsWithin(ps[1..], rest) && head.periodo == ps[0]
    requires j < |rest|
    ensures rest[j].periodo in ps && FirstIndex(ps, head.periodo) < FirstIndex(ps, rest[j].periodo)
  {
    assert rest[j] in rest;
    ShiftIndex(ps, rest[j].periodo);
  }

  lemma InOrderSkip(ps: seq<Option<string>>, rest: seq<RankingTable>)
    requires ps != [] && NoDuplicates(ps)
    requires PeriodsWithin(ps[1..], rest) && InOrderOf(ps[1..], rest)
    ensures PeriodsWithin(ps, rest) && InOrderOf(ps, rest)
  {
    WithinSkip(ps, rest);
    forall i, j | 0 <= i < j < |rest| ensures FirstIndex(ps, rest[i].periodo) < FirstIndex(ps, rest[j].periodo) {
      InOrderPair(ps, rest, i, j);
    }
  }

  lemma InOrderCons(ps: seq<Option<string>>, head: RankingTable, rest: seq<RankingTable>)
    requires ps != [] && NoDuplicates(ps)
    requires PeriodsWithin(ps[1..], rest) && InOrderOf(ps[1..], rest)
    requires head.periodo == ps[0]
    ensures PeriodsWithin(ps, [head] + rest) && InOrderOf(ps, [head] + rest)
  {
    WithinCons(ps, head, rest);
    var r := [head] + rest;
    forall i, j | 0 <= i < j < |r| ensures FirstIndex(ps, r[i].periodo) < FirstIndex(ps, r[j].periodo) {
      assert r[j] == rest[j - 1];
      if i > 0 {
        assert r[i] == rest[i - 1];
        InOrderPair(ps, rest, i - 1, j - 1);
      } else {
        assert r[i] == head;
        HeadFirst(ps, head, rest, j - 1);
      }
    }
  }

  lemma {:induction false} TablesOrdered(data: seq<Row>, col: string, ps: seq<Option<string>>)
    requires NoDuplicates(ps)
    ensures PeriodsWithin(ps, Tables(data, col, ps)) && InOrderOf(ps, Tables(data, col, ps))
  {
    if ps != [] {
      TailNoDuplicates(ps);
      TablesOrdered(data, col, ps[1..]);
      var rest := Tables(data, col, ps[1..]);
      if PeriodData(data, ps[0]) == [] {
        InOrderSkip(ps, rest);
      } else {
        InOrderCons(ps, RankingTable(ps[0], TopTen(PeriodData(data, ps[0]), col)), rest);
      }
    }
  }

  /** The ranking tables: one per distinct period with rows, in order of first appearance. */
  function RankingTables(data: seq<Row>, col: string): seq<RankingTable>
  {
    Tables(data, col, Distinct(Column(data, "Periodo")))
  }

  /** A period's table holds ten of that period's rows with a state name, or all of them
      when there are fewer (so between one and ten), each with its value, in descending order of value, and no row of the period left out
      has a higher value than one kept. */
  lemma TopTenFacts(data: seq<Row>, col: string, periodo: Option<string>)
    requires PeriodData(data, periodo) != []
    ensures var top := TopTen(PeriodData(data, periodo), col);
      && 1 <= |top| <= 10
      && |top| == (if |PeriodData(data, periodo)| < 10 then |PeriodData(data, periodo)| else 10)
      && SortedDesc(top)
      && (forall e :: e in top ==>
            (e.item in data && Rankable(e.item, periodo) && e.key == IntField(e.item, col) as real))
      && (forall x, y ::
            (x in multiset(ByValue(PeriodData(data, periodo), col)) - multiset(top) && y in top) ==>
            x.key <= y.key)
  {
    var rows := PeriodData(data, periodo);
    PeriodDataFacts(data, periodo);
    var keyed := ByValue(rows, col);
    TopFacts(keyed, 10);
    var top := TopTen(rows, col);
    forall e | e in top ensures e.item in data && Rankable(e.item, periodo) && e.key == IntField(e.item, col) as real {
      assert e in multiset(keyed);
      var k :| 0 <= k < |keyed| && keyed[k] == e;
      assert rows[k] in rows;
    }
  }

  /** Every table of `generateRankingTables` is its period's top ten (see `TopTenFacts`),
      and every period with rows has a table. */
  lemma RankingTablesSound(data: seq<Row>, col: string)
    ensures forall t :: t in RankingTables(data, col) ==>
      (PeriodData(data, t.periodo) != [] && t.top == TopTen(PeriodData(data, t.periodo), col))
    ensures forall p :: p in Column(data, "Periodo") && PeriodData(data, p) != [] ==>
      p in PeriodsOf(RankingTables(data, col))
  {
    var ps := Distinct(Column(data, "Periodo"));
    TablesSound(data, col, ps);
    TablesComplete(data, col, ps);
  }

  /** If the tables follow the order of the distinct periods, they follow the order in which
      the periods first appear in the column. */
  lemma DistinctInOrder(column: seq<Option<string>>, r: seq<RankingTable>)
    requires PeriodsWithin(Distinct(column), r) && InOrderOf(Distinct(column), r)
    ensures PeriodsWithin(column, r) && InOrderOf(column, r)
  {
    var ps := Distinct(column);
    DistinctOrder(column);
    forall i, j | 0 <= i < j < |r| ensures FirstIndex(column, r[i].periodo) < FirstIndex(column, r[j].periodo) {
      assert r[i] in r && r[j] in r;
      var a, b := FirstIndex(ps, r[i].periodo), FirstIndex(ps, r[j].periodo);
      assert ps[a] == r[i].periodo && ps[b] == r[j].periodo;
    }
  }

  /** The tables follow the order in which their periods first appear in the data. */
  lemma RankingTablesOrdered(data: seq<Row>, col: string)
    ensures PeriodsWithin(Column(data, "Periodo"), RankingTables(data, col))
    ensures InOrderOf(Column(data, "Periodo"), RankingTables(data, col))
  {
    var column := Column(data, "Periodo");
    TablesOrdered(data, col, Distinct(column));
    DistinctInOrder(column, RankingTables(data, col));
  }

  // ---------------------------------------------------------------------------------
  // Critical states (the replacement step of `selectTopVariableStates`)

  /** The states that must be among the selected ones, in the order they are handled. */
  const Critical: seq<string> := ["Sinaloa", "Baja California", "Guanajuato", "México"]

  predicate IsCritical(x: Option<string>)
  {
    x.Some? && x.value in Critical
  }

  /** Index of the last entry before `n` that is not a critical state, or -1. */
  function LastNonCritical(s: seq<Option<string>>, n: nat): (i: int)
    requires n <= |s|
    ensures -1 <= i < n
    ensures i >= 0 ==> !IsCritical(s[i])
    ensures forall j :: i < j < n ==> IsCritical(s[j])
  {
    if n == 0 then -1
    else if !IsCritical(s[n - 1]) then n - 1
    else LastNonCritical(s, n - 1)
  }

  /** The reverse `for` loop: the last non-critical entry becomes `estado`; nothing changes
      when every entry is critical. */
  function ReplaceLast(s: seq<Option<string>>, estado: string): (r: seq<Option<string>>)
    ensures |r| == |s|
  {
    var i := LastNonCritical(s, |s|);
    if i < 0 then s else s[i := Some(estado)]
  }

  /** One step of `estadosCriticos.forEach`: nothing happens when `estado` is already there. */
  function Include(s: seq<Option<string>>, estado: string): (r: seq<Option<string>>)
    ensures |r| == |s|
  {
    if Some(estado) in s then s else ReplaceLast(s, estado)
  }

  /** The states after handling the critical states `cs` in order. */
  function EnsureCritical(s: seq<Option<string>>, cs: seq<string>): (r: seq<Option<string>>)
    ensures |r| == |s|
  {
    if cs == [] then s
    else Include(EnsureCritical(s, cs[..|cs| - 1]), cs[|cs| - 1])
  }

  /** The replacement only ever overwrites entries that are not critical states, with a
      critical state: every critical state that was selected stays selected, at its place. */
  lemma {:induction false} EnsureCriticalKeeps(s: seq<Option<string>>, cs: seq<string>)
    requires forall c :: c in cs ==> c in Critical
    ensures forall j :: 0 <= j < |s| ==>
      EnsureCritical(s, cs)[j] == s[j] || (!IsCritical(s[j]) && IsCritical(EnsureCritical(s, cs)[j]))
  {
    if cs != [] {
      var n := |cs| - 1;
      EnsureCriticalKeeps(s, cs[..n]);
      assert cs[n] in cs;
    }
  }

  /** When every entry is a critical state and one critical state is missing, there are
      fewer entries than critical states (the replacement always finds its place). */
  lemma AllCriticalIsShort(prev: seq<Option<string>>, e: string)
    requires NoDuplicates(prev) && e in Critical && Some(e) !in prev
    requires forall j :: 0 <= j < |prev| ==> IsCritical(prev[j])
    ensures |prev| < |Critical|
  {
    var others := seq(|Critical|, k requires 0 <= k < |Critical| => Some(Critical[k]));
    var ie := FirstIndex(Critical, e);
    var t := others[..ie] + others[ie + 1..];
    forall x | x in prev ensures x in t {
      var j :| 0 <= j < |prev| && prev[j] == x;
      assert IsCritical(prev[j]);
      var k := FirstIndex(Critical, x.value);
      assert others[k] == x;
      if k < ie {
        assert t[k] == x;
      } else {
        assert k != ie;
        assert t[k - 1] == x;
      }
    }
    NoDuplicatesWithin(prev, t);
  }

  /** Overwriting one entry with a missing value keeps the entries distinct, adds the value
      and keeps every other entry. */
  lemma OverwriteFacts(prev: seq<Option<string>>, i: nat, v: Option<string>)
    requires NoDuplicates(prev) && v !in prev && i < |prev|
    ensures NoDuplicates(prev[i := v]) && v in prev[i := v]
    ensures forall x :: x in prev && x != prev[i] ==> x in prev[i := v]
  {
    var r := prev[i := v];
    assert r[i] == v;
    forall a, b | 0 <= a < b < |r| ensures r[a] != r[b] {
      if a == i {
        assert r[b] == prev[b] && prev[b] in prev;
      } else if b == i {
        assert r[a] == prev[a] && prev[a] in prev;
      }
    }
    forall x | x in prev && x != prev[i] ensures x in r {
      var j :| 0 <= j < |prev| && prev[j] == x;
      assert r[j] == x;
    }
  }

  /** One step keeps the entries distinct, adds `e` and keeps the critical states already there. */
  lemma IncludeStep(prev: seq<Option<string>>, e: string)
    requires NoDuplicates(prev) && |prev| >= |Critical| && e in Critical
    ensures NoDuplicates(Include(prev, e)) && Some(e) in Include(prev, e)
    ensures forall c :: c in Critical && Some(c) in prev ==> Some(c) in Include(prev, e)
  {
    if Some(e) !in prev {
      var i := LastNonCritical(prev, |prev|);
      if i < 0 {
        AllCriticalIsShort(prev, e);
        assert false;
      }
      OverwriteFacts(prev, i, Some(e));
      forall c | c in Critical && Some(c) in prev ensures Some(c) in Include(prev, e) {
        assert IsCritical(Some(c)) && !IsCritical(prev[i]);
      }
    }
  }

  /** With at least four distinct states selected, after the step every critical state
      is selected, and no state is selected twice. */
  lemma {:induction false} EnsureCriticalIncludes(s: seq<Option<string>>, cs: seq<string>)
    requires NoDuplicates(s) && |s| >= |Critical|
    requires forall c :: c in cs ==> c in Critical
    ensures NoDuplicates(EnsureCritical(s, cs))
    ensures forall c :: c in cs ==> Some(c) in EnsureCritical(s, cs)
  {
    if cs != [] {
      var n := |cs| - 1;
      assert forall c :: c in cs[..n] ==> c in cs;
      EnsureCriticalIncludes(s, cs[..n]);
      var prev := EnsureCritical(s, cs[..n]);
      assert cs[n] in cs;
      IncludeStep(prev, cs[n]);
      assert EnsureCritical(s, cs) == Include(prev, cs[n]);
      forall c | c in cs ensures Some(c) in Include(prev, cs[n]) {
        if c != cs[n] {
          var k :| 0 <= k < |cs| && cs[k] == c;
          assert cs[..n][k] == c;
        }
      }
    }
  }

  /** The last critical state is the one the whole selection guarantees. */
  lemma AllCriticalIncluded(s: seq<Option<string>>)
    requires NoDuplicates(s) && |s| >= |Critical|
    ensures forall c :: c in Critical ==> Some(c) in EnsureCritical(s, Critical)
    ensures |EnsureCritical(s, Critical)| == |s|
  {
    EnsureCriticalIncludes(s, Critical);
  }

  /** The reverse scan of the selected states: the first non-critical entry found from the
      end is overwritten with `estado` and the scan stops. */
  method ReplaceLastInPlace(top: array<Option<string>>, estado: string)
    modifies top
    ensures top[..] == ReplaceLast(old(top[..]), estado)
  {
    var i := top.Length - 1;
    while i >= 0
      invariant -1 <= i < top.Length
      invariant top[..] == old(top[..])
      invariant LastNonCritical(top[..], top.Length) == LastNonCritical(top[..], i + 1)
    {
      if !IsCritical(top[i]) {
        top[i] := Some(estado);
        return;
      }
      i := i - 1;
    }
  }

  /** The replacement step over the selected states, in place. */
  method EnsureCriticalInPlace(top: array<Option<string>>)
    modifies top
    ensures top[..] == EnsureCritical(old(top[..]), Critical)
  {
    var c := 0;
    while c < |Critical|
      invariant 0 <= c <= |Critical|
      invariant top[..] == EnsureCritical(old(top[..]), Critical[..c])
    {
      assert Critical[..c + 1][..c] == Critical[..c];
      var estado := Critical[c];
      if Some(estado) !in top[..] {
        ReplaceLastInPlace(top, estado);
      }
      c := c + 1;
    }
    assert Critical[..|Critical|] == Critical;
  }
}
