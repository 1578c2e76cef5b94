/** The CSV readers of the scripts. Each one trims the whole text, cuts it into lines,
    takes the headers from the first line and turns every later line into a row object
    whose keys are the headers. They differ in what they cut lines on, how they clean
    headers and cells, whether fields may be quoted and whether blank lines are skipped;
    `Format` names these choices and each script's reader is one `Format`. */
module Csv {
  import opened Optional
  import opened JsStrings
  import opened JsNumbers
  import opened Collections

  /** A row object: header name to cell text. */
  type Row = map<string, string>

  /** `row[key]`, with `undefined` for a key the row does not have. */
  function Field(row: Row, key: string): Option<string>
  {
    if key in row then Some(row[key]) else None
  }

  /** `parseInt(row[key]) || 0`; `parseInt(undefined)` is `NaN` and so 0. */
  function IntField(row: Row, key: string): int
  {
    if key in row then Num(row[key]) else 0
  }

  /** `parseFloat(row[key]) || 0`. */
  function RealField(row: Row, key: string): real
  {
    if key in row then NumF(row[key]) else 0.0
  }

  /** Index of the first row whose `key` field is `value` (what `find` returns), or `|rows|` when
      there is none; `value == None` finds a row without the key (`undefined === undefined`). */
  function FirstWith(rows: seq<Row>, key: string, value: Option<string>): (k: nat)
    ensures k <= |rows|
    ensures k < |rows| ==> Field(rows[k], key) == value
    ensures forall j :: 0 <= j < k ==> Field(rows[j], key) != value
  {
    if rows == [] then 0
    else if Field(rows[0], key) == value then 0
    else 1 + FirstWith(rows[1..], key, value)
  }

  /** The first matching row is the one `FirstWith` finds. */
  lemma {:induction false} FirstWithAt(rows: seq<Row>, key: string, value: Option<string>, k: nat)
    requires k < |rows| && Field(rows[k], key) == value
    requires forall j :: 0 <= j < k ==> Field(rows[j], key) != value
    ensures FirstWith(rows, key, value) == k
  {
    if k > 0 {
      assert Field(rows[0], key) != value;
      FirstWithAt(rows[1..], key, value, k - 1);
    }
  }

  /** Index of the first row whose two fields hold the two values, or `|rows|`. */
  function FirstWithBoth(rows: seq<Row>, key1: string, value1: Option<string>, key2: string, value2: Option<string>): (k: nat)
    ensures k <= |rows|
    ensures k < |rows| ==> Field(rows[k], key1) == value1 && Field(rows[k], key2) == value2
    ensures forall j :: 0 <= j < k ==> !(Field(rows[j], key1) == value1 && Field(rows[j], key2) == value2)
  {
    if rows == [] then 0
    else if Field(rows[0], key1) == value1 && Field(rows[0], key2) == value2 then 0
    else 1 + FirstWithBoth(rows[1..], key1, value1, key2, value2)
  }

  /** The row at an index `FirstWith` returned, `undefined` past the end. */
  function RowAt(rows: seq<Row>, k: nat): (r: Option<Row>)
    ensures r.Some? <==> k < |rows|
    ensures k < |rows| ==> r == Some(rows[k])
  {
    if k < |rows| then Some(rows[k]) else None
  }

  /** `row[key]` over every row, in order (`rows.map(row => row[key])`). */
  function Column(rows: seq<Row>, key: string): (r: seq<Option<string>>)
    ensures |r| == |rows| && forall k :: 0 <= k < |rows| ==> r[k] == Field(rows[k], key)
  {
    seq(|rows|, k requires 0 <= k < |rows| => Field(rows[k], key))
  }

  /** `rows.map(row => parseFloat(row[key]) || 0)`. */
  function RealColumn(rows: seq<Row>, key: string): (r: seq<real>)
    ensures |r| == |rows| && forall k :: 0 <= k < |rows| ==> r[k] == RealField(rows[k], key)
  {
    seq(|rows|, k requires 0 <= k < |rows| => RealField(rows[k], key))
  }

  /** The value of a row is among the values of the rows it is taken from. */
  lemma RealColumnMember(rows: seq<Row>, key: string, row: Row)
    requires row in rows
    ensures RealField(row, key) in RealColumn(rows, key)
  {
    var k :| 0 <= k < |rows| && rows[k] == row;
    assert RealColumn(rows, key)[k] == RealField(row, key);
  }

  /** Each row paired with `parseFloat(row[field]) || 0`. */
  function ByField(rows: seq<Row>, field: string): (r: seq<Keyed<Row>>)
    ensures |r| == |rows| && forall k :: 0 <= k < |rows| ==> r[k] == Keyed(rows[k], RealField(rows[k], field))
  {
    seq(|rows|, k requires 0 <= k < |rows| => Keyed(rows[k], RealField(rows[k], field)))
  }

  /** `[...rows].sort((a, b) => (parseFloat(b[field]) || 0) - (parseFloat(a[field]) || 0))`. */
  function SortedBy(rows: seq<Row>, field: string): seq<Row>
  {
    Items(SortDesc(ByField(rows, field)))
  }

  /** Every entry of a rearrangement of `ByField(rows, field)` carries its row's value. */
  lemma ByFieldKeys(rows: seq<Row>, field: string, s: seq<Keyed<Row>>)
    requires multiset(s) == multiset(ByField(rows, field))
    ensures forall i :: 0 <= i < |s| ==> s[i].key == RealField(s[i].item, field)
  {
    var keyed := ByField(rows, field);
    forall i | 0 <= i < |s| ensures s[i].key == RealField(s[i].item, field) {
      assert s[i] in multiset(keyed);
      var k :| 0 <= k < |keyed| && keyed[k] == s[i];
    }
  }

  /** The sorted rows are the same rows, rearranged so that their `field` values never
      increase. */
  lemma SortedByFacts(rows: seq<Row>, field: string)
    ensures |SortedBy(rows, field)| == |rows|
    ensures multiset(SortedBy(rows, field)) == multiset(rows)
    ensures forall i, j :: 0 <= i < j < |rows| ==> RealField(SortedBy(rows, field)[i], field) >= RealField(SortedBy(rows, field)[j], field)
  {
    var keyed := ByField(rows, field);
    var sorted := SortDesc(keyed);
    SortDescItems(keyed);
    assert Items(keyed) == rows;
    ByFieldKeys(rows, field, sorted);
  }

  /** The rows whose `key` field is `value`, in order, when `keep`; the other rows otherwise
      (`rows.filter(row => ...)` and its complement). */
  function Where(rows: seq<Row>, key: string, value: Option<string>, keep: bool): (r: seq<Row>)
    ensures forall row :: row in r <==> row in rows && (Field(row, key) == value) == keep
    ensures |r| <= |rows|
  {
    if rows == [] then []
    else
      var n := |rows| - 1;
      Where(rows[..n], key, value, keep) + if (Field(rows[n], key) == value) == keep then [rows[n]] else []
  }

  /** What the text is cut into lines on: a newline, or the two characters `\` and `n`. */
  datatype LineBreak = Newline | BackslashN

  function BreakText(b: LineBreak): (sep: string)
    ensures |sep| > 0
  {
    match b
    case Newline => "\n"
    case BackslashN => "\\n"
  }

  /** How a header or a field is cleaned: `trim()`, not at all, or `replace(/"/g, '').trim()`. */
  datatype Cleaning = TrimOnly | AsIs | StripQuotes

  function Clean(c: Cleaning, s: string): string
  {
    match c
    case TrimOnly => Trim(s)
    case AsIs => s
    case StripQuotes => Trim(RemoveChar(s, '"'))
  }

  /** What a cleaned text is guaranteed to look like. */
  predicate CleanText(c: Cleaning, s: string)
  {
    match c
    case TrimOnly => Trimmed(s)
    case AsIs => true
    case StripQuotes => Trimmed(s) && '"' !in s
  }

  lemma CleanIsClean(c: Cleaning, s: string)
    ensures CleanText(c, Clean(c, s))
  {
    match c
    case TrimOnly =>
      TrimShape(s);
    case AsIs =>
    case StripQuotes =>
      TrimShape(RemoveChar(s, '"'));
      TrimKeepsOut(RemoveChar(s, '"'), '"');
  }

  function CleanAll(c: Cleaning, xs: seq<string>): (r: seq<string>)
    ensures |r| == |xs| && forall k :: 0 <= k < |xs| ==> r[k] == Clean(c, xs[k])
  {
    if xs == [] then [] else [Clean(c, xs[0])] + CleanAll(c, xs[1..])
  }

  /** The cell for header number `j`: the cleaned field, or `''` when the line has no
      such field (`values[j] ? ... : ''`, `values[j] || ''`; an empty field cleans to
      `''` as well). */
  function Cell(c: Cleaning, values: seq<string>, j: nat): string
  {
    if j < |values| then Clean(c, values[j]) else ""
  }

  /** The assignments `row[headers[j]] = cell j`, in header order. */
  function Pairs(headers: seq<string>, values: seq<string>, c: Cleaning): (ps: seq<(string, string)>)
  {
    seq(|headers|, j requires 0 <= j < |headers| => (headers[j], Cell(c, values, j)))
  }

  /** The row object built by assigning cell `j` to header `j`, header by header (a later repeated header wins). */
  function BuildRow(headers: seq<string>, values: seq<string>, c: Cleaning): Row
  {
    ObjectOf(Pairs(headers, values, c))
  }

  /** Every header is a key of the row, and nothing else is; a header that occurs once
      (or last) holds its own cell; every value is cleaned. */
  lemma RowFacts(headers: seq<string>, values: seq<string>, c: Cleaning)
    ensures BuildRow(headers, values, c).Keys == set h | h in headers
    ensures forall j :: 0 <= j < |headers| && headers[j] !in headers[j + 1..] ==>
      BuildRow(headers, values, c)[headers[j]] == Cell(c, values, j)
    ensures forall h :: h in BuildRow(headers, values, c) ==> CleanText(c, BuildRow(headers, values, c)[h])
  {
    var ps := Pairs(headers, values, c);
    var row := BuildRow(headers, values, c);
    ObjectOfKeys(ps);
    forall h | h in headers ensures h in row {
      var j :| 0 <= j < |headers| && headers[j] == h;
      assert ps[j] in ps;
    }
    forall j | 0 <= j < |headers| && headers[j] !in headers[j + 1..]
      ensures row[headers[j]] == Cell(c, values, j)
    {
      forall k | j < k < |ps| ensures ps[k].0 != ps[j].0 {
        assert headers[k] == headers[j + 1..][k - j - 1];
      }
      ObjectOfLastWins(ps, j);
    }
    forall h | h in row ensures CleanText(c, row[h]) {
      assert (h, row[h]) in ps;
      var j :| 0 <= j < |ps| && ps[j] == (h, row[h]);
      if j < |values| {
        CleanIsClean(c, values[j]);
      }
    }
  }

  /** The loop that fills a row object header by header. */
  method FillRow(headers: seq<string>, values: seq<string>, c: Cleaning) returns (row: Row)
    ensures row == BuildRow(headers, values, c)
  {
    ghost var ps := Pairs(headers, values, c);
    row := map[];
    var j := 0;
    while j < |headers|
      invariant 0 <= j <= |headers|
      invariant row == ObjectOf(ps[..j])
    {
      assert ps[..j + 1][..j] == ps[..j];
      row := row[headers[j] := Cell(c, values, j)];
      j := j + 1;
    }
    assert ps[..|headers|] == ps;
  }

  /** The state of the quote-aware splitter after some characters: the finished fields,
      the field being read and whether an opening `"` is still unmatched. */
  datatype Scan = Scan(done: seq<string>, current: string, inQuotes: bool)

  /** One character of the splitter: `"` flips the quote flag and is dropped, a comma
      outside quotes ends the field, anything else is kept. */
  function Step(st: Scan, ch: char): Scan
  {
    if ch == '"' then st.(inQuotes := !st.inQuotes)
    else if ch == ',' && !st.inQuotes then Scan(st.done + [st.current], "", st.inQuotes)
    else st.(current := st.current + [ch])
  }

  function ScanOf(line: string): Scan
  {
    if line == [] then Scan([], "", false)
    else Step(ScanOf(line[..|line| - 1]), line[|line| - 1])
  }

  /** The fields `parseCSVLine` returns: the finished ones and the last one. */
  function QuotedFields(line: string): seq<string>
  {
    var st := ScanOf(line);
    st.done + [st.current]
  }

  /** `parseCSVLine`: one pass over the characters with `current`, `inQuotes` and `result`. */
  method ParseCsvLine(line: string) returns (result: seq<string>)
    ensures result == QuotedFields(line)
  {
    result := [];
    var current := "";
    var inQuotes := false;
    var i := 0;
    while i < |line|
      invariant 0 <= i <= |line|
      invariant ScanOf(line[..i]) == Scan(result, current, inQuotes)
    {
      assert line[..i + 1][..i] == line[..i];
      var ch := line[i];
      if ch == '"' {
        inQuotes := !inQuotes;
      } else if ch == ',' && !inQuotes {
        result := result + [current];
        current := "";
      } else {
        current := current + [ch];
      }
      i := i + 1;
    }
    assert line[..|line|] == line;
    result := result + [current];
  }

  /** Commas with an even number of `"` before them: the ones outside quotes. */
  function UnquotedCommas(s: string): nat
  {
    if s == [] then 0
    else
      var n := |s| - 1;
      UnquotedCommas(s[..n]) + if s[n] == ',' && Count(s[..n], '"') % 2 == 0 then 1 else 0
  }

  /** The quote flag records whether an odd number of `"` has been read. */
  lemma {:induction false} ScanQuotes(line: string)
    ensures ScanOf(line).inQuotes == (Count(line, '"') % 2 == 1)
  {
    if line != [] {
      var n := |line| - 1;
      ScanQuotes(line[..n]);
      assert line == line[..n] + [line[n]];
      CountAppend(line[..n], [line[n]], '"');
    }
  }

  /** A field is finished at each comma outside quotes, and only there. */
  lemma {:induction false} ScanFieldCount(line: string)
    ensures |ScanOf(line).done| == UnquotedCommas(line)
  {
    if line != [] {
      var n := |line| - 1;
      ScanFieldCount(line[..n]);
      ScanQuotes(line[..n]);
    }
  }

  /** No field ever receives a `"`. */
  lemma {:induction false} ScanDropsQuotes(line: string)
    ensures forall f :: f in ScanOf(line).done ==> '"' !in f
    ensures '"' !in ScanOf(line).current
  {
    if line != [] {
      ScanDropsQuotes(line[..|line| - 1]);
    }
  }

  /** Every character but `"` ends up in a field or as a separating comma. */
  lemma {:induction false} ScanJoin(line: string)
    ensures Join(ScanOf(line).done + [ScanOf(line).current], ",") == RemoveChar(line, '"')
  {
    if line != [] {
      var n := |line| - 1;
      var p, ch := line[..n], line[n];
      ScanJoin(p);
      assert line == p + [ch];
      RemoveCharAppend(p, [ch], '"');
      var st := ScanOf(p);
      if ch == '"' {
      } else if ch == ',' && !st.inQuotes {
        JoinSnoc(st.done + [st.current], "", ",");
        assert st.done + [st.current] + [""] == (st.done + [st.current]) + [""];
      } else if st.done == [] {
        assert [st.current + [ch]] == [] + [st.current + [ch]];
      } else {
        JoinSnoc(st.done, st.current + [ch], ",");
        JoinSnoc(st.done, st.current, ",");
      }
    }
  }

  /** `parseCSVLine` gives one field more than there are commas outside quotes, drops
      every `"`, and loses nothing else: joining the fields with commas gives the line
      without its quotes. */
  lemma QuotedFieldsFacts(line: string)
    ensures |QuotedFields(line)| == UnquotedCommas(line) + 1
    ensures forall f :: f in QuotedFields(line) ==> '"' !in f
    ensures Join(QuotedFields(line), ",") == RemoveChar(line, '"')
  {
    ScanFieldCount(line);
    ScanDropsQuotes(line);
    ScanJoin(line);
  }

  /** How a line is cut into fields: `split(',')` or `parseCSVLine`. */
  datatype Splitter = CommaSplit | QuoteAware

  function Fields(sp: Splitter, line: string): (r: seq<string>)
    ensures |r| > 0
  {
    match sp
    case CommaSplit => Split(line, ",")
    case QuoteAware => QuotedFields(line)
  }

  /** Cuts a data line into its fields the way the format says. */
  method SplitLine(sp: Splitter, line: string) returns (values: seq<string>)
    ensures values == Fields(sp, line)
  {
    if sp == QuoteAware {
      values := ParseCsvLine(line);
    } else {
      values := Split(line, ",");
    }
  }

  datatype Format = Format(
    lineBreak: LineBreak,
    headerCleaning: Cleaning,
    cellCleaning: Cleaning,
    splitter: Splitter,
    skipBlank: bool)

  /** `text.trim().split(sep)`. */
  function Lines(f: Format, text: string): (r: seq<string>)
    ensures |r| > 0
  {
    Split(Trim(text), BreakText(f.lineBreak))
  }

  /** The headers: the first line split on commas (never quote-aware), each cleaned. */
  function Headers(f: Format, text: string): seq<string>
  {
    CleanAll(f.headerCleaning, Split(Lines(f, text)[0], ","))
  }

  /** Every header is cleaned the way its format says. */
  lemma HeadersClean(f: Format, text: string)
    ensures forall h :: h in Headers(f, text) ==> CleanText(f.headerCleaning, h)
  {
    var raw := Split(Lines(f, text)[0], ",");
    var headers := Headers(f, text);
    forall h | h in headers ensures CleanText(f.headerCleaning, h) {
      var k :| 0 <= k < |headers| && headers[k] == h;
      CleanIsClean(f.headerCleaning, raw[k]);
    }
  }

  /** A data line yields a row unless blank lines are skipped and it is blank. */
  predicate Kept(f: Format, line: string)
  {
    !f.skipBlank || Trim(line) != ""
  }

  function RowOf(f: Format, headers: seq<string>, line: string): Row
  {
    BuildRow(headers, Fields(f.splitter, line), f.cellCleaning)
  }

  function RowsOf(f: Format, headers: seq<string>, lines: seq<string>): seq<Row>
  {
    if lines == [] then []
    else
      var n := |lines| - 1;
      RowsOf(f, headers, lines[..n]) + if Kept(f, lines[n]) then [RowOf(f, headers, lines[n])] else []
  }

  /** The rows a reader returns: one per data line after the header line, blank ones
      left out when the format skips them. */
  function Parse(f: Format, text: string): (rs: seq<Row>)
    ensures |rs| == if f.skipBlank then NonBlank(Lines(f, text)[1..]) else |Lines(f, text)| - 1
    ensures forall r :: r in rs ==> r.Keys == set h | h in Headers(f, text)
  {
    var headers, body := Headers(f, text), Lines(f, text)[1..];
    RowCount(f, headers, body);
    RowKeys(f, headers, body);
    RowsOf(f, headers, body)
  }

  /** Data lines that are not blank. */
  function NonBlank(lines: seq<string>): nat
  {
    if lines == [] then 0
    else NonBlank(lines[..|lines| - 1]) + if Trim(lines[|lines| - 1]) != "" then 1 else 0
  }

  /** One row per kept line. */
  lemma {:induction false} RowCount(f: Format, headers: seq<string>, lines: seq<string>)
    ensures |RowsOf(f, headers, lines)| == if f.skipBlank then NonBlank(lines) else |lines|
  {
    if lines != [] {
      RowCount(f, headers, lines[..|lines| - 1]);
    }
  }

  /** Without skipping, row `k` is built from data line `k`. */
  lemma {:induction false} RowPerLine(f: Format, headers: seq<string>, lines: seq<string>, k: nat)
    requires !f.skipBlank && k < |lines|
    ensures |RowsOf(f, headers, lines)| == |lines|
    ensures RowsOf(f, headers, lines)[k] == RowOf(f, headers, lines[k])
  {
    var n := |lines| - 1;
    RowCount(f, headers, lines);
    RowCount(f, headers, lines[..n]);
    if k < n {
      RowPerLine(f, headers, lines[..n], k);
    }
  }

  /** Every row has exactly the headers as keys. */
  lemma {:induction false} RowKeys(f: Format, headers: seq<string>, lines: seq<string>)
    ensures forall r :: r in RowsOf(f, headers, lines) ==> r.Keys == set h | h in headers
  {
    if lines != [] {
      var n := |lines| - 1;
      RowKeys(f, headers, lines[..n]);
      RowFacts(headers, Fields(f.splitter, lines[n]), f.cellCleaning);
    }
  }

  /** Every value a reader stores is cleaned the way its format says. */
  lemma {:induction false} RowsOfClean(f: Format, headers: seq<string>, lines: seq<string>)
    ensures forall r, h :: r in RowsOf(f, headers, lines) && h in r ==> CleanText(f.cellCleaning, r[h])
  {
    if lines != [] {
      var n := |lines| - 1;
      RowsOfClean(f, headers, lines[..n]);
      RowFacts(headers, Fields(f.splitter, lines[n]), f.cellCleaning);
    }
  }

  /** One data line to its row object. */
  method ReadRow(f: Format, headers: seq<string>, line: string) returns (row: Row)
    ensures row == RowOf(f, headers, line)
  {
    var values := SplitLine(f.splitter, line);
    row := FillRow(headers, values, f.cellCleaning);
  }

  /** The `for` loop of the readers that skip blank lines (`if (lines[i].trim() === '')
      continue;`) and push one row per remaining line. */
  method ReadRows(f: Format, text: string) returns (data: seq<Row>)
    ensures data == Parse(f, text)
  {
    var lines := Lines(f, text);
    var headers := Headers(f, text);
    var body := lines[1..];
    data := [];
    var k := 0;
    while k < |body|
      invariant 0 <= k <= |body|
      invariant data == RowsOf(f, headers, body[..k])
    {
      assert body[..k + 1][..k] == body[..k];
      if Kept(f, body[k]) {
        var row := ReadRow(f, headers, body[k]);
        data := data + [row];
      }
      k := k + 1;
    }
    assert body[..|body|] == body;
  }
}
