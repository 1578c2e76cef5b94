/** The month labels the map scripts step through (`'Enero 2024'`, ...): the month name,
    one space and the year. */
module Periods {
  import opened JsStrings
  import opened Collections

  /** The month names, January first. */
  const Months: seq<string> := [
    "Enero", "Febrero", "Marzo", "Abril", "Mayo", "Junio",
    "Julio", "Agosto", "Septiembre", "Octubre", "Noviembre", "Diciembre"]

  /** A period label, `` `${mes} ${año}` ``. */
  function Label(month: string, year: string): string
  {
    month + " " + year
  }

  /** The labels of the first `n` months of `year`, in order. */
  function MonthLabels(year: string, n: nat): (r: seq<string>)
    requires n <= |Months|
    ensures |r| == n && forall k :: 0 <= k < n ==> r[k] == Label(Months[k], year)
  {
    seq(n, k requires 0 <= k < n => Label(Months[k], year))
  }

  /** All of 2024, then the first `n` months of 2025. */
  function TwoYears(n: nat): (r: seq<string>)
    requires n <= |Months|
    ensures |r| == 12 + n
  {
    MonthLabels("2024", 12) + MonthLabels("2025", n)
  }

  /** The loops that push one label per month: `r` is `ps` followed by the labels of the
      first `n` months of `year`. */
  method AppendMonths(ps: seq<string>, year: string, n: nat) returns (r: seq<string>)
    requires n <= |Months|
    ensures r == ps + MonthLabels(year, n)
  {
    r := ps;
    var i := 0;
    while i < n
      invariant 0 <= i <= n
      invariant r == ps + MonthLabels(year, i)
    {
      assert MonthLabels(year, i + 1) == MonthLabels(year, i) + [Label(Months[i], year)];
      r := r + [Label(Months[i], year)];
      i := i + 1;
    }
  }

  predicate NoSpace(s: string)
  {
    ' ' !in s
  }

  lemma {:induction false} SplitAbsent(s: string, c: char)
    requires c !in s
    ensures Split(s, [c]) == [s]
  {
    if s != [] {
      assert s[..1] == [s[0]];
      SplitAbsent(s[1..], c);
      assert [s[0]] + s[1..] == s;
    }
  }

  lemma {:induction false} SplitAtFirst(a: string, b: string, c: char)
    requires c !in a
    ensures Split(a + [c] + b, [c]) == [a] + Split(b, [c])
  {
    var s := a + [c] + b;
    if a == [] {
      assert s[..1] == [c] && s[1..] == b;
    } else {
      assert s[..1] == [a[0]] && s[0] != c;
      assert s[1..] == a[1..] + [c] + b;
      SplitAtFirst(a[1..], b, c);
      assert [a[0]] + a[1..] == a;
    }
  }

  /** A label's two words are its month and its year (`split(' ')` gives them back). */
  lemma LabelWords(month: string, year: string)
    requires NoSpace(month) && NoSpace(year)
    ensures Split(Label(month, year), " ") == [month, year]
  {
    SplitAtFirst(month, year, ' ');
    SplitAbsent(year, ' ');
  }

  /** Different months or years give different labels. */
  lemma LabelInjective(m1: string, y1: string, m2: string, y2: string)
    requires NoSpace(m1) && NoSpace(y1) && NoSpace(m2) && NoSpace(y2)
    requires Label(m1, y1) == Label(m2, y2)
    ensures m1 == m2 && y1 == y2
  {
    LabelWords(m1, y1);
    LabelWords(m2, y2);
  }

  lemma MonthsHaveNoSpace()
    ensures NoDuplicates(Months)
    ensures forall m :: m in Months ==> NoSpace(m)
  {
  }

  /** Labels of one year over distinct months without spaces are distinct. */
  lemma LabelsDistinct(ms: seq<string>, year: string)
    requires NoDuplicates(ms) && NoSpace(year)
    requires forall m :: m in ms ==> NoSpace(m)
    ensures NoDuplicates(seq(|ms|, k requires 0 <= k < |ms| => Label(ms[k], year)))
  {
    var r := seq(|ms|, k requires 0 <= k < |ms| => Label(ms[k], year));
    forall i, j | 0 <= i < j < |r| ensures r[i] != r[j] {
      assert ms[i] in ms && ms[j] in ms;
      if r[i] == r[j] {
        LabelInjective(ms[i], year, ms[j], year);
      }
    }
  }

  lemma ConcatDistinct<T>(a: seq<T>, b: seq<T>)
    requires NoDuplicates(a) && NoDuplicates(b)
    requires forall x :: x in a ==> x !in b
    ensures NoDuplicates(a + b)
  {
    var r := a + b;
    forall i, j | 0 <= i < j < |r| ensures r[i] != r[j] {
      if i < |a| && j >= |a| {
        assert r[i] == a[i] && r[j] == b[j - |a|];
        assert a[i] in a && b[j - |a|] in b;
      } else if i >= |a| {
        assert r[i] == b[i - |a|] && r[j] == b[j - |a|];
      }
    }
  }

  /** The two-year periods are all different. */
  lemma TwoYearsDistinct(n: nat)
    requires n <= |Months|
    ensures NoDuplicates(TwoYears(n))
  {
    MonthsHaveNoSpace();
    var a, b := MonthLabels("2024", 12), MonthLabels("2025", n);
    LabelsDistinct(Months, "2024");
    assert a == seq(|Months|, k requires 0 <= k < |Months| => Label(Months[k], "2024"));
    var ms := Months[..n];
    assert NoDuplicates(ms) by {
      forall i, j | 0 <= i < j < |ms| ensures ms[i] != ms[j] {
        assert ms[i] == Months[i] && ms[j] == Months[j];
      }
    }
    assert forall m :: m in ms ==> m in Months;
    LabelsDistinct(ms, "2025");
    assert b == seq(|ms|, k requires 0 <= k < |ms| => Label(ms[k], "2025"));
    forall x | x in a ensures x !in b {
      if x in b {
        var i :| 0 <= i < |a| && a[i] == x;
        var j :| 0 <= j < |b| && b[j] == x;
        assert Months[i] in Months && Months[j] in Months;
        LabelInjective(Months[i], "2024", Months[j], "2025");
      }
    }
    ConcatDistinct(a, b);
  }
}
