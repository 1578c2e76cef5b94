/** The percent change the national report computes between two counts, with its rule
    that a base of 0 (or less) gives a change of 0. */
module PercentChanges {

  /** Percentage change from `prev` to `cur`, and 0 when `prev` is not positive. */
  function PercentChange(cur: real, prev: real): (r: real)
    ensures prev <= 0.0 ==> r == 0.0
  {
    if prev > 0.0 then (cur - prev) / prev * 100.0 else 0.0
  }

  /** Over a positive base the change is the difference as a share of the base: it times
      the base gives back the difference times 100, it is positive exactly when the count
      went up and zero exactly when it stayed, and a count that is not negative never
      falls by more than 100 percent. */
  lemma PercentChangeMeaning(cur: real, prev: real)
    requires prev > 0.0
    ensures PercentChange(cur, prev) * prev == (cur - prev) * 100.0
    ensures PercentChange(cur, prev) > 0.0 <==> cur > prev
    ensures PercentChange(cur, prev) == 0.0 <==> cur == prev
    ensures cur >= 0.0 ==> PercentChange(cur, prev) >= -100.0
  {
    var r := PercentChange(cur, prev);
    assert r == (cur - prev) / prev * 100.0;
    assert r * prev == (cur - prev) * 100.0;
    if cur >= 0.0 {
      assert cur - prev >= -prev;
      assert (cur - prev) / prev >= -1.0;
    }
  }

  /** `PercentChangeMeaning` for a value known to be a percent change. */
  lemma ChangeOfBase(y: real, cur: real, prev: real)
    requires y == PercentChange(cur, prev)
    ensures prev <= 0.0 ==> y == 0.0
    ensures prev > 0.0 ==> y * prev == (cur - prev) * 100.0
  {
    if prev > 0.0 {
      PercentChangeMeaning(cur, prev);
    }
  }
}
