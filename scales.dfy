/** The numeric helpers behind the map markers: `Math.max`/`Math.min` over a list of
    values, the positive values of a list, a linear scale between two sizes and the
    circle-size rule the heatmap and regional snapshots share. */
module Scales {
  import opened Optional

  /** `Math.max(...s)`; `None` stands for `-Infinity`, the maximum of no values. */
  function MaxOf(s: seq<real>): (m: Option<real>)
    ensures m.None? <==> s == []
    ensures m.Some? ==> m.value in s && forall x :: x in s ==> x <= m.value
  {
    if s == [] then None
    else
      var n := |s| - 1;
      var rest := MaxOf(s[..n]);
      assert forall x :: x in s ==> x in s[..n] || x == s[n];
      if rest.Some? && rest.value >= s[n] then rest else Some(s[n])
  }

  /** `Math.max(...s, floor)`. */
  function MaxWith(s: seq<real>, floor: real): (m: real)
    ensures m >= floor && forall x :: x in s ==> x <= m
    ensures m == floor || m in s
  {
    var mx := MaxOf(s);
    if mx.Some? && mx.value > floor then mx.value else floor
  }

  /** `filter(v => v > 0)`. */
  function Positives(s: seq<real>): (r: seq<real>)
    ensures forall x :: x in r <==> x in s && x > 0.0
    ensures |r| <= |s|
  {
    if s == [] then []
    else
      var n := |s| - 1;
      assert forall x :: x in s ==> x in s[..n] || x == s[n];
      Positives(s[..n]) + if s[n] > 0.0 then [s[n]] else []
  }

  /** A list without positive values has no positive values to keep. */
  lemma {:induction false} NoPositives(s: seq<real>)
    requires forall x :: x in s ==> x <= 0.0
    ensures Positives(s) == []
  {
    if s != [] {
      var n := |s| - 1;
      assert forall x :: x in s[..n] ==> x in s;
      NoPositives(s[..n]);
      assert s[n] in s;
    }
  }

  /** `Math.min(...s.filter(v => v > 0))`; `None` stands for `Infinity`, the minimum of no
      values. */
  function MinPositive(s: seq<real>): (m: Option<real>)
    ensures m.None? <==> forall x :: x in s ==> x <= 0.0
    ensures m.Some? ==> m.value in s && m.value > 0.0 && forall x :: x in s && x > 0.0 ==> m.value <= x
  {
    if s == [] then None
    else
      var n := |s| - 1;
      var rest := MinPositive(s[..n]);
      assert forall x :: x in s ==> x in s[..n] || x == s[n];
      assert forall x :: x in s[..n] ==> x in s;
      if s[n] <= 0.0 || (rest.Some? && rest.value <= s[n]) then rest else Some(s[n])
  }

  /** A positive value of the list lies between the smallest positive value and the maximum. */
  lemma PositiveBetween(s: seq<real>, v: real)
    requires v in s && v > 0.0
    ensures MinPositive(s).Some? && MaxOf(s).Some?
    ensures 0.0 < MinPositive(s).value <= v <= MaxOf(s).value
  {
  }

  /** A linear scale from `lo` at `a` to `hi` at `b`. */
  function Lerp(lo: real, hi: real, v: real, a: real, b: real): real
    requires a != b
  {
    lo + (v - a) / (b - a) * (hi - lo)
  }

  lemma RatioBounds(v: real, a: real, b: real)
    requires a < b && a <= v <= b
    ensures 0.0 <= (v - a) / (b - a) <= 1.0
  {
    var d := b - a;
    var t := (v - a) / d;
    assert t * d == v - a;
    if t > 1.0 {
      assert t * d > 1.0 * d;
    }
  }

  /** A positive value over a maximum at least as large is in `(0, 1]`. */
  lemma UnitRatio(v: real, m: real)
    requires 0.0 < v <= m
    ensures 0.0 < v / m <= 1.0
  {
    RatioBounds(v, 0.0, m);
  }

  lemma ScaleBounds(t: real, w: real)
    requires 0.0 <= t <= 1.0 && w >= 0.0
    ensures 0.0 <= t * w <= w
  {
  }

  /** Between `a` and `b` the scale stays between `lo` and `hi`, and meets them at the ends. */
  lemma LerpBounds(lo: real, hi: real, v: real, a: real, b: real)
    requires a < b && a <= v <= b && lo <= hi
    ensures lo <= Lerp(lo, hi, v, a, b) <= hi
    ensures v == a ==> Lerp(lo, hi, v, a, b) == lo
    ensures v == b ==> Lerp(lo, hi, v, a, b) == hi
  {
    RatioBounds(v, a, b);
    ScaleBounds((v - a) / (b - a), hi - lo);
  }

  /** The sizes of a circle rule: the range of the linear scale, the size used when the
      maximum is at most 1 and the one used when maximum and minimum coincide. */
  datatype CircleRule = CircleRule(minSize: real, maxSize: real, small: real, equal: real)

  predicate ValidRule(rule: CircleRule)
  {
    rule.minSize <= rule.small <= rule.maxSize && rule.minSize <= rule.equal <= rule.maxSize
  }

  /** The circle size of a positive value `v` given the smallest positive value `gmin` and
      the maximum `gmax` of the data: a fixed size when `gmax <= 1` or `gmax == gmin`,
      otherwise the linear scale, and never below the minimum size. */
  function CircleSize(rule: CircleRule, v: real, gmin: real, gmax: real): (r: real)
    ensures r >= rule.minSize
  {
    var size :=
      if gmax <= 1.0 then rule.small
      else if gmax == gmin then rule.equal
      else Lerp(rule.minSize, rule.maxSize, v, gmin, gmax);
    if size > rule.minSize then size else rule.minSize
  }

  /** The three branches of the rule: `small` when the maximum is at most 1, `equal` when
      maximum and minimum coincide, and otherwise the linear scale from `minSize` at the
      minimum to `maxSize` at the maximum, which the final `Math.max` leaves untouched for
      a value between the two. */
  lemma CircleSizeCases(rule: CircleRule, v: real, gmin: real, gmax: real)
    requires ValidRule(rule)
    ensures gmax <= 1.0 ==> CircleSize(rule, v, gmin, gmax) == rule.small
    ensures gmax > 1.0 && gmax == gmin ==> CircleSize(rule, v, gmin, gmax) == rule.equal
    ensures gmax > 1.0 && gmin < gmax && gmin <= v <= gmax ==>
      CircleSize(rule, v, gmin, gmax) == Lerp(rule.minSize, rule.maxSize, v, gmin, gmax)
  {
    if gmax > 1.0 && gmin < gmax && gmin <= v <= gmax {
      LerpBounds(rule.minSize, rule.maxSize, v, gmin, gmax);
    }
  }

  /** The circle of a positive value taken from `values` stays within the rule's range; the
      smallest positive value gets the minimum size and the largest the maximum size when
      the scale applies. */
  lemma CircleSizeBounds(rule: CircleRule, v: real, values: seq<real>)
    requires ValidRule(rule) && v in values && v > 0.0
    ensures MinPositive(values).Some? && MaxOf(values).Some?
    ensures var (gmin, gmax) := (MinPositive(values).value, MaxOf(values).value);
      && rule.minSize <= CircleSize(rule, v, gmin, gmax) <= rule.maxSize
      && (gmax > 1.0 && gmin != gmax && v == gmin ==> CircleSize(rule, v, gmin, gmax) == rule.minSize)
      && (gmax > 1.0 && gmin != gmax && v == gmax ==> CircleSize(rule, v, gmin, gmax) == rule.maxSize)
  {
    PositiveBetween(values, v);
    var gmin, gmax := MinPositive(values).value, MaxOf(values).value;
    if gmax > 1.0 && gmax != gmin {
      LerpBounds(rule.minSize, rule.maxSize, v, gmin, gmax);
    }
  }
}
