/** The threshold ladders behind the colour and class choices of the maps: a chain of
    `if (v >= t) return ...` or `if (v > t) return ...` tests tried in order, the first one
    that passes choosing the result, and a last result when none passes. */
module Ladders {
  /** One rung: an inclusive (`>=`) or a strict (`>`) lower bound. */
  datatype Test = AtLeast(bound: real) | Over(bound: real)

  predicate Passes(t: Test, v: real)
  {
    match t
    case AtLeast(b) => v >= b
    case Over(b) => v > b
  }

  /** The index of the first rung `v` passes, or `|tests|` when it passes none. */
  function Band(tests: seq<Test>, v: real): (k: nat)
    ensures k <= |tests|
    ensures k < |tests| ==> Passes(tests[k], v)
    ensures forall j :: 0 <= j < k ==> !Passes(tests[j], v)
  {
    if tests == [] then 0
    else if Passes(tests[0], v) then 0
    else 1 + Band(tests[1..], v)
  }

  /** The result a ladder with results `palette` (one per rung, then the last one) gives. */
  function Pick<T>(tests: seq<Test>, palette: seq<T>, v: real): (r: T)
    requires |palette| == |tests| + 1
    ensures r in palette
  {
    palette[Band(tests, v)]
  }

  /** A larger value never lands on a later rung: ladders are monotone whatever their
      bounds, since passing a rung stays true for larger values. */
  lemma BandMonotone(tests: seq<Test>, v: real, w: real)
    requires v <= w
    ensures Band(tests, w) <= Band(tests, v)
  {
    var k := Band(tests, v);
    if k < |tests| {
      assert Passes(tests[k], w);
    }
  }

  /** Passing rung `s` implies passing rung `t`. */
  predicate Implies(s: Test, t: Test)
  {
    match (s, t)
    case (AtLeast(a), Over(b)) => a > b
    case _ => s.bound >= t.bound
  }

  /** Rungs whose bounds decrease, so that passing one rung implies passing the next. */
  predicate Nested(tests: seq<Test>)
  {
    forall i :: 0 <= i < |tests| - 1 ==> Implies(tests[i], tests[i + 1])
  }

  /** On nested rungs a value lands on rung `k` exactly when it passes rung `k` and fails the
      rung before it. */
  lemma {:induction false} BandBetween(tests: seq<Test>, v: real, k: nat)
    requires Nested(tests) && k <= |tests|
    ensures Band(tests, v) == k <==>
      (k == |tests| || Passes(tests[k], v)) && (k == 0 || !Passes(tests[k - 1], v))
  {
    var b := Band(tests, v);
    if b < k && (k == 0 || !Passes(tests[k - 1], v)) {
      PassesLater(tests, v, b, k - 1);
    }
    if b > k && k < |tests| {
      assert !Passes(tests[k], v);
    }
  }

  lemma {:induction false} PassesLater(tests: seq<Test>, v: real, i: nat, j: nat)
    requires Nested(tests) && i <= j < |tests| && Passes(tests[i], v)
    ensures Passes(tests[j], v)
    decreases j - i
  {
    if i < j {
      assert Implies(tests[i], tests[i + 1]);
      PassesLater(tests, v, i + 1, j);
    }
  }

  predicate NoRepeats<T(==)>(p: seq<T>)
  {
    forall i, j :: 0 <= i < j < |p| ==> p[i] != p[j]
  }

  /** On nested rungs and a palette without repeats, a value gets result `k` exactly when
      it passes rung `k` and fails the rung before it. */
  lemma PickBetween<T>(tests: seq<Test>, palette: seq<T>, v: real)
    requires Nested(tests) && |palette| == |tests| + 1 && NoRepeats(palette)
    ensures forall k :: 0 <= k <= |tests| ==>
      (Pick(tests, palette, v) == palette[k] <==>
        (k == |tests| || Passes(tests[k], v)) && (k == 0 || !Passes(tests[k - 1], v)))
  {
    forall k | 0 <= k <= |tests|
      ensures Pick(tests, palette, v) == palette[k] <==>
        (k == |tests| || Passes(tests[k], v)) && (k == 0 || !Passes(tests[k - 1], v))
    {
      BandBetween(tests, v, k);
      var b := Band(tests, v);
      if b != k {
        if b < k {
          assert palette[b] != palette[k];
        } else {
          assert palette[k] != palette[b];
        }
      }
    }
  }

  /** `PickBetween` for one result. */
  lemma PickAt<T>(tests: seq<Test>, palette: seq<T>, v: real, k: nat)
    requires Nested(tests) && |palette| == |tests| + 1 && NoRepeats(palette) && k <= |tests|
    ensures Pick(tests, palette, v) == palette[k] <==>
      (k == |tests| || Passes(tests[k], v)) && (k == 0 || !Passes(tests[k - 1], v))
  {
    PickBetween(tests, palette, v);
  }

  /** Two ladders over the same rungs pick corresponding results: when both palettes have
      no repeats, one result determines the other. */
  lemma SameRungs<S, T>(tests: seq<Test>, p: seq<S>, q: seq<T>, v: real, w: real)
    requires |p| == |tests| + 1 && |q| == |tests| + 1
    requires NoRepeats(p) && NoRepeats(q)
    ensures Pick(tests, p, v) == Pick(tests, p, w) <==> Pick(tests, q, v) == Pick(tests, q, w)
  {
    var a, b := Band(tests, v), Band(tests, w);
    if a != b {
      if a < b {
        assert p[a] != p[b] && q[a] != q[b];
      } else {
        assert p[b] != p[a] && q[b] != q[a];
      }
    }
  }
}
