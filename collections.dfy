/** The array pipelines the scripts build their tables from: a stable descending
    `sort`, `slice(0, n)`, `filter`, `[...new Set(xs)]`, `reduce` sums and objects
    filled key by key. Sorting works on entries that already carry their numeric key,
    as the scripts do when they map rows to `{ municipio, valor }` before sorting. */
module Collections {
  import opened Optional

  /** An item paired with the number it is ranked by. */
  datatype Keyed<T> = Keyed(item: T, key: real)

  predicate SortedDesc<T>(s: seq<Keyed<T>>)
  {
    forall i, j :: 0 <= i < j < |s| ==> s[i].key >= s[j].key
  }

  /** Places `x` before the first entry whose key does not exceed its own. */
  function Insert<T>(x: Keyed<T>, s: seq<Keyed<T>>): (r: seq<Keyed<T>>)
    ensures |r| == |s| + 1
    ensures multiset(r) == multiset(s) + multiset{x}
  {
    if s == [] || x.key >= s[0].key then [x] + s
    else
      assert s == [s[0]] + s[1..];
      [s[0]] + Insert(x, s[1..])
  }

  lemma {:induction false} InsertSorted<T>(x: Keyed<T>, s: seq<Keyed<T>>)
    requires SortedDesc(s)
    ensures SortedDesc(Insert(x, s))
  {
    if s != [] && x.key < s[0].key {
      var rest := Insert(x, s[1..]);
      InsertSorted(x, s[1..]);
      forall y | y in rest ensures y.key <= s[0].key {
        assert y in multiset(rest);
        assert y == x || y in multiset(s[1..]);
      }
      assert Insert(x, s) == [s[0]] + rest;
    }
  }

  /** `sort((a, b) => b.key - a.key)`: JavaScript's sort is stable, so entries with equal
      keys keep their input order (see `SortDescStable`). */
  function SortDesc<T>(s: seq<Keyed<T>>): (r: seq<Keyed<T>>)
    ensures |r| == |s|
    ensures SortedDesc(r)
    ensures multiset(r) == multiset(s)
  {
    if s == [] then []
    else
      var rest := SortDesc(s[1..]);
      InsertSorted(s[0], rest);
      assert s == [s[0]] + s[1..];
      Insert(s[0], rest)
  }

  /** The entries whose key is `v`, in order. */
  function WithKey<T>(s: seq<Keyed<T>>, v: real): seq<Keyed<T>>
  {
    if s == [] then [] else (if s[0].key == v then [s[0]] else []) + WithKey(s[1..], v)
  }

  lemma {:induction false} InsertWithKey<T>(x: Keyed<T>, s: seq<Keyed<T>>, v: real)
    ensures WithKey(Insert(x, s), v) == (if x.key == v then [x] else []) + WithKey(s, v)
  {
    if s == [] || x.key >= s[0].key {
      assert ([x] + s)[1..] == s;
    } else {
      InsertWithKey(x, s[1..], v);
      assert ([s[0]] + Insert(x, s[1..]))[1..] == Insert(x, s[1..]);
    }
  }

  /** Stability: among entries with the same key, the sorted order is the input order. */
  lemma {:induction false} SortDescStable<T>(s: seq<Keyed<T>>, v: real)
    ensures WithKey(SortDesc(s), v) == WithKey(s, v)
  {
    if s != [] {
      SortDescStable(s[1..], v);
      InsertWithKey(s[0], SortDesc(s[1..]), v);
    }
  }

  /** `slice(0, n)`. */
  function Take<T>(s: seq<T>, n: nat): (r: seq<T>)
    ensures |r| == if |s| < n then |s| else n
    ensures r == s[..|r|]
  {
    if |s| <= n then s else s[..n]
  }

  /** The items of the entries, in order (`map(e => e.item)`). */
  function Items<T>(s: seq<Keyed<T>>): (r: seq<T>)
    ensures |r| == |s| && forall k :: 0 <= k < |s| ==> r[k] == s[k].item
  {
    if s == [] then [] else [s[0].item] + Items(s[1..])
  }

  lemma ItemsCons<T>(x: Keyed<T>, s: seq<Keyed<T>>)
    ensures multiset(Items([x] + s)) == multiset{x.item} + multiset(Items(s))
  {
    assert ([x] + s)[1..] == s;
    assert Items([x] + s) == [x.item] + Items(s);
  }

  /** Inserting an entry adds its item to the items. */
  lemma {:induction false} InsertItems<T>(x: Keyed<T>, s: seq<Keyed<T>>)
    ensures multiset(Items(Insert(x, s))) == multiset(Items(s)) + multiset{x.item}
  {
    if s == [] || x.key >= s[0].key {
      assert Insert(x, s) == [x] + s;
      ItemsCons(x, s);
    } else {
      var h, t := s[0], s[1..];
      var u := Insert(x, t);
      assert Insert(x, s) == [h] + u;
      assert s == [h] + t;
      InsertItems(x, t);
      ItemsCons(h, u);
      ItemsCons(h, t);
    }
  }

  /** Sorting rearranges the items and loses none. */
  lemma {:induction false} SortDescItems<T>(s: seq<Keyed<T>>)
    ensures multiset(Items(SortDesc(s))) == multiset(Items(s))
  {
    if s != [] {
      var h, t := s[0], s[1..];
      assert SortDesc(s) == Insert(h, SortDesc(t));
      assert s == [h] + t;
      SortDescItems(t);
      InsertItems(h, SortDesc(t));
      ItemsCons(h, t);
    }
  }

  /** `filter(e => e.key > t)`. */
  function Above<T>(s: seq<Keyed<T>>, t: real): (r: seq<Keyed<T>>)
    ensures forall y :: y in r ==> y in s && y.key > t
    ensures forall y :: y in s && y.key > t ==> y in r
    ensures multiset(r) <= multiset(s)
    ensures |r| <= |s|
  {
    if s == [] then []
    else
      var rest := Above(s[1..], t);
      assert s == [s[0]] + s[1..];
      if s[0].key > t then [s[0]] + rest else rest
  }

  /** Filtering one more entry at the end keeps or adds it. */
  lemma {:induction false} AboveSnoc<T>(s: seq<Keyed<T>>, x: Keyed<T>, t: real)
    ensures Above(s + [x], t) == Above(s, t) + if x.key > t then [x] else []
  {
    if s == [] {
      assert ([] + [x])[1..] == [];
    } else {
      var u := s + [x];
      assert u[0] == s[0] && u[1..] == s[1..] + [x];
      AboveSnoc(s[1..], x, t);
      var tail := if x.key > t then [x] else [];
      var a := Above(s[1..], t);
      if s[0].key > t {
        assert Above(u, t) == [s[0]] + (a + tail);
        assert Above(s, t) == [s[0]] + a;
        assert [s[0]] + (a + tail) == ([s[0]] + a) + tail;
      } else {
        assert Above(u, t) == a + tail;
        assert Above(s, t) == a;
      }
    }
  }

  /** In a descending sequence an entry after position `k` never ranks above one before it. */
  lemma TailBelowHead<T>(s: seq<Keyed<T>>, k: nat, x: Keyed<T>, y: Keyed<T>)
    requires SortedDesc(s) && k <= |s|
    requires x in s[k..] && y in s[..k]
    ensures x.key <= y.key
  {
    var j :| 0 <= j < |s[k..]| && s[k..][j] == x;
    var i :| 0 <= i < k && s[..k][i] == y;
    assert s[i] == y && s[k + j] == x;
  }

  /** The top-`n` of a descending sort: at most `n` entries, in descending order, taken
      from the input, and no entry left out ranks above an entry kept. */
  lemma TopFacts<T>(s: seq<Keyed<T>>, n: nat)
    ensures var r := Take(SortDesc(s), n);
      && |r| == (if |s| < n then |s| else n)
      && SortedDesc(r)
      && multiset(r) <= multiset(s)
      && forall x, y :: x in multiset(s) - multiset(r) && y in r ==> x.key <= y.key
  {
    var sorted := SortDesc(s);
    var r := Take(sorted, n);
    var k := |r|;
    assert sorted == r + sorted[k..];
    assert multiset(sorted) == multiset(r) + multiset(sorted[k..]);
    forall x, y | x in multiset(s) - multiset(r) && y in r ensures x.key <= y.key {
      assert x in multiset(sorted[k..]);
      TailBelowHead(sorted, k, x, y);
    }
  }

  /** `items.map(x => ({ item: x, key: f(x) }))`. */
  function KeyedBy<T>(items: seq<T>, f: T -> real): (s: seq<Keyed<T>>)
    ensures |s| == |items| && forall k :: 0 <= k < |items| ==> s[k] == Keyed(items[k], f(items[k]))
  {
    seq(|items|, k requires 0 <= k < |items| => Keyed(items[k], f(items[k])))
  }

  lemma KeyedByFacts<T>(items: seq<T>, f: T -> real)
    ensures forall e :: e in KeyedBy(items, f) ==> e.key == f(e.item) && e.item in items
  {
    var s := KeyedBy(items, f);
    forall e | e in s ensures e.key == f(e.item) && e.item in items {
      var k :| 0 <= k < |s| && s[k] == e;
    }
  }

  /** `items.sort((a, b) => f(b) - f(a))`, stated on the items: a rearrangement of them in
      descending order of `f`. */
  lemma SortedByKeyFacts<T>(items: seq<T>, f: T -> real)
    ensures var r := Items(SortDesc(KeyedBy(items, f)));
      && |r| == |items|
      && multiset(r) == multiset(items)
      && forall i, j :: 0 <= i < j < |r| ==> f(r[i]) >= f(r[j])
  {
    var keyed := KeyedBy(items, f);
    var sorted := SortDesc(keyed);
    SortDescItems(keyed);
    assert Items(keyed) == items;
    RearrangedKeys(items, f, sorted);
  }

  /** Every entry of a rearrangement of `KeyedBy(items, f)` carries its item's key. */
  lemma RearrangedKeys<T>(items: seq<T>, f: T -> real, s: seq<Keyed<T>>)
    requires multiset(s) == multiset(KeyedBy(items, f))
    ensures forall i :: 0 <= i < |s| ==> s[i].key == f(s[i].item)
  {
    KeyedByFacts(items, f);
    forall i | 0 <= i < |s| ensures s[i].key == f(s[i].item) {
      assert s[i] in multiset(KeyedBy(items, f));
    }
  }

  /** `items.filter(x => f(x) > t).sort(by f, descending).slice(0, n)`, stated on the items:
      there are `n` of them or every item above `t`, every item kept exceeds `t`, and they
      are in descending order of `f`. */
  lemma TopAboveFacts<T>(items: seq<T>, f: T -> real, t: real, n: nat)
    ensures var ex := Above(KeyedBy(items, f), t);
      var r := Items(Take(SortDesc(ex), n));
      && |r| == (if |ex| < n then |ex| else n)
      && (forall x :: x in r ==> x in items && f(x) > t)
      && (forall i, j :: 0 <= i < j < |r| ==> f(r[i]) >= f(r[j]))
  {
    var s := KeyedBy(items, f);
    var ex := Above(s, t);
    var sorted := SortDesc(ex);
    var top := Take(sorted, n);
    var r := Items(top);
    KeyedByFacts(items, f);
    forall e | e in top ensures e.key == f(e.item) && e.item in items && e.key > t {
      assert e in sorted;
      assert e in multiset(sorted);
      assert e in multiset(ex);
    }
    forall x | x in r ensures x in items && f(x) > t {
      var k :| 0 <= k < |r| && r[k] == x;
      assert top[k] in top;
    }
    forall i, j | 0 <= i < j < |r| ensures f(r[i]) >= f(r[j]) {
      assert top[i] in top && top[j] in top;
      assert top[i] == sorted[i] && top[j] == sorted[j];
    }
  }

  /** In a descending sequence an entry past the first `n` never ranks above one of them. */
  lemma LeftOutBelow<T>(sorted: seq<Keyed<T>>, n: nat, e: Keyed<T>, g: Keyed<T>)
    requires SortedDesc(sorted)
    requires e in sorted && e !in Take(sorted, n) && g in Take(sorted, n)
    ensures e.key <= g.key
  {
    var top := Take(sorted, n);
    assert sorted == top + sorted[|top|..];
    TailBelowHead(sorted, |top|, e, g);
  }

  /** No item above `t` that the top-`n` left out ranks above an item kept. */
  lemma TopAboveLeftOut<T>(items: seq<T>, f: T -> real, t: real, n: nat, x: T, y: T)
    requires x in items && f(x) > t
    requires x !in Items(Take(SortDesc(Above(KeyedBy(items, f), t)), n))
    requires y in Items(Take(SortDesc(Above(KeyedBy(items, f), t)), n))
    ensures f(x) <= f(y)
  {
    var s := KeyedBy(items, f);
    var ex := Above(s, t);
    var sorted := SortDesc(ex);
    var top := Take(sorted, n);
    var r := Items(top);
    var e := Keyed(x, f(x));
    assert e in sorted by {
      var h :| 0 <= h < |items| && items[h] == x;
      assert s[h] == e;
      assert e in ex;
      assert e in multiset(ex);
    }
    assert e !in top by {
      forall k | 0 <= k < |top| ensures top[k] != e {
        assert r[k] in r;
      }
    }
    var k :| 0 <= k < |r| && r[k] == y;
    var g := top[k];
    assert g in top;
    assert g.key == f(y) by {
      assert g in sorted;
      assert g in multiset(ex);
      KeyedByFacts(items, f);
    }
    LeftOutBelow(sorted, n, e, g);
  }

  predicate NoDuplicates<T(==)>(s: seq<T>)
  {
    forall i, j :: 0 <= i < j < |s| ==> s[i] != s[j]
  }

  /** A sequence without repeats whose values all occur in `u` is no longer than `u`. */
  lemma {:induction false} NoDuplicatesWithin<T>(d: seq<T>, u: seq<T>)
    requires NoDuplicates(d)
    requires forall x :: x in d ==> x in u
    ensures |d| <= |u|
  {
    if d != [] {
      assert d[0] in d;
      var i :| 0 <= i < |u| && u[i] == d[0];
      var rest := u[..i] + u[i + 1..];
      forall x | x in d[1..] ensures x in rest {
        var h :| 0 <= h < |d[1..]| && d[1..][h] == x;
        assert d[h + 1] == x;
        assert x in d;
        var j :| 0 <= j < |u| && u[j] == x;
        assert x != d[0];
        if j < i {
          assert rest[j] == x;
        } else {
          assert rest[j - 1] == x;
        }
      }
      NoDuplicatesWithin(d[1..], rest);
    }
  }

  /** Index of the first occurrence of `x` in `s`. */
  function FirstIndex<T(==)>(s: seq<T>, x: T): (k: nat)
    requires x in s
    ensures k < |s| && s[k] == x && x !in s[..k]
  {
    if s[0] == x then 0 else 1 + FirstIndex(s[1..], x)
  }

  /** `[...new Set(s)]`: each value once, in order of first appearance. */
  function Distinct<T(==, !new)>(s: seq<T>): (r: seq<T>)
    ensures forall x :: x in r <==> x in s
    ensures NoDuplicates(r)
  {
    if s == [] then []
    else
      var d := Distinct(s[..|s| - 1]);
      assert forall x :: x in s <==> x in s[..|s| - 1] || x == s[|s| - 1];
      if s[|s| - 1] in d then d else d + [s[|s| - 1]]
  }

  lemma FirstIndexOfPrefix<T>(s: seq<T>, n: nat, x: T)
    requires n <= |s| && x in s[..n]
    ensures FirstIndex(s, x) == FirstIndex(s[..n], x)
  {
    if s[0] != x {
      assert s[..n][1..] == s[1..][..n - 1];
      FirstIndexOfPrefix(s[1..], n - 1, x);
    }
  }

  /** `[...new Set(s)]` keeps the order in which values first appear in `s`. */
  lemma {:induction false} DistinctOrder<T(!new)>(s: seq<T>)
    ensures forall i, j :: 0 <= i < j < |Distinct(s)| ==>
      FirstIndex(s, Distinct(s)[i]) < FirstIndex(s, Distinct(s)[j])
  {
    if s != [] {
      var n := |s| - 1;
      var p := s[..n];
      DistinctOrder(p);
      var d := Distinct(p);
      forall i, j | 0 <= i < j < |Distinct(s)|
        ensures FirstIndex(s, Distinct(s)[i]) < FirstIndex(s, Distinct(s)[j])
      {
        var a, b := Distinct(s)[i], Distinct(s)[j];
        assert a in d;
        FirstIndexOfPrefix(s, n, a);
        if j < |d| {
          assert b == d[j] && a == d[i];
          FirstIndexOfPrefix(s, n, b);
        } else {
          assert b == s[n] && b !in p;
          assert FirstIndex(s, b) == n;
        }
      }
    }
  }

  /** `s[k]`, `undefined` outside the sequence. */
  function Element<T>(s: seq<T>, k: int): (r: Option<T>)
    ensures r.Some? <==> 0 <= k < |s|
    ensures 0 <= k < |s| ==> r.value == s[k]
  {
    if 0 <= k < |s| then Some(s[k]) else None
  }

  function SumInts(s: seq<int>): int
  {
    if s == [] then 0 else SumInts(s[..|s| - 1]) + s[|s| - 1]
  }

  function SumReals(s: seq<real>): real
  {
    if s == [] then 0.0 else SumReals(s[..|s| - 1]) + s[|s| - 1]
  }

  /** An object filled by `obj[key] = value` for each pair in turn: a later pair with the
      same key overwrites an earlier one (see `ObjectOfLastWins`). */
  function ObjectOf<K, V>(pairs: seq<(K, V)>): map<K, V>
  {
    if pairs == [] then map[]
    else
      var n := |pairs| - 1;
      ObjectOf(pairs[..n])[pairs[n].0 := pairs[n].1]
  }

  /** The object's keys are the keys of the pairs, and each value it holds comes from a
      pair with that key. */
  lemma {:induction false} ObjectOfKeys<K, V>(pairs: seq<(K, V)>)
    ensures ObjectOf(pairs).Keys == set p | p in pairs :: p.0
    ensures forall k :: k in ObjectOf(pairs) ==> (k, ObjectOf(pairs)[k]) in pairs
  {
    if pairs != [] {
      var n := |pairs| - 1;
      ObjectOfKeys(pairs[..n]);
      assert pairs == pairs[..n] + [pairs[n]];
    }
  }

  /** The value an object holds for a key is the one from the last pair with that key. */
  lemma {:induction false} ObjectOfLastWins<K, V>(pairs: seq<(K, V)>, i: nat)
    requires i < |pairs|
    requires forall j :: i < j < |pairs| ==> pairs[j].0 != pairs[i].0
    ensures pairs[i].0 in ObjectOf(pairs) && ObjectOf(pairs)[pairs[i].0] == pairs[i].1
  {
    var n := |pairs| - 1;
    if i < n {
      ObjectOfLastWins(pairs[..n], i);
    }
  }

  /** The keys of the pairs, in order. */
  function KeysOf<K, V>(pairs: seq<(K, V)>): (ks: seq<K>)
    ensures |ks| == |pairs| && forall k :: 0 <= k < |pairs| ==> ks[k] == pairs[k].0
  {
    seq(|pairs|, k requires 0 <= k < |pairs| => pairs[k].0)
  }

  /** `Object.values` of the object the pairs fill: one value per key, in the order in
      which the keys were first set. */
  function ObjectValues<K(==, !new), V>(pairs: seq<(K, V)>): (vs: seq<V>)
  {
    var m := ObjectOf(pairs);
    var names := Distinct(KeysOf(pairs));
    ObjectOfKeys(pairs);
    assert forall x :: x in names ==> x in m by {
      forall x | x in names ensures x in m {
        var k :| 0 <= k < |pairs| && KeysOf(pairs)[k] == x;
        assert pairs[k] in pairs;
      }
    }
    seq(|names|, i requires 0 <= i < |names| => m[names[i]])
  }

  /** The values listed are exactly the object's values, and there are some unless there
      are no pairs. */
  lemma ObjectValuesFacts<K(!new), V>(pairs: seq<(K, V)>)
    ensures forall x :: x in ObjectValues(pairs) <==> x in ObjectOf(pairs).Values
    ensures ObjectValues(pairs) == [] <==> pairs == []
  {
    var m := ObjectOf(pairs);
    var keys := KeysOf(pairs);
    var names := Distinct(keys);
    var vs := ObjectValues(pairs);
    ObjectOfKeys(pairs);
    forall x | x in m.Values ensures x in vs {
      var key :| key in m && m[key] == x;
      var k :| 0 <= k < |pairs| && pairs[k] == (key, m[key]);
      assert keys[k] == key && keys[k] in keys;
      var i :| 0 <= i < |names| && names[i] == key;
      assert vs[i] == x;
    }
    forall x | x in vs ensures x in m.Values {
      var i :| 0 <= i < |vs| && vs[i] == x;
      assert names[i] in names;
    }
    if pairs != [] {
      assert keys[0] in keys;
      assert keys[0] in names;
    }
  }

  /** The pairs `(keys[i], v)` for the positions where `vals[i]` is `Some(v)`, in order: the
      assignments of a loop that sets `obj[keys[i]]` only when there is a value. */
  function PresentPairs<K, V>(keys: seq<K>, vals: seq<Option<V>>): seq<(K, V)>
    requires |keys| == |vals|
  {
    if keys == [] then []
    else
      var n := |keys| - 1;
      PresentPairs(keys[..n], vals[..n]) + if vals[n].Some? then [(keys[n], vals[n].value)] else []
  }

  lemma {:induction false} PresentPairsFacts<K, V>(keys: seq<K>, vals: seq<Option<V>>)
    requires |keys| == |vals|
    ensures forall p :: p in PresentPairs(keys, vals) ==>
      exists i :: 0 <= i < |keys| && keys[i] == p.0 && vals[i] == Some(p.1)
    ensures forall i :: 0 <= i < |keys| && vals[i].Some? ==> (keys[i], vals[i].value) in PresentPairs(keys, vals)
  {
    if keys != [] {
      var n := |keys| - 1;
      PresentPairsFacts(keys[..n], vals[..n]);
      var rest := PresentPairs(keys[..n], vals[..n]);
      forall p | p in PresentPairs(keys, vals)
        ensures exists i :: 0 <= i < |keys| && keys[i] == p.0 && vals[i] == Some(p.1)
      {
        if p in rest {
          var i :| 0 <= i < n && keys[..n][i] == p.0 && vals[..n][i] == Some(p.1);
          assert keys[i] == p.0 && vals[i] == Some(p.1);
        } else {
          assert keys[n] == p.0 && vals[n] == Some(p.1);
        }
      }
      forall i | 0 <= i < |keys| && vals[i].Some? ensures (keys[i], vals[i].value) in PresentPairs(keys, vals) {
        if i < n {
          assert keys[..n][i] == keys[i] && vals[..n][i] == vals[i];
        }
      }
    }
  }

  /** In the object filled from `PresentPairs`, a key that occurs once is present exactly
      when its position has a value, and then holds that value. */
  lemma PresentPairsKey<K, V>(keys: seq<K>, vals: seq<Option<V>>, i: nat)
    requires |keys| == |vals| && i < |keys|
    requires forall j :: 0 <= j < |keys| && j != i ==> keys[j] != keys[i]
    ensures var m := ObjectOf(PresentPairs(keys, vals));
      && (keys[i] in m <==> vals[i].Some?)
      && (keys[i] in m ==> m[keys[i]] == vals[i].value)
  {
    var ps := PresentPairs(keys, vals);
    var m := ObjectOf(ps);
    ObjectOfKeys(ps);
    PresentPairsFacts(keys, vals);
    if keys[i] in m {
      assert (keys[i], m[keys[i]]) in ps;
    }
    if vals[i].Some? {
      assert (keys[i], vals[i].value) in ps;
    }
  }
}
