/**
 Meters: decimal quantities by name. The source keeps them as decimal strings, reads an absent name and the
 empty string as zero, and adds and subtracts the numbers; here a quantity is the number itself.
 */
module Meters {

  type Meters = map<string, real>

  /** The quantity of one meter, zero when the name is absent. */
  function At(m: Meters, name: string): real {
    if name in m then m[name] else 0.0
  }

  predicate NonNegative(m: Meters) {
    forall name | name in m :: m[name] >= 0.0
  }

  /** Adds b to a, name by name. */
  function Add(a: Meters, b: Meters): (c: Meters)
    ensures c.Keys == a.Keys + b.Keys
    ensures forall name :: At(c, name) == At(a, name) + At(b, name)
  {
    map name | name in a.Keys + b.Keys :: At(a, name) + At(b, name)
  }

  /** a is at most b in every meter. */
  ghost predicate Within(a: Meters, b: Meters) {
    forall name :: At(a, name) <= At(b, name)
  }

  function Max(a: real, b: real): real {
    if a < b then b else a
  }

  function Min(a: real, b: real): real {
    if a < b then a else b
  }

  /** The sum of all values of a finite map, one arbitrary key at a time. */
  ghost function Sum<K(!new)>(f: map<K, real>): real
    decreases |f|
  {
    if f == map[] then 0.0
    else
      var k :| k in f;
      f[k] + Sum(f - {k})
  }

  /** The arbitrary choice inside Sum does not matter. */
  lemma {:induction false} SumRemove<K(!new)>(f: map<K, real>, k: K)
    requires k in f
    ensures Sum(f) == f[k] + Sum(f - {k})
    decreases |f|
  {
    assert f != map[];
    var j :| j in f && Sum(f) == f[j] + Sum(f - {j});
    if j != k {
      SumRemove(f - {j}, k);
      SumRemove(f - {k}, j);
      assert f - {j} - {k} == f - {k} - {j};
    }
  }

  lemma SumPut<K(!new)>(f: map<K, real>, k: K, v: real)
    ensures Sum(f[k := v]) == Sum(f) + v - (if k in f then f[k] else 0.0)
  {
    SumRemove(f[k := v], k);
    assert f[k := v] - {k} == f - {k};
    if k in f {
      SumRemove(f, k);
    } else {
      assert f - {k} == f;
    }
  }

  lemma {:induction false} SumMonotone<K(!new)>(f: map<K, real>, g: map<K, real>)
    requires f.Keys == g.Keys
    requires forall k | k in f :: f[k] <= g[k]
    ensures Sum(f) <= Sum(g)
    decreases |f|
  {
    if f == map[] {
      assert g == map[];
    } else {
      var k :| k in f;
      SumRemove(f, k);
      SumRemove(g, k);
      SumMonotone(f - {k}, g - {k});
    }
  }

  lemma {:induction false} SumNonNegative<K(!new)>(f: map<K, real>)
    requires forall k | k in f :: f[k] >= 0.0
    ensures Sum(f) >= 0.0
    ensures forall k | k in f :: f[k] <= Sum(f)
    decreases |f|
  {
    if f != map[] {
      var k :| k in f;
      SumRemove(f, k);
      SumNonNegative(f - {k});
      forall j | j in f ensures f[j] <= Sum(f) {
        if j != k {
          assert j in f - {k};
        }
      }
    }
  }

  lemma {:induction false} SumZero<K(!new)>(f: map<K, real>)
    requires forall k | k in f :: f[k] == 0.0
    ensures Sum(f) == 0.0
    decreases |f|
  {
    if f != map[] {
      var k :| k in f;
      SumRemove(f, k);
      SumZero(f - {k});
    }
  }

  /** Extra keys that contribute nothing leave a sum as it is. */
  lemma {:induction false} SumPad<K(!new)>(f: map<K, real>, g: map<K, real>)
    requires f.Keys <= g.Keys
    requires forall k | k in g :: g[k] == if k in f then f[k] else 0.0
    ensures Sum(f) == Sum(g)
    decreases |g|
  {
    if f.Keys == g.Keys {
      assert f == g;
    } else {
      assert !(g.Keys <= f.Keys);
      var k :| k in g && k !in f;
      SumRemove(g, k);
      SumPad(f, g - {k});
    }
  }

  lemma {:induction false} SumWithinThree<K(!new)>(f: map<K, real>, a: map<K, real>, b: map<K, real>, c: map<K, real>)
    requires f.Keys == a.Keys == b.Keys == c.Keys
    requires forall k | k in f :: f[k] <= a[k] + b[k] + c[k]
    ensures Sum(f) <= Sum(a) + Sum(b) + Sum(c)
    decreases |f|
  {
    if f == map[] {
      assert a == map[] && b == map[] && c == map[];
    } else {
      var k :| k in f;
      SumRemove(f, k);
      SumRemove(a, k);
      SumRemove(b, k);
      SumRemove(c, k);
      SumWithinThree(f - {k}, a - {k}, b - {k}, c - {k});
    }
  }
}
