/**
 The path that is signed: query parameters sorted by key, then by value.

 A query is a map from keys to lists of values, which the source enumerates in any order it likes.
 */
module CanonicalPath {
  import opened Text

  type Query = map<string, seq<string>>

  type Pair = (string, string)

  // Sorted lists.

  predicate Before(p: Pair, r: Pair) {
    Less(p.0, r.0) || (p.0 == r.0 && AtMost(p.1, r.1))
  }

  ghost predicate Sorted(pairs: seq<Pair>) {
    forall i, j | 0 <= i < j < |pairs| :: Before(pairs[i], pairs[j])
  }

  lemma BeforeBothWays(p: Pair, r: Pair)
    requires Before(p, r) && Before(r, p)
    ensures p == r
  {
    LessTotal(p.0, r.0);
    LessTotal(p.1, r.1);
  }

  lemma FirstIsLeast(xs: seq<Pair>, ys: seq<Pair>)
    requires xs != [] && ys != [] && Sorted(xs) && xs[0] != ys[0] && multiset(xs) == multiset(ys)
    ensures Before(xs[0], ys[0])
  {
    assert ys[0] in multiset(ys);
    assert ys[0] in xs;
    var j :| 0 <= j < |xs| && xs[j] == ys[0];
  }

  /** There is one sorted arrangement of a multiset. */
  lemma {:induction false} SortedUnique(xs: seq<Pair>, ys: seq<Pair>)
    requires Sorted(xs) && Sorted(ys) && multiset(xs) == multiset(ys)
    ensures xs == ys
    decreases |xs|
  {
    if xs == [] {
      assert |multiset(ys)| == 0;
    } else {
      assert |multiset(ys)| == |xs|;
      if xs[0] != ys[0] {
        FirstIsLeast(xs, ys);
        FirstIsLeast(ys, xs);
        BeforeBothWays(xs[0], ys[0]);
      }
      Tail(xs);
      Tail(ys);
      SortedUnique(xs[1..], ys[1..]);
    }
  }

  lemma Tail(xs: seq<Pair>)
    requires xs != []
    ensures xs == [xs[0]] + xs[1..] && multiset(xs[1..]) == multiset(xs) - multiset{xs[0]}
  {
    assert xs == [xs[0]] + xs[1..];
  }

  ghost predicate Ascending(xs: seq<string>) {
    forall i, j | 0 <= i < j < |xs| :: AtMost(xs[i], xs[j])
  }

  function Insert(x: string, xs: seq<string>): (r: seq<string>)
    requires Ascending(xs)
    ensures multiset(r) == multiset(xs) + multiset{x}
    ensures Ascending(r)
  {
    if xs == [] then [x]
    else if Less(xs[0], x) then
      assert xs == [xs[0]] + xs[1..];
      var rest := Insert(x, xs[1..]);
      PutFirst(xs[0], x, xs[1..], rest);
      [xs[0]] + rest
    else
      PutFirst(x, x, xs, xs);
      [x] + xs
  }

  /** An element at most all of a list can stand before any arrangement of that list with one more element. */
  lemma PutFirst(least: string, x: string, xs: seq<string>, rest: seq<string>)
    requires Ascending(rest)
    requires forall y | y in multiset(rest) :: y == x || y in xs
    requires || (least == x && (xs == [] || AtMost(x, xs[0])) && Ascending(xs))
             || (Less(least, x) && Ascending([least] + xs))
    ensures Ascending([least] + rest)
  {
    forall j | 0 <= j < |rest| ensures AtMost(least, rest[j]) {
      var y := rest[j];
      assert y in multiset(rest);
      LessTotal(least, x);
      LessTotal(x, x);
      if y in xs {
        var i :| 0 <= i < |xs| && xs[i] == y;
        if least == x {
          if i > 0 { AtMostTransitive(x, xs[0], xs[i]); }
        } else {
          assert ([least] + xs)[0] == least && ([least] + xs)[i + 1] == y;
        }
      }
    }
  }

  /** The strings in ascending order, as the source's sort leaves them. */
  function Sort(xs: seq<string>): (r: seq<string>)
    ensures multiset(r) == multiset(xs)
    ensures Ascending(r)
  {
    if xs == [] then []
    else
      assert xs == [xs[0]] + xs[1..];
      Insert(xs[0], Sort(xs[1..]))
  }

  // What the path should be.

  /** How often a pair occurs in a query. */
  function Count(q: Query, p: Pair): nat {
    if p.0 in q then multiset(q[p.0])[p.1] else 0
  }

  ghost predicate Lists(pairs: seq<Pair>, q: Query) {
    forall p: Pair :: multiset(pairs)[p] == Count(q, p)
  }

  function Item(p: Pair): string {
    p.0 + "=" + p.1
  }

  function Render(pairs: seq<Pair>): string {
    var n := |pairs|;
    if n == 0 then ""
    else if n == 1 then Item(pairs[0])
    else Render(pairs[..n - 1]) + "&" + Item(pairs[n - 1])
  }

  /** The path alone without a query; otherwise every pair of the query, sorted by key and then by value. */
  ghost predicate IsCanonical(path: string, q: Query, s: string) {
    if q == map[] then s == path
    else exists pairs: seq<Pair> :: Sorted(pairs) && Lists(pairs, q) && s == path + "?" + Render(pairs)
  }

  // Computing it.

  ghost predicate Collected(pairs: seq<Pair>, q: Query, keys: seq<string>)
    requires forall k | k in keys :: k in q
  {
    forall p: Pair :: multiset(pairs)[p] == if p.0 in keys then multiset(q[p.0])[p.1] else 0
  }

  ghost predicate CollectedUpTo(pairs: seq<Pair>, q: Query, keys: seq<string>, key: string, values: seq<string>)
    requires forall k | k in keys :: k in q
  {
    forall p: Pair :: multiset(pairs)[p] ==
      if p.0 in keys then multiset(q[p.0])[p.1] else if p.0 == key then multiset(values)[p.1] else 0
  }

  /** Everything collected so far may stand before this pair. */
  ghost predicate AllBefore(pairs: seq<Pair>, p: Pair) {
    forall i | 0 <= i < |pairs| :: Before(pairs[i], p)
  }

  method Keys(q: Query) returns (keys: seq<string>)
    ensures forall k :: multiset(keys)[k] == if k in q then 1 else 0
  {
    keys := [];
    var left := q.Keys;
    while left != {}
      invariant left <= q.Keys
      invariant forall k :: multiset(keys)[k] == if k in q && k !in left then 1 else 0
      decreases left
    {
      var k :| k in left;
      keys := keys + [k];
      left := left - {k};
    }
  }

  lemma AddPair(pairs: seq<Pair>, q: Query, keys: seq<string>, key: string, values: seq<string>, j: nat)
    requires forall k | k in keys :: k in q
    requires key !in keys && j < |values|
    requires CollectedUpTo(pairs, q, keys, key, values[..j])
    ensures CollectedUpTo(pairs + [(key, values[j])], q, keys, key, values[..j + 1])
  {
    assert values[..j + 1] == values[..j] + [values[j]];
  }

  lemma KeyDone(pairs: seq<Pair>, q: Query, keys: seq<string>, key: string, values: seq<string>)
    requires forall k | k in keys :: k in q
    requires key in q && key !in keys && multiset(values) == multiset(q[key])
    requires CollectedUpTo(pairs, q, keys, key, values)
    ensures Collected(pairs, q, keys + [key])
  {
  }

  /** Pairs of earlier keys, and of this key's earlier values, come before the next. */
  lemma ComesLast(pairs: seq<Pair>, q: Query, keys: seq<string>, key: string, values: seq<string>, j: nat)
    requires forall k | k in keys :: k in q && Less(k, key)
    requires Ascending(values) && j < |values|
    requires CollectedUpTo(pairs, q, keys, key, values[..j])
    ensures AllBefore(pairs, (key, values[j]))
  {
    forall i | 0 <= i < |pairs| ensures Before(pairs[i], (key, values[j])) {
      var p := pairs[i];
      assert p in multiset(pairs);
      if p.0 !in keys {
        assert p.0 == key && p.1 in multiset(values[..j]);
        var n :| 0 <= n < j && values[n] == p.1;
      }
    }
  }

  lemma EarlierKeysLess(keys: seq<string>, i: nat)
    requires Ascending(keys) && i < |keys| && forall k :: multiset(keys)[k] <= 1
    ensures keys[i] !in keys[..i]
    ensures forall k | k in keys[..i] :: Less(k, keys[i])
  {
    assert keys == keys[..i] + [keys[i]] + keys[i + 1..];
    assert multiset(keys)[keys[i]] <= 1;
    assert keys[i] !in multiset(keys[..i]);
    forall k | k in keys[..i] ensures Less(k, keys[i]) {
      var n :| 0 <= n < i && keys[n] == k;
      LessTotal(keys[n], keys[i]);
    }
  }

  lemma AllCollected(pairs: seq<Pair>, q: Query, keys: seq<string>)
    requires forall k :: k in keys <==> k in q
    requires Collected(pairs, q, keys)
    ensures Lists(pairs, q)
  {
  }

  lemma KeyBegun(pairs: seq<Pair>, q: Query, keys: seq<string>, key: string)
    requires forall k | k in keys :: k in q
    requires Collected(pairs, q, keys)
    ensures CollectedUpTo(pairs, q, keys, key, [])
  {
  }

  /** What has been written so far, and whether it is still nothing. */
  ghost predicate Written(s: string, first: bool, start: string, pairs: seq<Pair>) {
    Sorted(pairs) && s == start + Render(pairs) && (first <==> pairs == [])
  }

  /** The inner loop: one key's values, which are sorted by now. */
  method WriteKey(s: string, first: bool, key: string, values: seq<string>,
      ghost start: string, ghost pairs: seq<Pair>, ghost q: Query, ghost keys: seq<string>)
    returns (t: string, stillFirst: bool, ghost more: seq<Pair>)
    requires forall k | k in keys :: k in q && Less(k, key)
    requires key in q && key !in keys && Ascending(values) && multiset(values) == multiset(q[key])
    requires Written(s, first, start, pairs) && Collected(pairs, q, keys)
    ensures Written(t, stillFirst, start, more) && Collected(more, q, keys + [key])
  {
    t, stillFirst, more := s, first, pairs;
    KeyBegun(pairs, q, keys, key);
    assert values[..0] == [];
    for j := 0 to |values|
      invariant Written(t, stillFirst, start, more)
      invariant CollectedUpTo(more, q, keys, key, values[..j])
    {
      ghost var p := (key, values[j]);
      ComesLast(more, q, keys, key, values, j);
      AddPair(more, q, keys, key, values, j);
      RenderMore(start, more, p);
      if !stillFirst {
        t := t + "&";
      }
      t := t + key;
      t := t + "=";
      t := t + values[j];
      stillFirst := false;
      more := more + [p];
    }
    assert values[..|values|] == values;
    KeyDone(more, q, keys, key, values);
  }

  ghost predicate StrictlyAscending(keys: seq<string>) {
    forall i, j | 0 <= i < j < |keys| :: Less(keys[i], keys[j])
  }

  method SortedKeys(q: Query) returns (keys: seq<string>)
    ensures forall k :: k in keys <==> k in q
    ensures StrictlyAscending(keys)
    ensures forall i, j | 0 <= i < j < |keys| :: Smaller(keys[i], keys[j])
  {
    keys := Keys(q);
    assert forall k :: k in multiset(keys) <==> k in q;
    keys := Sort(keys);
    assert forall k :: k in keys <==> k in multiset(keys);
    forall i, j | 0 <= i < j < |keys| ensures Less(keys[i], keys[j]) {
      EarlierKeysLess(keys, j);
      assert keys[i] == keys[..j][i];
    }
    forall i, j | 0 <= i < j < |keys| ensures Smaller(keys[i], keys[j]) {
      LessIff(keys[i], keys[j]);
    }
  }

  lemma NotAmongEarlier(keys: seq<string>, i: nat)
    requires StrictlyAscending(keys) && i < |keys|
    ensures keys[i] !in keys[..i] && keys[..i + 1] == keys[..i] + [keys[i]]
    ensures forall k | k in keys[..i] :: Less(k, keys[i])
  {
    LessTotal(keys[i], keys[i]);
  }

  method Compute(path: string, q: Query) returns (s: string)
    ensures IsCanonical(path, q, s)
  {
    if |q| == 0 {
      return path;
    }
    var keys := SortedKeys(q);
    s := path + "?";
    var first := true;
    ghost var start, pairs: seq<Pair> := s, [];
    for i := 0 to |keys|
      invariant Written(s, first, start, pairs) && Collected(pairs, q, keys[..i])
    {
      NotAmongEarlier(keys, i);
      var values := Sort(q[keys[i]]);
      s, first, pairs := WriteKey(s, first, keys[i], values, start, pairs, q, keys[..i]);
    }
    assert keys[..|keys|] == keys;
    AllCollected(pairs, q, keys);
  }

  lemma RenderMore(start: string, pairs: seq<Pair>, p: Pair)
    ensures start + Render(pairs + [p]) ==
      (if pairs == [] then start + Render(pairs) else start + Render(pairs) + "&") + p.0 + "=" + p.1
  {
    var longer := pairs + [p];
    assert longer[..|pairs|] == pairs;
    if pairs != [] {
      assert start + (Render(pairs) + "&" + Item(p)) == start + Render(pairs) + "&" + p.0 + "=" + p.1;
    }
  }

  // In which order the pairs are written.

  /** In this list every pair that goes before by its key, or by its value under one key, stands before the other. */
  ghost predicate WrittenInOrder(pairs: seq<Pair>) {
    forall i, j, n: nat | 0 <= i < |pairs| && 0 <= j < |pairs| && GoesBefore(pairs[i], pairs[j], n) :: i < j
  }

  /** The smaller character at the first difference n, of the keys or, under one key, of the values. */
  predicate GoesBefore(p: Pair, r: Pair, n: nat) {
    SmallerAt(p.0, r.0, n) || (p.0 == r.0 && SmallerAt(p.1, r.1, n))
  }

  lemma SortedIsInOrder(pairs: seq<Pair>)
    requires Sorted(pairs)
    ensures WrittenInOrder(pairs)
  {
    forall i, j, n: nat | 0 <= i < |pairs| && 0 <= j < |pairs| && GoesBefore(pairs[i], pairs[j], n) ensures i < j {
      var p, r := pairs[i], pairs[j];
      LessIff(p.0, r.0);
      LessIff(p.1, r.1);
      LessTotal(p.0, r.0);
      LessTotal(p.1, r.1);
    }
  }

  /** A canonical path writes all pairs of its query, smaller keys first and under one key smaller values first. */
  lemma SmallerFirst(path: string, q: Query, s: string) returns (pairs: seq<Pair>)
    requires IsCanonical(path, q, s) && q != map[]
    ensures Lists(pairs, q) && s == path + "?" + Render(pairs) && WrittenInOrder(pairs)
  {
    pairs :| Sorted(pairs) && Lists(pairs, q) && s == path + "?" + Render(pairs);
    SortedIsInOrder(pairs);
  }

  // What the path determines.

  ghost predicate SamePairs(q: Query, r: Query) {
    forall p: Pair :: Count(q, p) == Count(r, p)
  }

  /** As a parsed query string always is: no key without a value. */
  ghost predicate NoEmptyLists(q: Query) {
    forall k | k in q :: q[k] != []
  }

  lemma BothEmpty(q: Query, r: Query)
    requires SamePairs(q, r) && NoEmptyLists(q) && NoEmptyLists(r)
    ensures q.Keys == r.Keys
  {
    forall k | k in q ensures k in r {
      assert Count(q, (k, q[k][0])) > 0;
    }
    forall k | k in r ensures k in q {
      assert Count(r, (k, r[k][0])) > 0;
    }
  }

  /**
   The path depends only on the multiset of pairs: neither the order of the keys nor the order of any key's values
   changes it.
   */
  lemma OrderIsIrrelevant(path: string, q: Query, r: Query, s: string, t: string)
    requires IsCanonical(path, q, s) && IsCanonical(path, r, t)
    requires SamePairs(q, r) && NoEmptyLists(q) && NoEmptyLists(r)
    ensures s == t
  {
    BothEmpty(q, r);
    if q == map[] {
      assert r == map[];
    } else {
      assert r != map[];
      var xs: seq<Pair> :| Sorted(xs) && Lists(xs, q) && s == path + "?" + Render(xs);
      var ys: seq<Pair> :| Sorted(ys) && Lists(ys, r) && t == path + "?" + Render(ys);
      assert multiset(xs) == multiset(ys);
      SortedUnique(xs, ys);
    }
  }

  /** A pair that a reader of the rendered text could not cut in the wrong place. */
  predicate Plain(p: Pair) {
    '=' !in p.0 && '&' !in p.0 && '&' !in p.1
  }

  ghost predicate AllPlain(q: Query) {
    forall p: Pair | Count(q, p) > 0 :: Plain(p)
  }

  lemma SplitLast(a: string, x: string, b: string, y: string)
    requires '&' !in x && '&' !in y && a + "&" + x == b + "&" + y
    ensures a == b && x == y
  {
    var s := a + "&" + x;
    assert s[|a|] == '&' && s[|b|] == '&';
    assert forall i | |a| < i < |s| :: s[i] == x[i - |a| - 1];
    assert forall i | |b| < i < |s| :: s[i] == y[i - |b| - 1];
    assert s[..|a|] == a && s[|a| + 1..] == x && s[..|b|] == b && s[|b| + 1..] == y;
  }

  lemma ItemInjective(p: Pair, r: Pair)
    requires Plain(p) && Plain(r) && Item(p) == Item(r)
    ensures p == r
  {
    var s := Item(p);
    assert s[|p.0|] == '=' && s[|r.0|] == '=';
    assert forall i | 0 <= i < |p.0| :: s[i] == p.0[i];
    assert forall i | 0 <= i < |r.0| :: s[i] == r.0[i];
    assert s[..|p.0|] == p.0 && s[..|r.0|] == r.0;
    assert s[|p.0| + 1..] == p.1 && s[|r.0| + 1..] == r.1;
  }

  lemma NoAmpersand(p: Pair)
    requires Plain(p)
    ensures '&' !in Item(p) && Item(p) != ""
  {
  }

  lemma HasAmpersand(pairs: seq<Pair>)
    requires |pairs| > 1
    ensures '&' in Render(pairs)
  {
    var front := Render(pairs[..|pairs| - 1]);
    assert Render(pairs)[|front|] == '&';
  }

  lemma {:induction false} RenderInjective(xs: seq<Pair>, ys: seq<Pair>)
    requires (forall p | p in xs :: Plain(p)) && (forall p | p in ys :: Plain(p))
    requires Render(xs) == Render(ys)
    ensures xs == ys
    decreases |xs|
  {
    if |xs| > 0 { NoAmpersand(xs[0]); }
    if |ys| > 0 { NoAmpersand(ys[0]); }
    if |xs| > 1 { HasAmpersand(xs); }
    if |ys| > 1 { HasAmpersand(ys); }
    if |xs| == 1 && |ys| == 1 {
      ItemInjective(xs[0], ys[0]);
    } else if |xs| > 1 && |ys| > 1 {
      var m, n := |xs| - 1, |ys| - 1;
      NoAmpersand(xs[m]);
      NoAmpersand(ys[n]);
      SplitLast(Render(xs[..m]), Item(xs[m]), Render(ys[..n]), Item(ys[n]));
      ItemInjective(xs[m], ys[n]);
      RenderInjective(xs[..m], ys[..n]);
      assert xs == xs[..m] + [xs[m]] && ys == ys[..n] + [ys[n]];
    }
  }

  lemma ListedArePlain(pairs: seq<Pair>, q: Query)
    requires Lists(pairs, q) && AllPlain(q)
    ensures forall p | p in pairs :: Plain(p)
  {
    forall p | p in pairs ensures Plain(p) {
      assert p in multiset(pairs);
      assert Count(q, p) > 0;
    }
  }

  /** Where keys and values hold no separators the path determines the pairs too: equal paths mean equal pairs. */
  lemma PathDeterminesPairsIff(path: string, q: Query, r: Query, s: string, t: string)
    requires IsCanonical(path, q, s) && IsCanonical(path, r, t)
    requires NoEmptyLists(q) && NoEmptyLists(r) && AllPlain(q) && AllPlain(r)
    ensures s == t <==> SamePairs(q, r)
  {
    if SamePairs(q, r) {
      OrderIsIrrelevant(path, q, r, s, t);
    }
    if s == t && q != map[] && r != map[] {
      var xs: seq<Pair> :| Sorted(xs) && Lists(xs, q) && s == path + "?" + Render(xs);
      var ys: seq<Pair> :| Sorted(ys) && Lists(ys, r) && t == path + "?" + Render(ys);
      var n := |path + "?"|;
      assert s[n..] == Render(xs) && t[n..] == Render(ys);
      ListedArePlain(xs, q);
      ListedArePlain(ys, r);
      RenderInjective(xs, ys);
    }
  }

  lemma SplitFirst(a: string, x: string, b: string, y: string)
    requires '?' !in a && '?' !in b && a + "?" + x == b + "?" + y
    ensures a == b && x == y
  {
    var s := a + "?" + x;
    assert s[|a|] == '?' && s[|b|] == '?';
    assert forall i | 0 <= i < |a| :: s[i] == a[i];
    assert forall i | 0 <= i < |b| :: s[i] == b[i];
    assert s[..|a|] == a && s[|a| + 1..] == x && s[..|b|] == b && s[|b| + 1..] == y;
  }

  lemma CanonicalShape(path: string, q: Query, s: string)
    requires IsCanonical(path, q, s) && '?' !in path
    ensures '?' in s <==> q != map[]
    ensures q == map[] ==> s == path
    ensures q != map[] ==> |path| < |s| && s[|path|] == '?' && s == path + "?" + s[|path| + 1..]
  {
    if q != map[] {
      var pairs: seq<Pair> :| Sorted(pairs) && Lists(pairs, q) && s == path + "?" + Render(pairs);
      assert s[|path|] == '?' && s[|path| + 1..] == Render(pairs);
    }
  }

  /** Where the paths hold no question mark either, it determines path and pairs. */
  lemma WholeDeterminesIff(p: string, r: string, q: Query, w: Query, s: string, t: string)
    requires IsCanonical(p, q, s) && IsCanonical(r, w, t) && '?' !in p && '?' !in r
    requires NoEmptyLists(q) && NoEmptyLists(w) && AllPlain(q) && AllPlain(w)
    ensures s == t <==> p == r && SamePairs(q, w)
  {
    if p == r {
      PathDeterminesPairsIff(p, q, w, s, t);
    } else if s == t {
      CanonicalShape(p, q, s);
      CanonicalShape(r, w, t);
      if q != map[] {
        SplitFirst(p, s[|p| + 1..], r, t[|r| + 1..]);
      }
    }
  }

  lemma OneListed(path: string, key: string, value: string, text: string)
    requires text == key + "=" + value
    ensures IsCanonical(path, map[key := [value]], path + "?" + text)
  {
    var q, pairs := map[key := [value]], [(key, value)];
    assert key in q;
    assert Sorted(pairs) && Lists(pairs, q) && Render(pairs) == text;
  }

  lemma TwoListed(path: string, k: string, v: string, l: string, w: string, text: string)
    requires Less(k, l) && text == (k + "=" + v) + "&" + (l + "=" + w)
    ensures IsCanonical(path, map[k := [v], l := [w]], path + "?" + text)
  {
    LessTotal(k, l);
    var q, pairs := map[k := [v], l := [w]], [(k, v), (l, w)];
    assert pairs[..1] == [(k, v)];
    assert Render(pairs) == text;
    assert k in q;
    assert Sorted(pairs) && Lists(pairs, q);
  }

  lemma Reads(k: string, v: string, l: string, w: string)
    ensures k + "=" + (v + "&" + l + "=" + w) == (k + "=" + v) + "&" + (l + "=" + w)
  {
    assert v + "&" + l + "=" + w == v + ("&" + (l + "=" + w));
  }

  lemma DifferentPairs(k: string, both: string, v: string, l: string, w: string)
    requires Less(k, l)
    ensures !SamePairs(map[k := [both]], map[k := [v], l := [w]])
  {
    LessTotal(k, l);
    assert Count(map[k := [both]], (l, w)) == 0 && Count(map[k := [v], l := [w]], (l, w)) == 1;
  }

  /** With separators in a value it does not: the source writes keys and values as they are. */
  lemma SeparatorsClash(path: string, k: string, v: string, l: string, w: string)
    returns (q: Query, r: Query, s: string)
    requires Less(k, l)
    ensures q == map[k := [v + "&" + l + "=" + w]] && r == map[k := [v], l := [w]]
    ensures NoEmptyLists(q) && NoEmptyLists(r) && !SamePairs(q, r)
    ensures IsCanonical(path, q, s) && IsCanonical(path, r, s)
  {
    var both := v + "&" + l + "=" + w;
    var text := k + "=" + both;
    q, r, s := map[k := [both]], map[k := [v], l := [w]], path + "?" + text;
    Reads(k, v, l, w);
    OneListed(path, k, both, text);
    TwoListed(path, k, v, l, w, text);
    DifferentPairs(k, both, v, l, w);
  }

  /** A question mark in the path makes it look like a query: the source writes the decoded path as it is. */
  lemma QuestionMarkClash(path: string, k: string, v: string) returns (s: string)
    ensures IsCanonical(path + "?" + (k + "=" + v), map[], s) && IsCanonical(path, map[k := [v]], s)
  {
    s := path + "?" + (k + "=" + v);
    OneListed(path, k, v, k + "=" + v);
  }

  // The text itself, where there are two pairs.

  lemma OneText(path: string, q: Query, s: string, text: string)
    requires IsCanonical(path, q, path + "?" + text) && NoEmptyLists(q)
    ensures IsCanonical(path, q, s) <==> s == path + "?" + text
  {
    if IsCanonical(path, q, s) {
      OrderIsIrrelevant(path, q, q, s, path + "?" + text);
    }
  }

  /** Two keys: the one with the smaller character at the first difference is written first. */
  lemma TwoKeys(path: string, k: string, v: string, l: string, w: string, n: nat, s: string)
    requires SmallerAt(k, l, n)
    ensures IsCanonical(path, map[k := [v], l := [w]], s) <==>
      s == path + "?" + (k + "=" + v + "&" + l + "=" + w)
  {
    LessIff(k, l);
    var text := (k + "=" + v) + "&" + (l + "=" + w);
    assert text == k + "=" + v + "&" + l + "=" + w;
    TwoListed(path, k, v, l, w, text);
    OneText(path, map[k := [v], l := [w]], s, text);
  }

  lemma ValuesListed(path: string, k: string, v: string, w: string, text: string)
    requires Less(v, w) && text == (k + "=" + v) + "&" + (k + "=" + w)
    ensures IsCanonical(path, map[k := [w, v]], path + "?" + text)
  {
    LessTotal(v, w);
    var q, pairs := map[k := [w, v]], [(k, v), (k, w)];
    assert pairs[..1] == [(k, v)];
    assert Render(pairs) == text;
    assert k in q;
    assert multiset(q[k]) == multiset{v, w};
    assert Sorted(pairs) && Lists(pairs, q);
  }

  /** Two values of one key: the same, in whatever order the request gives them. */
  lemma TwoValues(path: string, k: string, v: string, w: string, n: nat, s: string)
    requires SmallerAt(v, w, n)
    ensures IsCanonical(path, map[k := [w, v]], s) <==> s == path + "?" + (k + "=" + v + "&" + k + "=" + w)
    ensures IsCanonical(path, map[k := [v, w]], s) <==> s == path + "?" + (k + "=" + v + "&" + k + "=" + w)
  {
    LessIff(v, w);
    var text := (k + "=" + v) + "&" + (k + "=" + w);
    assert text == k + "=" + v + "&" + k + "=" + w;
    ValuesListed(path, k, v, w, text);
    OneText(path, map[k := [w, v]], s, text);
    SwapValues(path, k, v, w, s);
  }

  lemma SwapValues(path: string, k: string, v: string, w: string, s: string)
    ensures IsCanonical(path, map[k := [w, v]], s) <==> IsCanonical(path, map[k := [v, w]], s)
  {
    var q, r := map[k := [w, v]], map[k := [v, w]];
    assert multiset(q[k]) == multiset(r[k]);
    assert k in q && k in r;
    assert SamePairs(q, r);
    forall pairs: seq<Pair> ensures Lists(pairs, q) <==> Lists(pairs, r) {
      assert forall p: Pair :: Count(q, p) == Count(r, p);
    }
  }
}
