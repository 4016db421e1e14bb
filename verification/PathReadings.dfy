/**
 Which requests one canonical path stands for.

 The path is written decoded and pairs unescaped, so a reader can cut it in more than one place. Both results are exact
 conditions on one request, for every request.
 */
module PathReadings {
  import opened CanonicalPath

  /** Another path, or other pairs, with the same canonical path. */
  ghost predicate Another(p: string, q: Query, r: string, w: Query, s: string) {
    NoEmptyLists(w) && IsCanonical(r, w, s) && (r != p || !SamePairs(q, w))
  }

  /** A path that could be read as a shorter path and a query. */
  predicate HoldsQuery(p: string) {
    exists i, j | 0 <= i < j < |p| :: p[i] == '?' && p[j] == '='
  }

  lemma HasEquals(pairs: seq<Pair>)
    requires pairs != []
    ensures '=' in Render(pairs)
  {
    var last := |pairs| - 1;
    var before := if last == 0 then "" else Render(pairs[..last]) + "&";
    assert Render(pairs) == before + Item(pairs[last]);
    assert Render(pairs)[|before| + |pairs[last].0|] == '=';
  }

  /** The text of a query, cut at any of its equals signs. */
  lemma CutAt(s: string, path: string, i: nat) returns (w: Query)
    requires |path| < i < |s| && s[i] == '=' && s[..|path| + 1] == path + "?"
    ensures IsCanonical(path, w, s) && NoEmptyLists(w)
    ensures w == map[s[|path| + 1..i] := [s[i + 1..]]]
  {
    var key, value := s[|path| + 1..i], s[i + 1..];
    OneListed(path, key, value, key + "=" + value);
    assert s == path + "?" + (key + "=" + value);
    w := map[key := [value]];
  }

  lemma WholeAsPath(p: string, q: Query, s: string)
    requires IsCanonical(p, q, s) && q != map[]
    ensures Another(p, q, s, map[], s)
  {
    var pairs: seq<Pair> :| Sorted(pairs) && Lists(pairs, q) && s == p + "?" + Render(pairs);
    assert |s| > |p|;
  }

  lemma PathAsQuery(p: string) returns (r: string, w: Query)
    requires HoldsQuery(p)
    ensures Another(p, map[], r, w, p)
  {
    var i, j :| 0 <= i < j < |p| && p[i] == '?' && p[j] == '=';
    r := p[..i];
    w := CutAt(p, r, j);
  }

  lemma OnlyItself(p: string, r: string, w: Query)
    requires Another(p, map[], r, w, p)
    ensures HoldsQuery(p)
  {
    if w != map[] {
      var pairs: seq<Pair> :| Sorted(pairs) && Lists(pairs, w) && p == r + "?" + Render(pairs);
      var k :| k in w;
      assert Count(w, (k, w[k][0])) > 0;
      HasEquals(pairs);
      var n :| 0 <= n < |Render(pairs)| && Render(pairs)[n] == '=';
      assert p[|r|] == '?' && p[|r| + 1 + n] == '=';
    }
  }

  /** A request shares its canonical path with another exactly when it has a query or its path could be read as one. */
  lemma AnotherIff(p: string, q: Query, s: string)
    requires IsCanonical(p, q, s) && NoEmptyLists(q)
    ensures (exists r, w :: Another(p, q, r, w, s)) <==> q != map[] || HoldsQuery(p)
  {
    if q != map[] {
      WholeAsPath(p, q, s);
    } else {
      if r, w :| Another(p, q, r, w, s) { OnlyItself(p, r, w); }
      if HoldsQuery(p) { var r, w := PathAsQuery(p); }
    }
  }

  // With question marks in paths refused.

  /** Two equals signs after the path and its question mark. */
  predicate TwoEquals(p: string, s: string) {
    exists i, j | |p| < i < j < |s| :: s[i] == '=' && s[j] == '='
  }

  lemma SecondEquals(pairs: seq<Pair>)
    requires |pairs| > 1
    ensures exists i, j | 0 <= i < j < |Render(pairs)| :: Render(pairs)[i] == '=' && Render(pairs)[j] == '='
  {
    var last := |pairs| - 1;
    var front := Render(pairs[..last]);
    HasEquals(pairs[..last]);
    var i :| 0 <= i < |front| && front[i] == '=';
    var j := |front| + 1 + |pairs[last].0|;
    assert Render(pairs)[i] == '=' && Render(pairs)[j] == '=';
  }

  lemma SameCut(p: Pair, r: Pair)
    requires Item(p) == Item(r)
    requires forall i, j | 0 <= i < |Item(p)| && 0 <= j < |Item(p)| && Item(p)[i] == '=' && Item(p)[j] == '=' :: i == j
    ensures p == r
  {
    var s := Item(p);
    assert s[|p.0|] == '=' && s[|r.0|] == '=';
    assert s[..|p.0|] == p.0 && s[..|r.0|] == r.0 && s[|p.0| + 1..] == p.1 && s[|r.0| + 1..] == r.1;
  }

  /** With a single equals sign a text renders one list of pairs. */
  lemma OneReading(xs: seq<Pair>, ys: seq<Pair>)
    requires xs != [] && ys != [] && Render(xs) == Render(ys)
    requires forall i, j |
      0 <= i < |Render(xs)| && 0 <= j < |Render(xs)| && Render(xs)[i] == '=' && Render(xs)[j] == '=' :: i == j
    ensures xs == ys
  {
    if |xs| > 1 {
      SecondEquals(xs);
    } else if |ys| > 1 {
      SecondEquals(ys);
    } else {
      SameCut(xs[0], ys[0]);
    }
  }

  lemma Listed(path: string, q: Query, s: string) returns (pairs: seq<Pair>)
    requires IsCanonical(path, q, s) && NoEmptyLists(q) && q != map[]
    ensures Lists(pairs, q) && pairs != [] && s == path + "?" + Render(pairs)
  {
    pairs :| Sorted(pairs) && Lists(pairs, q) && s == path + "?" + Render(pairs);
    var k :| k in q;
    assert Count(q, (k, q[k][0])) > 0;
  }

  /** With a single equals sign in it the query text can be cut in one place only. */
  lemma OneCut(p: string, q: Query, w: Query, s: string)
    requires IsCanonical(p, q, s) && IsCanonical(p, w, s) && NoEmptyLists(q) && NoEmptyLists(w) && !TwoEquals(p, s)
    requires q != map[] && w != map[]
    ensures SamePairs(q, w)
  {
    var xs := Listed(p, q, s);
    var ys := Listed(p, w, s);
    var n, text := |p| + 1, Render(xs);
    assert s[n..] == Render(xs) && s[n..] == Render(ys);
    forall i, j | 0 <= i < |text| && 0 <= j < |text| && text[i] == '=' && text[j] == '=' ensures i == j {
      assert s[n + i] == '=' && s[n + j] == '=';
    }
    OneReading(xs, ys);
  }

  lemma DifferentCuts(k: string, v: string, l: string, w: string)
    requires k != l
    ensures !SamePairs(map[k := [v]], map[l := [w]])
  {
    assert Count(map[k := [v]], (k, v)) == 1 && Count(map[l := [w]], (k, v)) == 0;
  }

  lemma AnotherCut(p: string, q: Query, s: string) returns (w: Query)
    requires IsCanonical(p, q, s) && q != map[] && TwoEquals(p, s)
    ensures Another(p, q, p, w, s)
  {
    var pairs: seq<Pair> :| Sorted(pairs) && Lists(pairs, q) && s == p + "?" + Render(pairs);
    assert s[..|p| + 1] == p + "?";
    var i, j :| |p| < i < j < |s| && s[i] == '=' && s[j] == '=';
    var first := CutAt(s, p, i);
    var second := CutAt(s, p, j);
    DifferentCuts(s[|p| + 1..i], s[i + 1..], s[|p| + 1..j], s[j + 1..]);
    w := if SamePairs(q, first) then second else first;
  }

  /**
   Among requests without a question mark in the path, a request shares its canonical path with another exactly when its
   query text holds two equals signs: two parameters, or one with an equals sign in its key or value.
   */
  lemma AnotherPlainIff(p: string, q: Query, s: string)
    requires IsCanonical(p, q, s) && NoEmptyLists(q) && '?' !in p
    ensures (exists r, w :: '?' !in r && Another(p, q, r, w, s)) <==> TwoEquals(p, s)
  {
    if r, w :| '?' !in r && Another(p, q, r, w, s) {
      CanonicalShape(p, q, s);
      CanonicalShape(r, w, s);
      if q != map[] {
        SplitFirst(p, s[|p| + 1..], r, s[|r| + 1..]);
        if !TwoEquals(p, s) { OneCut(p, q, w, s); }
      }
    }
    if TwoEquals(p, s) {
      var w := AnotherCut(p, q, s);
    }
  }
}
