/** What a passport's chain hash commits to. */
module ChainHashes {
  import opened Delegation
  import opened PassportAuthority
  import opened PassportRuns

  /** "pp-" and sixteen bytes in hex. */
  const ID_WIDTH := 35

  /** A SHA-256 sum in hex. */
  const HASH_WIDTH := 64

  ghost predicate FixedWidth(hash: Hash) {
    forall x :: |hash(x)| == HASH_WIDTH
  }

  ghost predicate Identifiers(ids: seq<string>) {
    forall id | id in ids :: |id| == ID_WIDTH
  }

  /** The identifiers from the root down. */
  ghost function Ids(chain: seq<Passport>): seq<string> {
    seq(|chain|, i requires 0 <= i < |chain| => chain[i].id)
  }

  /** What is hashed for the last of a list of identifiers. */
  ghost function Preimage(hash: Hash, ids: seq<string>): string
    requires ids != []
    decreases |ids|, 0
  {
    var last := ids[|ids| - 1];
    if |ids| == 1 then last else Fold(hash, ids[..|ids| - 1]) + last
  }

  ghost function Fold(hash: Hash, ids: seq<string>): string
    requires ids != []
    decreases |ids|, 1
  {
    hash(Preimage(hash, ids))
  }

  /** A chain hash is the fold over the identifiers from the root to the passport. */
  lemma {:induction false} ChainHashIsFold(s: Store, hash: Hash, id: string)
    requires FixedWidth(hash) && Good(s, hash) && id in s
    ensures Chain(s, id) != [] && HashFrom(hash, s[id]) == Fold(hash, Ids(Chain(s, id)))
    ensures s[id].parent != "" ==> s[id].chainHash == Fold(hash, Ids(Chain(s, id)))
    decreases s[id].depth
  {
    assert Placed(s, id) && Descent(s, hash, id);
    var up := s[id].parent;
    if up == "" {
      assert Ids(Chain(s, id)) == [id];
    } else {
      assert Placed(s, up);
      ChainHashIsFold(s, hash, up);
      var ids := Ids(Chain(s, id));
      assert ids[..|ids| - 1] == Ids(Chain(s, up)) && ids[|ids| - 1] == id;
      assert s[id].chainHash == hash(Fold(hash, ids[..|ids| - 1]) + id);
    }
  }

  /** Two different strings with one hash, each hashed in folding a prefix of one of the two lists. */
  ghost predicate Collide(hash: Hash, xs: seq<string>, ys: seq<string>, i: nat, j: nat) {
    && 0 < i <= |xs| && 0 < j <= |ys|
    && Preimage(hash, xs[..i]) != Preimage(hash, ys[..j])
    && hash(Preimage(hash, xs[..i])) == hash(Preimage(hash, ys[..j]))
  }

  lemma PreimageWidth(hash: Hash, ids: seq<string>)
    requires FixedWidth(hash) && ids != [] && Identifiers(ids)
    ensures |Preimage(hash, ids)| == if |ids| == 1 then ID_WIDTH else HASH_WIDTH + ID_WIDTH
  {
    assert ids[|ids| - 1] in ids;
    if |ids| > 1 {
      assert |Fold(hash, ids[..|ids| - 1])| == HASH_WIDTH;
    }
  }

  lemma {:induction false} EqualFolds(hash: Hash, xs: seq<string>, ys: seq<string>) returns (i: nat, j: nat)
    requires FixedWidth(hash) && xs != [] && ys != [] && Identifiers(xs) && Identifiers(ys)
    requires Fold(hash, xs) == Fold(hash, ys)
    ensures xs == ys || Collide(hash, xs, ys, i, j)
    decreases |xs|
  {
    i, j := |xs|, |ys|;
    assert xs[..i] == xs && ys[..j] == ys;
    if Preimage(hash, xs) == Preimage(hash, ys) {
      var p, q := Preimage(hash, xs), Preimage(hash, ys);
      var xs', ys' := xs[..|xs| - 1], ys[..|ys| - 1];
      var x, y := xs[|xs| - 1], ys[|ys| - 1];
      assert x in xs && y in ys;
      PreimageWidth(hash, xs);
      PreimageWidth(hash, ys);
      assert xs == xs' + [x] && ys == ys' + [y];
      if |xs| > 1 {
        assert p == Fold(hash, xs') + x && q == Fold(hash, ys') + y;
        assert p[HASH_WIDTH..] == x && q[HASH_WIDTH..] == y;
        assert p[..HASH_WIDTH] == Fold(hash, xs') && q[..HASH_WIDTH] == Fold(hash, ys');
        i, j := EqualFolds(hash, xs', ys');
        if xs' != ys' {
          assert xs[..i] == xs'[..i] && ys[..j] == ys'[..j];
        }
      }
    }
  }

  ghost predicate Named(s: Store) {
    forall id | id in s :: |id| == ID_WIDTH
  }

  lemma {:induction false} ChainIsNamed(s: Store, id: string)
    requires Ordered(s) && Named(s) && id in s
    ensures Identifiers(Ids(Chain(s, id)))
    decreases s[id].depth
  {
    assert Placed(s, id);
    if s[id].parent in s {
      assert Placed(s, s[id].parent);
      ChainIsNamed(s, s[id].parent);
      var up := Ids(Chain(s, s[id].parent));
      assert Ids(Chain(s, id)) == up + [id];
    }
  }

  /** Two delegated passports with one chain hash have one line of descent, or a collision is at hand. */
  lemma ChainHashCommits(s: Store, hash: Hash, x: string, y: string) returns (i: nat, j: nat)
    requires FixedWidth(hash) && Good(s, hash) && Named(s)
    requires x in s && y in s && s[x].parent != "" && s[y].parent != "" && s[x].chainHash == s[y].chainHash
    ensures x == y || Collide(hash, Ids(Chain(s, x)), Ids(Chain(s, y)), i, j)
  {
    ChainHashIsFold(s, hash, x);
    ChainHashIsFold(s, hash, y);
    ChainIsNamed(s, x);
    ChainIsNamed(s, y);
    var xs, ys := Ids(Chain(s, x)), Ids(Chain(s, y));
    i, j := EqualFolds(hash, xs, ys);
    LastIsSelf(s, x);
    LastIsSelf(s, y);
  }

  lemma LastIsSelf(s: Store, id: string)
    requires Ordered(s) && id in s
    ensures var ids := Ids(Chain(s, id)); ids != [] && ids[|ids| - 1] == id
  {
    assert Placed(s, id);
  }
}
