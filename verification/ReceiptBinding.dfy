/** What a verified list of receipts commits to: everything before its end, or else a hash collision is at hand. */
module ReceiptBinding {
  import opened Results
  import opened Receipts

  /** The receipt k places before the end. */
  function FromEnd(receipts: seq<Receipt>, k: nat): Receipt
    requires k < |receipts|
  {
    receipts[|receipts| - 1 - k]
  }

  /** Two different serialisations with one hash, k places before the ends. */
  ghost predicate CollideAt(suite: Suite, xs: seq<Receipt>, ys: seq<Receipt>, k: nat) {
    && k < |xs| && k < |ys|
    && var a, b := suite.marshal(FromEnd(xs, k)), suite.marshal(FromEnd(ys, k));
       a.Some? && b.Some? && a != b && suite.sum(a.value) == suite.sum(b.value)
  }

  ghost predicate SameAt(suite: Suite, xs: seq<Receipt>, ys: seq<Receipt>, k: nat)
    requires k < |xs| && k < |ys|
  {
    suite.marshal(FromEnd(xs, k)) == suite.marshal(FromEnd(ys, k))
  }

  /** A serialisation carries the link to the predecessor. */
  ghost predicate CarriesPrev(suite: Suite) {
    forall r, r' :: suite.marshal(r).Some? && suite.marshal(r) == suite.marshal(r') ==> r.prev == r'.prev
  }

  function Shorter(xs: seq<Receipt>, ys: seq<Receipt>): nat {
    if |xs| <= |ys| then |xs| else |ys|
  }

  /** Equal links k places before the ends mean equal hashes one place further on. */
  lemma OneBack(suite: Suite, xs: seq<Receipt>, ys: seq<Receipt>, k: nat)
    requires Linked(suite, xs) && Linked(suite, ys) && 0 < k < |xs| && k < |ys|
    requires FromEnd(xs, k - 1).prev == FromEnd(ys, k - 1).prev
    ensures suite.marshal(FromEnd(xs, k)).Some?
    ensures SameAt(suite, xs, ys, k) || CollideAt(suite, xs, ys, k)
  {
    var i, j := |xs| - k, |ys| - k;
    assert Follows(suite, xs[i - 1], xs[i]) && Follows(suite, ys[j - 1], ys[j]);
    var a, b := suite.marshal(xs[i - 1]), suite.marshal(ys[j - 1]);
    var prefix := "sha256:";
    assert xs[i].prev == prefix + suite.sum(a.value) && ys[j].prev == prefix + suite.sum(b.value);
    assert xs[i].prev[|prefix|..] == suite.sum(a.value) && ys[j].prev[|prefix|..] == suite.sum(b.value);
  }

  /** From equal links at the ends, backwards to the first place where the lists differ. */
  lemma WalkBack(suite: Suite, xs: seq<Receipt>, ys: seq<Receipt>) returns (k: nat)
    requires CarriesPrev(suite) && Linked(suite, xs) && Linked(suite, ys) && xs != [] && ys != []
    requires FromEnd(xs, 0).prev == FromEnd(ys, 0).prev
    ensures 0 < k <= Shorter(xs, ys) && forall i | 0 < i < k :: SameAt(suite, xs, ys, i)
    ensures k == Shorter(xs, ys) || CollideAt(suite, xs, ys, k)
  {
    k := 1;
    while k < Shorter(xs, ys)
      invariant 0 < k <= Shorter(xs, ys)
      invariant FromEnd(xs, k - 1).prev == FromEnd(ys, k - 1).prev
      invariant forall i | 0 < i < k :: SameAt(suite, xs, ys, i)
    {
      OneBack(suite, xs, ys, k);
      if !SameAt(suite, xs, ys, k) {
        return;
      }
      k := k + 1;
    }
  }

  /**
   Two linked lists that end in the same receipt agree, place by place from the end, for as long as both have
   receipts: one is a suffix of the other in serialised form. Otherwise the first place where they disagree is a
   collision.
   */
  lemma SuffixOrCollision(suite: Suite, xs: seq<Receipt>, ys: seq<Receipt>) returns (k: nat)
    requires CarriesPrev(suite) && Linked(suite, xs) && Linked(suite, ys)
    requires xs != [] && ys != [] && FromEnd(xs, 0) == FromEnd(ys, 0)
    ensures k <= Shorter(xs, ys) && forall i | 0 <= i < k :: SameAt(suite, xs, ys, i)
    ensures k == Shorter(xs, ys) || CollideAt(suite, xs, ys, k)
  {
    k := WalkBack(suite, xs, ys);
  }

  /** The same where only the hash of the end is known, as a published head gives it. */
  lemma HeadCommits(suite: Suite, xs: seq<Receipt>, ys: seq<Receipt>) returns (k: nat)
    requires CarriesPrev(suite) && Linked(suite, xs) && Linked(suite, ys) && xs != [] && ys != []
    requires HashReceipt(suite, FromEnd(xs, 0)).Some?
    requires HashReceipt(suite, FromEnd(xs, 0)) == HashReceipt(suite, FromEnd(ys, 0))
    ensures k <= Shorter(xs, ys) && forall i | 0 <= i < k :: SameAt(suite, xs, ys, i)
    ensures k == Shorter(xs, ys) || CollideAt(suite, xs, ys, k)
  {
    var prefix := "sha256:";
    var a, b := suite.marshal(FromEnd(xs, 0)), suite.marshal(FromEnd(ys, 0));
    assert (prefix + suite.sum(a.value))[|prefix|..] == suite.sum(a.value);
    assert (prefix + suite.sum(b.value))[|prefix|..] == suite.sum(b.value);
    k := 0;
    if SameAt(suite, xs, ys, 0) {
      k := WalkBack(suite, xs, ys);
    }
  }

  /** Editing a receipt before the end of a verified list is reported, or yields a collision. */
  lemma EditReported(suite: Suite, valid: Option<Receipt -> bool>, xs: seq<Receipt>, i: nat, edited: Receipt)
    returns (k: nat)
    requires CarriesPrev(suite) && Verified(suite, valid, xs) && i < |xs| - 1
    requires suite.marshal(edited) != suite.marshal(xs[i])
    ensures ErrorCount(suite, valid, xs[i := edited], |xs|) > 0 || CollideAt(suite, xs, xs[i := edited], k)
  {
    var ys := xs[i := edited];
    k := 0;
    NoErrorsIffVerified(suite, valid, ys, |ys|);
    assert ys[..|ys|] == ys;
    assert !SameAt(suite, xs, ys, |xs| - 1 - i);
    if Linked(suite, ys) {
      k := SuffixOrCollision(suite, xs, ys);
    }
  }

  /** What verification cannot see: receipts cut off at either end. */
  lemma CutsUnseen(suite: Suite, valid: Option<Receipt -> bool>, xs: seq<Receipt>, i: nat, j: nat)
    requires Verified(suite, valid, xs) && i <= j <= |xs|
    ensures Verified(suite, valid, xs[i..j])
  {
    forall n | 0 < n < j - i ensures Follows(suite, xs[i..j][n - 1], xs[i..j][n]) {
      assert Follows(suite, xs[i + n - 1], xs[i + n]);
    }
  }
}
