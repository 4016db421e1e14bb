/** What link-by-link checking gives end to end. */
module DelegationChains {
  import opened Text
  import opened Delegation

  /** Between any two places of an accepted chain the sets only shrink, and the depth counts the links. */
  lemma {:induction false} EndToEnd(chain: seq<Passport>, leaf: Passport, maxDepth: int, i: nat, j: nat)
    requires Accepted(chain, leaf, maxDepth) && i <= j < |chain|
    ensures chain[j].depth == chain[i].depth + (j - i)
    ensures Subset(chain[j].capabilities, chain[i].capabilities)
    ensures Subset(chain[j].audience, chain[i].audience)
    ensures Subset(chain[j].resources, chain[i].resources)
    ensures chain[j].perRequest.Keys <= chain[i].perRequest.Keys
    decreases j
  {
    if i < j {
      EndToEnd(chain, leaf, maxDepth, i, j - 1);
      assert Linked(chain[j - 1], chain[j]);
      forall f | f in chain[j].perRequest ensures f in chain[j - 1].perRequest { }
    }
  }

  lemma AllDistinct(chain: seq<Passport>, leaf: Passport, maxDepth: int, i: nat, j: nat)
    requires Accepted(chain, leaf, maxDepth) && i < j < |chain|
    ensures chain[i] != chain[j]
  {
    EndToEnd(chain, leaf, maxDepth, i, j);
  }

  /** Values narrow end to end where every passport in between carries the field. */
  lemma {:induction false} ValuesNarrow(chain: seq<Passport>, leaf: Passport, maxDepth: int, i: nat, j: nat)
    requires Accepted(chain, leaf, maxDepth) && i <= j < |chain|
    ensures (forall k | i <= k <= j :: chain[k].amount.Number?) ==> chain[j].amount.v <= chain[i].amount.v
    ensures (forall k | i <= k <= j :: chain[k].calls.Number?) ==> chain[j].calls.v <= chain[i].calls.v
    ensures (forall k | i <= k <= j :: chain[k].expiresAt != 0) ==> chain[j].expiresAt <= chain[i].expiresAt
    decreases j
  {
    if i < j {
      ValuesNarrow(chain, leaf, maxDepth, i, j - 1);
      assert Linked(chain[j - 1], chain[j]);
    }
  }

  /** So do the texts of a field's maximum. */
  lemma {:induction false} MaximaNarrow(chain: seq<Passport>, leaf: Passport, maxDepth: int, i: nat, j: nat, f: string)
    requires Accepted(chain, leaf, maxDepth) && i <= j < |chain|
    requires forall k | i <= k <= j :: f in chain[k].perRequest && chain[k].perRequest[f] != ""
    ensures AtMost(chain[j].perRequest[f], chain[i].perRequest[f])
    decreases j
  {
    LessTotal(chain[j].perRequest[f], chain[j].perRequest[f]);
    if i < j {
      MaximaNarrow(chain, leaf, maxDepth, i, j - 1, f);
      assert Linked(chain[j - 1], chain[j]);
      AtMostTransitive(chain[j].perRequest[f], chain[j - 1].perRequest[f], chain[i].perRequest[f]);
    }
  }

  lemma PrefixAccepted(chain: seq<Passport>, leaf: Passport, maxDepth: int, k: nat)
    requires Accepted(chain, leaf, maxDepth) && 0 < k <= |chain|
    ensures Accepted(chain[..k], chain[k - 1], k - 1) && k - 1 <= maxDepth
  {
    forall i | 0 < i < k ensures Linked(chain[..k][i - 1], chain[..k][i]) {
      assert Linked(chain[i - 1], chain[i]);
    }
  }

  /** One more sound link makes a sound longer chain, and nothing else does. */
  lemma ExtendAccepted(chain: seq<Passport>, child: Passport, maxDepth: int)
    requires chain != []
    ensures Accepted(chain + [child], child, maxDepth) <==>
            Accepted(chain, chain[|chain| - 1], maxDepth - 1) && Linked(chain[|chain| - 1], child)
  {
    var longer := chain + [child];
    assert chain == longer[..|chain|];
    if Links(longer) {
      assert Linked(longer[|chain| - 1], longer[|chain|]);
      forall i | 0 < i < |chain| ensures Linked(chain[i - 1], chain[i]) {
        assert Linked(longer[i - 1], longer[i]);
      }
    }
  }

  /**
   The limit of link-by-link checking: below a root with an amount, a grandchild stays within that amount exactly
   when what the passport between them carries is a number, or is malformed so that no chain through it is accepted.
   Where it carries nothing, or a NaN, the grandchild may ask for anything.
   */
  lemma AmountSurvivesIff(root: Passport, between: Amount)
    requires root.parent == "" && root.amount.Number?
    ensures (forall p: Passport, q: Passport |
              p.amount == between && q.amount.Number? && Accepted([root, p, q], q, 2) :: q.amount.v <= root.amount.v)
        <==> between.Number? || between.Malformed?
  {
    forall p: Passport, q: Passport | p.amount == between && q.amount.Number? && Accepted([root, p, q], q, 2)
      ensures between.Number? || between.Malformed? ==> q.amount.v <= root.amount.v
    {
      var chain := [root, p, q];
      assert Linked(chain[0], chain[1]) && Linked(chain[1], chain[2]);
    }
    if between.Unset? || between.NaN? {
      var p := root.(parent := root.id, depth := root.depth + 1, amount := between, calls := Unset);
      var q := p.(parent := p.id, depth := p.depth + 1, amount := Number(root.amount.v + 1.0));
      SameScope(root, p);
      SameScope(p, q);
      var chain := [root, p, q];
      assert Linked(chain[0], chain[1]) && Linked(chain[1], chain[2]);
      assert Accepted(chain, q, 2);
    }
  }

  lemma SameScope(p: Passport, q: Passport)
    requires p.audience == q.audience && p.capabilities == q.capabilities && p.resources == q.resources
    requires p.perRequest == q.perRequest && p.expiresAt == q.expiresAt
    requires Within(p.amount, q.amount) && Within(p.calls, q.calls)
    ensures Narrows(p, q)
  {
    forall f | f in p.perRequest ensures MaximumWithin(p.perRequest[f], p.perRequest[f]) {
      LessTotal(p.perRequest[f], p.perRequest[f]);
    }
  }
}
