/** What a link of a delegation chain is, field by field, and what verification answers. */
module DelegationLinks {
  import opened Results
  import opened Text
  import opened Delegation

  /** The text of a maximum is larger at the first difference: the order in which the source compares maxima. */
  ghost predicate Raises(parent: map<string, string>, child: map<string, string>, f: string) {
    f in parent && f in child && parent[f] != "" && child[f] != "" && Smaller(parent[f], child[f])
  }

  /** Fields are within the parent's exactly when every one of them is the parent's too and none raises its maximum. */
  lemma FieldsWithinIff(parent: map<string, string>, child: map<string, string>)
    ensures FieldsWithin(parent, child) <==> forall f | f in child :: f in parent && !Raises(parent, child, f)
  {
    forall f | f in child && f in parent
      ensures MaximumWithin(parent[f], child[f]) <==> !Raises(parent, child, f)
    {
      LessIff(parent[f], child[f]);
    }
  }

  /** So a maximum that is larger at the first difference is rejected, whatever else the two passports hold. */
  lemma LargerMaximumRejected(parent: Passport, child: Passport, f: string, k: nat)
    requires f in parent.perRequest && f in child.perRequest && parent.perRequest[f] != "" && child.perRequest[f] != ""
    requires SmallerAt(parent.perRequest[f], child.perRequest[f], k)
    ensures !Narrows(parent, child)
  {
    FieldsWithinIff(parent.perRequest, child.perRequest);
    assert Raises(parent.perRequest, child.perRequest, f);
  }

  /** Amounts that grow are rejected, and so is a malformed one against one that is given; a NaN passes. */
  predicate AmountHeld(parent: Amount, child: Amount) {
    if parent.Number? && child.Number? then child.v <= parent.v
    else if parent.Malformed? then child.Unset?
    else if child.Malformed? then parent.Unset?
    else true
  }

  /** A link, spelled out. */
  lemma LinkIff(parent: Passport, child: Passport)
    ensures Linked(parent, child) <==>
      && child.parent == parent.id && child.depth == parent.depth + 1
      && (forall x | x in child.capabilities :: x in parent.capabilities)
      && (forall x | x in child.audience :: x in parent.audience)
      && (forall x | x in child.resources :: x in parent.resources)
      && (forall f | f in child.perRequest ::
            f in parent.perRequest && !Raises(parent.perRequest, child.perRequest, f))
      && AmountHeld(parent.amount, child.amount) && AmountHeld(parent.calls, child.calls)
      && (parent.expiresAt != 0 && child.expiresAt != 0 ==> child.expiresAt <= parent.expiresAt)
  {
    FieldsWithinIff(parent.perRequest, child.perRequest);
  }

  /** Maxima never count against a chain in which none is raised and no field is new. */
  lemma UnraisedIsAccepted(parent: Passport, child: Passport)
    requires forall f | f in child.perRequest ::
      f in parent.perRequest && !Raises(parent.perRequest, child.perRequest, f)
    ensures Linked(parent, child) <==> Linked(parent, child.(perRequest := map[]))
  {
    LinkIff(parent, child);
    LinkIff(parent, child.(perRequest := map[]));
  }

  /** The first link that fails names its parent and counts right, so it asks for more. */
  ghost predicate FirstWider(chain: seq<Passport>, i: nat)
    requires 0 < i < |chain|
  {
    && chain[i].parent == chain[i - 1].id && chain[i].depth == chain[i - 1].depth + 1
    && !Linked(chain[i - 1], chain[i])
    && forall j | 0 < j < i :: Linked(chain[j - 1], chain[j])
  }

  /**
   The code of a rejected chain: broken where it does not end at the leaf, start at a root or continue; too deep where
   it has more links than the limit; wider where the first link that fails continues.
   */
  lemma RejectionCodes(chain: seq<Passport>, leaf: Passport, maxDepth: int, code: Code)
    requires Rejection(chain, leaf, maxDepth, code)
    ensures !Accepted(chain, leaf, maxDepth)
    ensures code == BrokenChain || code == DepthExceeded || code == Monotonicity
    ensures chain == [] || chain[|chain| - 1].id != leaf.id ==> code == BrokenChain
    ensures code == DepthExceeded <==>
      chain != [] && chain[|chain| - 1].id == leaf.id && |chain| > maxDepth + 1
    ensures code == Monotonicity <==>
      && chain != [] && chain[|chain| - 1].id == leaf.id && |chain| <= maxDepth + 1 && chain[0].parent == ""
      && exists i | 0 < i < |chain| :: FirstWider(chain, i)
  {
    if chain != [] && chain[|chain| - 1].id == leaf.id && |chain| - 1 <= maxDepth && chain[0].parent == "" {
      var i :| 0 < i < |chain| && FirstBroken(chain, i, code);
      forall j | 0 < j < i ensures Linked(chain[j - 1], chain[j]) {
        assert Linked(chain[..i][j - 1], chain[..i][j]);
      }
      if j :| 0 < j < |chain| && FirstWider(chain, j) {
        assert i < j ==> Linked(chain[i - 1], chain[i]);
      }
      assert code == Monotonicity ==> FirstWider(chain, i);
    }
  }
}
