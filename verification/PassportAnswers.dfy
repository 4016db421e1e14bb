/**
 What minting, delegating and revoking answer and store, in terms of what was asked for and of what was stored.
 */
module PassportAnswers {
  import opened Results
  import opened Delegation
  import opened DelegationLinks
  import opened PassportAuthority
  import opened PassportRuns

  // Issuing.

  /** A grant is stored as a root with the fields it asks for, and nothing else changes. */
  lemma IssuesWhatIsAsked(s: Store, hash: Hash, id: string, scope: Scope, expiresAt: Time)
    requires Ordered(s) && Unused(s, id)
    ensures var t := Step(s, hash, Op.Issue(id, scope, expiresAt));
      && t.Keys == s.Keys + {id} && (forall k | k in s :: t[k] == s[k])
      && t[id].id == id && t[id].parent == "" && t[id].depth == 0 && t[id].chainHash == ""
      && t[id].expiresAt == expiresAt && t[id].phase == Issued
      && t[id].audience == scope.audience && t[id].capabilities == scope.capabilities
      && t[id].resources == scope.resources && t[id].perRequest == scope.perRequest
      && t[id].amount == scope.amount && t[id].calls == scope.calls
  {
  }

  // Delegating.

  /** The expiry a child gets: no later than its parent's, nor than the one asked for, and one of the two. */
  ghost predicate ExpiryAsked(parent: Time, asked: Time, expiresAt: Time) {
    && expiresAt <= parent && (asked != 0 ==> expiresAt <= asked)
    && (expiresAt == parent || (asked != 0 && expiresAt == asked))
  }

  /**
   A delegation that succeeds stores one child of the parent with the fields that were asked for, and changes nothing
   else; one that fails changes nothing at all.
   */
  lemma DelegatesWhatIsAsked(s: Store, hash: Hash, parentID: string, id: string, now: Time, req: DelegationRequest)
    requires Ordered(s) && Unused(s, id)
    ensures var t := Step(s, hash, Op.Delegate(parentID, id, now, req));
      var err := DelegateError(s, hash, parentID, id, now, req);
      && (err.Some? ==> t == s)
      && (err.None? ==>
            && parentID in s && t.Keys == s.Keys + {id} && (forall k | k in s :: t[k] == s[k])
            && t[id].id == id && t[id].parent == parentID && t[id].depth == s[parentID].depth + 1
            && t[id].phase == Issued && ExpiryAsked(s[parentID].expiresAt, req.expiresAt, t[id].expiresAt)
            && t[id].audience == req.scope.audience && t[id].capabilities == req.scope.capabilities
            && t[id].resources == req.scope.resources && t[id].perRequest == req.scope.perRequest
            && t[id].amount == req.scope.amount && t[id].calls == req.scope.calls)
  {
    if parentID in s { assert Placed(s, parentID); }
  }

  /** Every requested field is within the parent's. */
  ghost predicate AskedWithin(parent: Passport, scope: Scope) {
    && (forall x | x in scope.capabilities :: x in parent.capabilities)
    && (forall x | x in scope.audience :: x in parent.audience)
    && (forall x | x in scope.resources :: x in parent.resources)
    && (forall f | f in scope.perRequest :: f in parent.perRequest && !Raises(parent.perRequest, scope.perRequest, f))
    && AmountHeld(parent.amount, scope.amount) && AmountHeld(parent.calls, scope.calls)
  }

  lemma NarrowsIff(hash: Hash, parent: Passport, id: string, req: DelegationRequest)
    ensures Narrows(parent, Child(hash, parent, id, req)) <==> AskedWithin(parent, req.scope)
  {
    FieldsWithinIff(parent.perRequest, req.scope.perRequest);
  }

  /** A delegation gets past the checks of existence, revocation, expiry and depth. */
  ghost predicate Admitted(s: Store, parentID: string, now: Time, req: DelegationRequest)
    requires Ordered(s)
  {
    && parentID in s && s[parentID].phase != Phase.Revoked && s[parentID].phase != Phase.Expired
    && now <= s[parentID].expiresAt && AncestorError(s, parentID).None?
    && s[parentID].depth + 1 <= (if req.maxDepth > 0 then req.maxDepth else 8)
  }

  /** Past them it succeeds exactly when every requested field is within the parent's, and answers Monotonicity else. */
  lemma DelegationSucceedsIff(s: Store, hash: Hash, parentID: string, id: string, now: Time, req: DelegationRequest)
    requires Ordered(s)
    ensures var err := DelegateError(s, hash, parentID, id, now, req);
      && (err.None? <==> Admitted(s, parentID, now, req) && AskedWithin(s[parentID], req.scope))
      && (err == Some(Monotonicity) <==> Admitted(s, parentID, now, req) && !AskedWithin(s[parentID], req.scope))
  {
    if parentID in s {
      NarrowsIff(hash, s[parentID], id, req);
      OnlyAncestorCodes(s, parentID);
    }
  }

  /** The walk answers with one of two codes. */
  lemma {:induction false} OnlyAncestorCodes(s: Store, id: string)
    requires Ordered(s) && id in s
    ensures AncestorError(s, id) in {None, Some(BrokenChain), Some(AncestorRevoked)}
    decreases s[id].depth
  {
    if s[id].parent in s && s[s[id].parent].phase != Phase.Revoked {
      assert Placed(s, id) && Placed(s, s[id].parent);
      OnlyAncestorCodes(s, s[id].parent);
    }
  }

  /** Before them the answers come in this order. */
  lemma DelegationRefusals(s: Store, hash: Hash, parentID: string, id: string, now: Time, req: DelegationRequest)
    requires Ordered(s)
    ensures var err := DelegateError(s, hash, parentID, id, now, req);
      && (parentID !in s <==> err == Some(NotFound))
      && (parentID in s && s[parentID].phase == Phase.Revoked ==> err == Some(AncestorRevoked))
      && (err == Some(Code.Expired) <==>
            && parentID in s && s[parentID].phase != Phase.Revoked
            && (s[parentID].phase == Phase.Expired || now > s[parentID].expiresAt))
      && (err == Some(DepthExceeded) <==>
            && parentID in s && s[parentID].phase != Phase.Revoked && s[parentID].phase != Phase.Expired
            && now <= s[parentID].expiresAt && AncestorError(s, parentID).None?
            && s[parentID].depth + 1 > (if req.maxDepth > 0 then req.maxDepth else 8))
  {
    if parentID in s { OnlyAncestorCodes(s, parentID); }
  }

  /** The walk is stopped exactly by a revoked passport somewhere above. */
  lemma {:induction false} StoppedIff(s: Store, hash: Hash, id: string)
    requires Good(s, hash) && id in s
    ensures AncestorError(s, id) == if RevokedAbove(s, id) then Some(AncestorRevoked) else None
    decreases s[id].depth
  {
    assert Placed(s, id) && Descent(s, hash, id);
    var up := s[id].parent;
    if up != "" {
      assert Placed(s, up);
      StoppedIff(s, hash, up);
      if x :| x in s && Below(s, up, x) && s[x].phase == Phase.Revoked { assert Below(s, id, x); }
      if s[up].phase == Phase.Revoked { assert Below(s, id, up); }
    }
  }

  ghost predicate RevokedAbove(s: Store, id: string)
    requires Ordered(s) && id in s
  {
    exists x | x in s :: Below(s, id, x) && s[x].phase == Phase.Revoked
  }

  // Revoking.

  /** Revoking changes the phase of the one passport it names, and nothing else of it or of any other. */
  lemma RevokesOnePhase(s: Store, hash: Hash, x: string)
    requires Ordered(s)
    ensures var t := Step(s, hash, Op.Revoke(x));
      && t.Keys == s.Keys && (forall k | k in s && k != x :: t[k] == s[k])
      && (x in s ==> t[x].phase == Phase.Revoked && t[x].(phase := s[x].phase) == s[x])
  {
  }

  /** What is asked of a parent at or below x is refused: as revoked, unless the parent itself has expired first. */
  ghost predicate RefusedUnder(s: Store, hash: Hash, x: string, y: string, id: string, now: Time,
      req: DelegationRequest)
    requires Ordered(s) && y in s
  {
    DelegateError(s, hash, y, id, now, req) ==
      if y != x && s[y].phase != Phase.Revoked && (s[y].phase == Phase.Expired || now > s[y].expiresAt)
      then Some(Code.Expired) else Some(AncestorRevoked)
  }

  lemma RefusedBelow(s: Store, hash: Hash, x: string, y: string, id: string, now: Time, req: DelegationRequest)
    requires Good(s, hash) && x in s && s[x].phase == Phase.Revoked && y in s && (y == x || Below(s, y, x))
    ensures RefusedUnder(s, hash, x, y, id, now, req)
  {
    if y != x { BelowRevokedIsRefused(s, hash, y, x); }
  }

  /**
   From the moment a stored passport is revoked, and whatever happens afterwards: it stays revoked, nothing can be
   delegated from it or from anything below it, and its strict descendants are those it had before.
   */
  lemma RevokedForGood(s: Store, hash: Hash, x: string, ops: seq<Op>, y: string, id: string, now: Time,
      req: DelegationRequest)
    requires Good(s, hash) && x in s && AdmissibleRun(s, hash, [Op.Revoke(x)] + ops)
    ensures var t := Run(s, hash, [Op.Revoke(x)] + ops);
      && Good(t, hash) && x in t && t[x].phase == Phase.Revoked
      && ((y in t && Below(t, y, x)) <==> (y in s && Below(s, y, x)))
      && (y in t && (y == x || Below(t, y, x)) ==> RefusedUnder(t, hash, x, y, id, now, req))
  {
    var all := [Op.Revoke(x)] + ops;
    assert all[0] == Op.Revoke(x) && all[1..] == ops;
    var revoked := Step(s, hash, all[0]);
    StepKeepsGood(s, hash, all[0]);
    StepGrows(s, hash, all[0]);
    RevocationFreezes(revoked, hash, ops, x, y);
    if y in s { BelowKept(s, revoked, hash, y, x); }
    var t := Run(revoked, hash, ops);
    if y in t && (y == x || Below(t, y, x)) { RefusedBelow(t, hash, x, y, id, now, req); }
  }
}
