/** Every store that minting, delegating and revoking can reach. */
module PassportRuns {
  import opened Results
  import opened Delegation
  import opened DelegationChains
  import opened PassportAuthority

  datatype Op =
    | Issue(id: string, scope: Scope, expiresAt: Time)
    | Delegate(parentID: string, id: string, now: Time, req: DelegationRequest)
    | Revoke(id: string)

  ghost function Step(s: Store, hash: Hash, op: Op): Store
    requires Ordered(s)
  {
    match op
    case Issue(id, scope, expiresAt) => s[id := Root(id, scope, expiresAt)]
    case Delegate(parentID, id, now, req) => Delegated(s, hash, parentID, id, now, req)
    case Revoke(id) => WithRevoked(s, id)
  }

  ghost predicate Admissible(s: Store, op: Op) {
    !op.Revoke? ==> Unused(s, op.id)
  }

  /** What a stored passport is beyond being placed: a root, or a narrower child chained to its parent. */
  ghost predicate Descent(s: Store, hash: Hash, id: string)
    requires id in s
  {
    var p := s[id];
    if p.parent == "" then p.depth == 0 && p.chainHash == ""
    else
      && p.parent in s
      && Linked(s[p.parent], p)
      && p.chainHash == ComputeChainHash(hash, HashFrom(hash, s[p.parent]), id)
  }

  ghost predicate Good(s: Store, hash: Hash) {
    Ordered(s) && forall id | id in s :: Descent(s, hash, id)
  }

  /** Equal but for the phase. */
  ghost predicate Same(p: Passport, q: Passport) {
    p.(phase := q.phase) == q
  }

  /** Nothing is removed, nothing but a phase changes, and what is revoked stays so. */
  ghost predicate Grows(s: Store, t: Store) {
    forall id | id in s ::
      id in t && Same(s[id], t[id]) && (s[id].phase == Phase.Revoked ==> t[id].phase == Phase.Revoked)
  }

  lemma StepGrows(s: Store, hash: Hash, op: Op)
    requires Ordered(s) && Admissible(s, op)
    ensures Grows(s, Step(s, hash, op))
  {
  }

  lemma StepKeepsOrdered(s: Store, hash: Hash, op: Op)
    requires Ordered(s) && Admissible(s, op)
    ensures Ordered(Step(s, hash, op))
  {
    match op
    case Issue(id, scope, expiresAt) => AddKeepsOrdered(s, Root(id, scope, expiresAt));
    case Delegate(parentID, id, now, req) =>
      if DelegateError(s, hash, parentID, id, now, req).None? {
        assert Placed(s, parentID);
        AddKeepsOrdered(s, Child(hash, s[parentID], id, req));
      }
    case Revoke(id) => RevokeKeepsOrdered(s, id);
  }

  lemma DescentKept(s: Store, t: Store, hash: Hash, id: string)
    requires id in s && Descent(s, hash, id) && Grows(s, t)
    ensures Descent(t, hash, id)
  {
    var p := s[id];
    if p.parent != "" {
      assert Linked(s[p.parent], p);
      assert Narrows(t[p.parent], t[id]);
    }
  }

  lemma ChildDescends(s: Store, hash: Hash, parentID: string, id: string, now: Time, req: DelegationRequest)
    requires Ordered(s) && Unused(s, id)
    requires DelegateError(s, hash, parentID, id, now, req).None?
    ensures var t := Delegated(s, hash, parentID, id, now, req);
      id in t && Descent(t, hash, id)
  {
    assert Placed(s, parentID);
  }

  lemma StepKeepsGood(s: Store, hash: Hash, op: Op)
    requires Good(s, hash) && Admissible(s, op)
    ensures Good(Step(s, hash, op), hash)
  {
    var t := Step(s, hash, op);
    StepKeepsOrdered(s, hash, op);
    StepGrows(s, hash, op);
    forall k | k in t ensures Descent(t, hash, k) {
      if k in s {
        DescentKept(s, t, hash, k);
      } else if op.Delegate? {
        ChildDescends(s, hash, op.parentID, op.id, op.now, op.req);
      }
    }
  }

  ghost predicate AdmissibleRun(s: Store, hash: Hash, ops: seq<Op>)
    requires Ordered(s)
    decreases |ops|
  {
    || ops == []
    || (&& Admissible(s, ops[0])
        && (StepKeepsOrdered(s, hash, ops[0]); AdmissibleRun(Step(s, hash, ops[0]), hash, ops[1..])))
  }

  ghost function Run(s: Store, hash: Hash, ops: seq<Op>): Store
    requires Ordered(s) && AdmissibleRun(s, hash, ops)
    decreases |ops|
  {
    if ops == [] then s
    else StepKeepsOrdered(s, hash, ops[0]); Run(Step(s, hash, ops[0]), hash, ops[1..])
  }

  lemma {:induction false} RunKeepsGood(s: Store, hash: Hash, ops: seq<Op>)
    requires Good(s, hash) && AdmissibleRun(s, hash, ops)
    ensures Good(Run(s, hash, ops), hash)
    decreases |ops|
  {
    if ops != [] {
      StepKeepsGood(s, hash, ops[0]);
      RunKeepsGood(Step(s, hash, ops[0]), hash, ops[1..]);
    }
  }

  /** The name n steps up from id, following Parent. */
  ghost function Ancestor(s: Store, id: string, n: nat): string
    decreases n
  {
    if n == 0 || id !in s then id else Ancestor(s, s[id].parent, n - 1)
  }

  /** Root first: the chain a verifier is shown for id. */
  ghost function Chain(s: Store, id: string): seq<Passport>
    requires Ordered(s) && id in s
    decreases s[id].depth
  {
    if s[id].parent !in s then [s[id]]
    else assert Placed(s, id) && Placed(s, s[id].parent); Chain(s, s[id].parent) + [s[id]]
  }

  /** Depth counts from the root down. */
  ghost predicate Level(s: Store, id: string)
    requires id in s
  {
    0 <= s[id].depth &&
      if s[id].parent == "" then s[id].depth == 0
      else s[id].parent in s && s[id].depth == s[s[id].parent].depth + 1
  }

  ghost predicate Leveled(s: Store) {
    forall id {:trigger Level(s, id)} | id in s :: Level(s, id)
  }

  lemma GoodIsLeveled(s: Store, hash: Hash)
    requires Good(s, hash)
    ensures Leveled(s)
  {
    forall id | id in s ensures Level(s, id) {
      assert Placed(s, id) && Descent(s, hash, id);
    }
  }

  lemma {:induction false} HopsUp(s: Store, id: string, n: nat)
    requires Leveled(s) && id in s && n <= s[id].depth
    ensures Ancestor(s, id, n) in s && s[Ancestor(s, id, n)].depth == s[id].depth - n
    decreases n
  {
    assert Level(s, id);
    if n > 0 {
      HopsUp(s, s[id].parent, n - 1);
    }
  }

  /** Following Parent reaches a root in exactly Depth hops, through stored passports and no sooner. */
  lemma RootInDepthHops(s: Store, hash: Hash, id: string, n: nat)
    requires Good(s, hash) && id in s && n <= s[id].depth
    ensures Ancestor(s, id, n) in s && s[Ancestor(s, id, n)].depth == s[id].depth - n
    ensures s[Ancestor(s, id, n)].parent == "" <==> n == s[id].depth
  {
    GoodIsLeveled(s, hash);
    HopsUp(s, id, n);
    var top := Ancestor(s, id, n);
    assert Level(s, top);
    if s[top].parent != "" {
      assert Level(s, s[top].parent);
    }
  }

  /** The walk never meets a missing ancestor. */
  lemma {:induction false} NoMissingAncestor(s: Store, hash: Hash, id: string)
    requires Good(s, hash) && id in s
    ensures AncestorError(s, id) != Some(BrokenChain)
    decreases s[id].depth
  {
    assert Placed(s, id) && Descent(s, hash, id);
    if s[id].parent != "" {
      assert Placed(s, s[id].parent);
      NoMissingAncestor(s, hash, s[id].parent);
    }
  }

  lemma {:induction false} ChainAccepted(s: Store, hash: Hash, id: string)
    requires Good(s, hash) && id in s
    ensures |Chain(s, id)| == s[id].depth + 1 && Chain(s, id)[s[id].depth] == s[id]
    ensures Accepted(Chain(s, id), s[id], s[id].depth)
    decreases s[id].depth
  {
    assert Placed(s, id) && Descent(s, hash, id);
    if s[id].parent != "" {
      assert Placed(s, s[id].parent);
      ChainAccepted(s, hash, s[id].parent);
      ExtendAccepted(Chain(s, s[id].parent), s[id], s[id].depth);
    }
  }

  /**
   Minting and verifying agree: in every reachable store the chain of every passport passes verification, for
   exactly the depth limits that its depth is within.
   */
  lemma MintingAgreesWithVerifying(hash: Hash, ops: seq<Op>, id: string, maxDepth: int)
    requires AdmissibleRun(map[], hash, ops) && id in Run(map[], hash, ops)
    ensures var s := Run(map[], hash, ops);
      && Good(s, hash)
      && (Accepted(Chain(s, id), s[id], maxDepth) <==> s[id].depth <= maxDepth)
  {
    RunKeepsGood(map[], hash, ops);
    ChainAccepted(Run(map[], hash, ops), hash, id);
  }

  // Revocation.

  ghost predicate Below(s: Store, y: string, x: string)
    requires Ordered(s) && y in s
    decreases s[y].depth
  {
    var up := s[y].parent;
    up in s && (up == x || (assert Placed(s, y) && Placed(s, up); Below(s, up, x)))
  }

  lemma {:induction false} BelowRevokedIsRefused(s: Store, hash: Hash, y: string, x: string)
    requires Good(s, hash) && x in s && s[x].phase == Phase.Revoked
    requires y in s && Below(s, y, x)
    ensures AncestorError(s, y) == Some(AncestorRevoked)
    decreases s[y].depth
  {
    assert Placed(s, y) && Descent(s, hash, y);
    var up := s[y].parent;
    assert Placed(s, up);
    if up != x && s[up].phase != Phase.Revoked {
      BelowRevokedIsRefused(s, hash, up, x);
    }
  }

  lemma {:induction false} BelowKept(s: Store, t: Store, hash: Hash, y: string, x: string)
    requires Good(s, hash) && Ordered(t) && Grows(s, t) && y in s
    ensures Below(t, y, x) <==> Below(s, y, x)
    decreases s[y].depth
  {
    assert Placed(s, y) && Descent(s, hash, y);
    if s[y].parent != "" {
      assert Placed(s, s[y].parent);
      BelowKept(s, t, hash, s[y].parent, x);
    }
  }

  /** No step adds a passport under a revoked one. */
  lemma NothingNewBelow(s: Store, hash: Hash, op: Op, x: string, y: string)
    requires Good(s, hash) && Admissible(s, op) && x in s && s[x].phase == Phase.Revoked
    requires Good(Step(s, hash, op), hash) && y in Step(s, hash, op)
    ensures Below(Step(s, hash, op), y, x) <==> y in s && Below(s, y, x)
  {
    var t := Step(s, hash, op);
    StepGrows(s, hash, op);
    if y in s {
      BelowKept(s, t, hash, y, x);
    } else if op.Delegate? {
      var up := op.parentID;
      BelowKept(s, t, hash, up, x);
      assert Placed(s, up);
      if up != x && Below(s, up, x) {
        BelowRevokedIsRefused(s, hash, up, x);
      }
    }
  }

  /** Once x is revoked its strict descendants are frozen and it stays revoked, whatever happens afterwards. */
  lemma {:induction false} RevocationFreezes(s: Store, hash: Hash, ops: seq<Op>, x: string, y: string)
    requires Good(s, hash) && AdmissibleRun(s, hash, ops)
    requires x in s && s[x].phase == Phase.Revoked
    ensures var t := Run(s, hash, ops);
      && Good(t, hash)
      && x in t && t[x].phase == Phase.Revoked
      && ((y in t && Below(t, y, x)) <==> (y in s && Below(s, y, x)))
    decreases |ops|
  {
    if ops != [] {
      StepKeepsGood(s, hash, ops[0]);
      StepGrows(s, hash, ops[0]);
      var t := Step(s, hash, ops[0]);
      if y in t {
        NothingNewBelow(s, hash, ops[0], x, y);
      }
      RevocationFreezes(t, hash, ops[1..], x, y);
    }
  }

  // Expiry and depth.

  ghost predicate OutlivedBy(s: Store, id: string, up: string)
    requires id in s && up in s
  {
    s[id].expiresAt <= s[up].expiresAt
  }

  /** No stored passport outlives its parent, whatever expiries were asked for. */
  ghost predicate Outlived(s: Store) {
    forall id, up {:trigger OutlivedBy(s, id, up)} | id in s && up in s && s[id].parent == up :: OutlivedBy(s, id, up)
  }

  lemma StepKeepsOutlived(s: Store, hash: Hash, op: Op)
    requires Ordered(s) && Outlived(s) && Admissible(s, op)
    ensures Outlived(Step(s, hash, op))
  {
    var t := Step(s, hash, op);
    forall id, up | id in t && up in t && t[id].parent == up ensures OutlivedBy(t, id, up) {
      if id in s && up in s { assert OutlivedBy(s, id, up); }
    }
  }

  lemma {:induction false} RunKeepsOutlived(s: Store, hash: Hash, ops: seq<Op>)
    requires Ordered(s) && Outlived(s) && AdmissibleRun(s, hash, ops)
    ensures Outlived(Run(s, hash, ops))
    decreases |ops|
  {
    if ops != [] {
      StepKeepsOrdered(s, hash, ops[0]);
      StepKeepsOutlived(s, hash, ops[0]);
      RunKeepsOutlived(Step(s, hash, ops[0]), hash, ops[1..]);
    }
  }

  lemma {:induction false} AncestorOutlives(s: Store, id: string, n: nat)
    requires Leveled(s) && Outlived(s) && id in s && n <= s[id].depth
    ensures Ancestor(s, id, n) in s && s[id].expiresAt <= s[Ancestor(s, id, n)].expiresAt
    decreases n
  {
    assert Level(s, id);
    if n > 0 {
      assert OutlivedBy(s, id, s[id].parent);
      AncestorOutlives(s, s[id].parent, n - 1);
    }
  }

  /**
   So a delegation succeeds only while no passport on the way to the root has expired, although only the parent's
   expiry is looked at; and the child outlives none of them.
   */
  lemma DelegatedWithinAllExpiries(s: Store, hash: Hash, parentID: string, id: string, now: Time,
      req: DelegationRequest, n: nat)
    requires Good(s, hash) && Outlived(s) && parentID in s && n <= s[parentID].depth
    requires DelegateError(s, hash, parentID, id, now, req).None?
    ensures Ancestor(s, parentID, n) in s && now <= s[Ancestor(s, parentID, n)].expiresAt
    ensures Child(hash, s[parentID], id, req).expiresAt <= s[Ancestor(s, parentID, n)].expiresAt
  {
    GoodIsLeveled(s, hash);
    AncestorOutlives(s, parentID, n);
  }

  /** If no request asks for more than d, no passport is deeper; without any request for a limit that is eight. */
  lemma {:induction false} DepthsWithin(s: Store, hash: Hash, ops: seq<Op>, d: int, id: string)
    requires Ordered(s) && AdmissibleRun(s, hash, ops) && 0 <= d
    requires forall k | k in s :: s[k].depth <= d
    requires forall op | op in ops && op.Delegate? :: DepthLimit(op.req) <= d
    requires id in Run(s, hash, ops)
    ensures Run(s, hash, ops)[id].depth <= d
    decreases |ops|
  {
    if ops != [] {
      StepKeepsOrdered(s, hash, ops[0]);
      DepthsWithin(Step(s, hash, ops[0]), hash, ops[1..], d, id);
    }
  }
}
