/**
 Minting, delegating and revoking passports over a store of them.

 Passport identifiers are drawn at random; they arrive as parameters that name nothing in the store yet.
 */
module PassportAuthority {
  import opened Results
  import opened Delegation

  type Store = map<string, Passport>

  type Hash = string -> string

  /** What a grant or a delegation request asks for. */
  datatype Scope = Scope(
    audience: seq<string>,
    capabilities: seq<string>,
    resources: seq<string>,
    perRequest: map<string, string>,
    amount: Amount,
    calls: Amount)

  datatype DelegationRequest = DelegationRequest(scope: Scope, expiresAt: Time, maxDepth: int)

  const DEFAULT_MAX_DELEGATION_DEPTH := 8

  /** Stored under its own name, and one deeper than its parent if that is stored too. */
  ghost predicate Placed(s: Store, id: string)
    requires id in s
  {
    var p := s[id];
    p.id == id && 0 <= p.depth && (p.parent in s ==> p.depth == s[p.parent].depth + 1)
  }

  ghost predicate Ordered(s: Store) {
    "" !in s && forall id | id in s :: Placed(s, id)
  }

  ghost predicate Unused(s: Store, id: string) {
    id != "" && id !in s && forall k | k in s :: s[k].parent != id
  }

  /** The first revoked or missing passport on the way up from id, itself not included. */
  ghost function AncestorError(s: Store, id: string): Option<Code>
    requires Ordered(s) && id in s
    decreases s[id].depth
  {
    var up := s[id].parent;
    if up == "" then None
    else if up !in s then Some(BrokenChain)
    else if assert Placed(s, id) && Placed(s, up); s[up].phase == Phase.Revoked then Some(AncestorRevoked)
    else AncestorError(s, up)
  }

  function RootChainHash(hash: Hash, id: string): string {
    hash(id)
  }

  function ComputeChainHash(hash: Hash, parentChainHash: string, childID: string): string {
    hash(parentChainHash + childID)
  }

  /** The hash a child chains to: its parent's own, or one made from the parent's name if the parent is a root. */
  function HashFrom(hash: Hash, parent: Passport): string {
    if parent.chainHash == "" then RootChainHash(hash, parent.id) else parent.chainHash
  }

  function Root(id: string, scope: Scope, expiresAt: Time): Passport {
    Passport(id, "", 0, "", scope.audience, scope.capabilities, scope.resources, scope.perRequest, scope.amount,
             scope.calls, expiresAt, Issued)
  }

  function Child(hash: Hash, parent: Passport, id: string, req: DelegationRequest): Passport {
    Passport(id, parent.id, parent.depth + 1, ComputeChainHash(hash, HashFrom(hash, parent), id),
             req.scope.audience, req.scope.capabilities, req.scope.resources, req.scope.perRequest,
             req.scope.amount, req.scope.calls,
             if req.expiresAt != 0 && req.expiresAt < parent.expiresAt then req.expiresAt else parent.expiresAt,
             Issued)
  }

  /** The passport carries the very fields that were asked for. */
  predicate AsAsked(p: Passport, scope: Scope) {
    && p.audience == scope.audience && p.capabilities == scope.capabilities && p.resources == scope.resources
    && p.perRequest == scope.perRequest && p.amount == scope.amount && p.calls == scope.calls
  }

  function DepthLimit(req: DelegationRequest): int {
    if req.maxDepth > 0 then req.maxDepth else DEFAULT_MAX_DELEGATION_DEPTH
  }

  /** Why a delegation is refused, in the order in which the checks run. */
  ghost function DelegateError(s: Store, hash: Hash, parentID: string, id: string, now: Time, req: DelegationRequest)
    : Option<Code>
    requires Ordered(s)
  {
    if parentID !in s then Some(NotFound)
    else var parent := s[parentID];
      if parent.phase == Phase.Revoked then Some(AncestorRevoked)
      else if parent.phase == Phase.Expired || now > parent.expiresAt then Some(Code.Expired)
      else if AncestorError(s, parentID).Some? then AncestorError(s, parentID)
      else if parent.depth + 1 > DepthLimit(req) then Some(DepthExceeded)
      else if !Narrows(parent, Child(hash, parent, id, req)) then Some(Monotonicity)
      else None
  }

  ghost function Delegated(s: Store, hash: Hash, parentID: string, id: string, now: Time, req: DelegationRequest): Store
    requires Ordered(s)
  {
    if DelegateError(s, hash, parentID, id, now, req).Some? then s
    else s[id := Child(hash, s[parentID], id, req)]
  }

  function WithRevoked(s: Store, id: string): Store {
    if id in s then s[id := s[id].(phase := Phase.Revoked)] else s
  }

  lemma AddKeepsOrdered(s: Store, p: Passport)
    requires Ordered(s) && Unused(s, p.id) && 0 <= p.depth
    requires p.parent != p.id && (p.parent in s ==> p.depth == s[p.parent].depth + 1)
    ensures Ordered(s[p.id := p])
  {
    var t := s[p.id := p];
    forall k | k in t ensures Placed(t, k) {
      if k != p.id { assert Placed(s, k); }
    }
  }

  lemma RevokeKeepsOrdered(s: Store, id: string)
    requires Ordered(s)
    ensures Ordered(WithRevoked(s, id))
  {
    var t := WithRevoked(s, id);
    forall k | k in t ensures Placed(t, k) {
      assert Placed(s, k);
    }
  }

  class Authority {
    const hash: Hash
    const ttl: int
    var store: Store

    constructor (hash: Hash, ttl: int)
      ensures this.hash == hash && this.ttl == ttl && store == map[] && Ordered(store)
    {
      this.hash, this.ttl := hash, ttl;
      store := map[];
    }

    method Issue(id: string, now: Time, scope: Scope) returns (p: Passport)
      requires Ordered(store) && Unused(store, id)
      modifies this`store
      ensures p == Root(id, scope, now + ttl)
      ensures p.parent == "" && p.depth == 0 && p.expiresAt == now + ttl && p.phase == Issued && AsAsked(p, scope)
      ensures store == old(store)[id := p] && Ordered(store)
    {
      p := Root(id, scope, now + ttl);
      AddKeepsOrdered(store, p);
      store := store[id := p];
    }

    /** The index over whatever order the store lists its passports in. */
    method Index() returns (index: map<string, Passport>)
      requires Ordered(store)
      ensures index == store
    {
      index := map[];
      var left := store.Keys;
      while left != {}
        invariant left <= store.Keys && index.Keys == store.Keys - left
        invariant forall k | k in index :: index[k] == store[k]
        decreases left
      {
        var k :| k in left;
        assert Placed(store, k);
        index := index[store[k].id := store[k]];
        left := left - {k};
      }
    }

    /** The walk up from a passport; each step up is one less deep, so it ends. */
    method CheckAncestors(index: map<string, Passport>, parentID: string) returns (err: Option<Code>)
      requires Ordered(index) && parentID in index
      ensures err == AncestorError(index, parentID)
    {
      var cur := index[parentID];
      while cur.parent != ""
        invariant cur.id in index && index[cur.id] == cur
        invariant AncestorError(index, parentID) == AncestorError(index, cur.id)
        decreases cur.depth
      {
        if cur.parent !in index {
          return Some(BrokenChain);
        }
        var anc := index[cur.parent];
        assert Placed(index, cur.id) && Placed(index, cur.parent);
        if anc.phase == Phase.Revoked {
          return Some(AncestorRevoked);
        }
        cur := anc;
      }
      return None;
    }

    method Delegate(parentID: string, id: string, now: Time, req: DelegationRequest) returns (r: Result<Passport, Code>)
      requires Ordered(store) && Unused(store, id)
      modifies this`store
      ensures store == Delegated(old(store), hash, parentID, id, now, req) && Ordered(store)
      ensures DelegateError(old(store), hash, parentID, id, now, req) == if r.Failure? then Some(r.error) else None
      ensures r.Success? ==> store == old(store)[id := r.value] && r.value.parent == parentID
      ensures r.Success? ==> AsAsked(r.value, req.scope) && r.value.phase == Issued
    {
      var index := Index();
      if parentID !in index {
        return Failure(NotFound);
      }
      var parent := index[parentID];
      assert Placed(store, parentID);
      if parent.phase == Phase.Revoked {
        return Failure(AncestorRevoked);
      }
      if parent.phase == Phase.Expired {
        return Failure(Code.Expired);
      }
      if now > parent.expiresAt {
        return Failure(Code.Expired);
      }
      var broken := CheckAncestors(index, parentID);
      if broken.Some? {
        return Failure(broken.value);
      }
      var maxDepth := DEFAULT_MAX_DELEGATION_DEPTH;
      if req.maxDepth > 0 {
        maxDepth := req.maxDepth;
      }
      var childDepth := parent.depth + 1;
      if childDepth > maxDepth {
        return Failure(DepthExceeded);
      }
      var expiresAt := parent.expiresAt;
      if req.expiresAt != 0 && req.expiresAt < expiresAt {
        expiresAt := req.expiresAt;
      }
      var parentChainHash := parent.chainHash;
      if parentChainHash == "" {
        parentChainHash := RootChainHash(hash, parent.id);
      }
      var child := Passport(id, parentID, childDepth, ComputeChainHash(hash, parentChainHash, id),
                            req.scope.audience, req.scope.capabilities, req.scope.resources, req.scope.perRequest,
                            req.scope.amount, req.scope.calls, expiresAt, Issued);
      var bad := CheckMonotonicity(parent, child);
      if bad.Some? {
        return Failure(Monotonicity);
      }
      AddKeepsOrdered(store, child);
      store := store[id := child];
      r := Success(child);
    }

    /** Looks through the listing for the passport and writes it back revoked. */
    method Revoke(id: string) returns (found: bool)
      requires Ordered(store)
      modifies this`store
      ensures found == (id in old(store))
      ensures store == WithRevoked(old(store), id) && Ordered(store)
      ensures found ==> store == old(store)[id := old(store)[id].(phase := Phase.Revoked)]
    {
      RevokeKeepsOrdered(store, id);
      var left := store.Keys;
      while left != {}
        invariant left <= store.Keys && (id in store ==> id in left)
        invariant store == old(store)
        decreases left
      {
        var k :| k in left;
        assert Placed(store, k);
        if store[k].id == id {
          store := store[id := store[k].(phase := Phase.Revoked)];
          return true;
        }
        left := left - {k};
      }
      return false;
    }
  }
}
