/**
 Checking a delegation chain: every link names its parent, is one deeper and is no wider, field by field.

 Fields that narrow are optional, so a link says something about a field only where both ends carry it.
 */
module Delegation {
  import opened Results
  import opened Text

  type Time = int  // 0 is the source's zero time: no expiry given

  /** The text of a budget amount as the source reads it; a number that is not a number compares below nothing. */
  datatype Amount = Unset | Malformed | NaN | Number(v: real)

  datatype Phase = Issued | Active | Expired | Revoked

  datatype Passport = Passport(
    id: string,
    parent: string,               // empty at a root
    depth: int,
    chainHash: string,
    audience: seq<string>,
    capabilities: seq<string>,
    resources: seq<string>,       // the types of its resource selectors
    perRequest: map<string, string>,  // field to the text of its maximum, empty when it has none
    amount: Amount,
    calls: Amount,
    expiresAt: Time,
    phase: Phase)

  ghost predicate Subset(child: seq<string>, parent: seq<string>) {
    forall x | x in child :: x in parent
  }

  predicate Within(parent: Amount, child: Amount) {
    parent.Unset? || child.Unset? ||
      (!parent.Malformed? && !child.Malformed? && (parent.Number? && child.Number? ==> child.v <= parent.v))
  }

  predicate MaximumWithin(parent: string, child: string) {
    parent == "" || child == "" || AtMost(child, parent)
  }

  predicate ExpiryWithin(parent: Time, child: Time) {
    parent == 0 || child == 0 || child <= parent
  }

  ghost predicate FieldsWithin(parent: map<string, string>, child: map<string, string>) {
    forall f | f in child :: f in parent && MaximumWithin(parent[f], child[f])
  }

  /** The child asks for no more than the parent, in every field that both of them carry. */
  ghost predicate Narrows(parent: Passport, child: Passport) {
    && Subset(child.capabilities, parent.capabilities)
    && Subset(child.audience, parent.audience)
    && Subset(child.resources, parent.resources)
    && FieldsWithin(parent.perRequest, child.perRequest)
    && Within(parent.amount, child.amount)
    && Within(parent.calls, child.calls)
    && ExpiryWithin(parent.expiresAt, child.expiresAt)
  }

  predicate Continues(parent: Passport, child: Passport) {
    child.parent == parent.id && child.depth == parent.depth + 1
  }

  ghost predicate Linked(parent: Passport, child: Passport) {
    Continues(parent, child) && Narrows(parent, child)
  }

  /** What a chain has to be: it ends at the leaf, is not too deep, starts at a root, and every link holds. */
  ghost predicate Accepted(chain: seq<Passport>, leaf: Passport, maxDepth: int) {
    && chain != []
    && chain[|chain| - 1].id == leaf.id
    && |chain| - 1 <= maxDepth
    && chain[0].parent == ""
    && Links(chain)
  }

  ghost predicate Links(chain: seq<Passport>) {
    forall i | 0 < i < |chain| :: Linked(chain[i - 1], chain[i])
  }

  /** The code a rejected chain is answered with: that of the first check it fails. */
  ghost predicate Rejection(chain: seq<Passport>, leaf: Passport, maxDepth: int, code: Code) {
    if chain == [] || chain[|chain| - 1].id != leaf.id then code == BrokenChain
    else if |chain| - 1 > maxDepth then code == DepthExceeded
    else if chain[0].parent != "" then code == BrokenChain
    else exists i | 0 < i < |chain| :: FirstBroken(chain, i, code)
  }

  ghost predicate FirstBroken(chain: seq<Passport>, i: nat, code: Code)
    requires 0 < i < |chain|
  {
    && Links(chain[..i])
    && (if !Continues(chain[i - 1], chain[i]) then code == BrokenChain
        else !Narrows(chain[i - 1], chain[i]) && code == Monotonicity)
  }

  // The checks as the source runs them.

  method ToSet(ss: seq<string>) returns (m: set<string>)
    ensures forall x :: x in m <==> x in ss
  {
    m := {};
    for i := 0 to |ss|
      invariant forall x :: x in m <==> x in ss[..i]
    {
      m := m + {ss[i]};
    }
  }

  method CheckSubset(parent: set<string>, child: set<string>) returns (ok: bool)
    ensures ok <==> child <= parent
  {
    var left := child;
    while left != {}
      invariant left <= child && child - left <= parent
      decreases left
    {
      var k :| k in left;
      if k !in parent {
        return false;
      }
      left := left - {k};
    }
    return true;
  }

  method CheckList(parent: seq<string>, child: seq<string>) returns (ok: bool)
    ensures ok <==> Subset(child, parent)
  {
    var p := ToSet(parent);
    var c := ToSet(child);
    ok := CheckSubset(p, c);
  }

  method CheckFields(parent: map<string, string>, child: map<string, string>) returns (ok: bool)
    ensures ok <==> FieldsWithin(parent, child)
  {
    var left := child.Keys;
    while left != {}
      invariant left <= child.Keys
      invariant forall f | f in child && f !in left :: f in parent && MaximumWithin(parent[f], child[f])
      decreases left
    {
      var f :| f in left;
      if f !in parent {
        return false;
      }
      if child[f] != "" && parent[f] != "" {
        if Less(parent[f], child[f]) {
          return false;
        }
      }
      left := left - {f};
    }
    return true;
  }

  method CheckMonotonicity(parent: Passport, child: Passport) returns (err: Option<Code>)
    ensures err == if Narrows(parent, child) then None else Some(Monotonicity)
  {
    var ok := CheckList(parent.capabilities, child.capabilities);
    if !ok { return Some(Monotonicity); }
    ok := CheckList(parent.audience, child.audience);
    if !ok { return Some(Monotonicity); }
    ok := CheckList(parent.resources, child.resources);
    if !ok { return Some(Monotonicity); }
    ok := CheckFields(parent.perRequest, child.perRequest);
    if !ok { return Some(Monotonicity); }
    if !Within(parent.amount, child.amount) || !Within(parent.calls, child.calls) {
      return Some(Monotonicity);
    }
    if child.expiresAt != 0 && parent.expiresAt != 0 {
      if child.expiresAt > parent.expiresAt {
        return Some(Monotonicity);
      }
    }
    return None;
  }

  /** Accepts exactly the chains that meet Accepted, and says of any other what is wrong with it first. */
  method Verify(chain: seq<Passport>, leaf: Passport, maxDepth: int) returns (err: Option<Code>)
    ensures err.None? <==> Accepted(chain, leaf, maxDepth)
    ensures err.Some? ==> Rejection(chain, leaf, maxDepth, err.value)
  {
    if |chain| == 0 {
      return Some(BrokenChain);
    }
    if chain[|chain| - 1].id != leaf.id {
      return Some(BrokenChain);
    }
    if |chain| - 1 > maxDepth {
      return Some(DepthExceeded);
    }
    if chain[0].parent != "" {
      return Some(BrokenChain);
    }
    var i := 1;
    while i < |chain|
      invariant 1 <= i <= |chain|
      invariant Links(chain[..i])
    {
      if chain[i].parent != chain[i - 1].id || chain[i].depth != chain[i - 1].depth + 1 {
        assert FirstBroken(chain, i, BrokenChain);
        return Some(BrokenChain);
      }
      var bad := CheckMonotonicity(chain[i - 1], chain[i]);
      if bad.Some? {
        assert FirstBroken(chain, i, Monotonicity);
        return bad;
      }
      i := i + 1;
    }
    assert chain[..i] == chain;
    return None;
  }

  const DEFAULT_MAX_DEPTH := 8

  /** What the passport verifier makes of a token: its passport, or nothing. */
  type TokenVerifier = string -> Option<Passport>

  predicate VerifiesAll(verify: TokenVerifier, tokens: seq<string>) {
    forall t | t in tokens :: verify(t).Some?
  }

  function Passports(verify: TokenVerifier, tokens: seq<string>): seq<Passport>
    requires VerifiesAll(verify, tokens)
  {
    seq(|tokens|, i requires 0 <= i < |tokens| => verify(tokens[i]).value)
  }

  /** The delegation stage, given the tokens of the caller's ancestors. Without any there is nothing to check. */
  method Stage(tokens: seq<string>, own: Option<Passport>, verifier: Option<TokenVerifier>, maxDepth: int)
    returns (err: Option<Code>)
    ensures tokens == [] ==> err.None?
    ensures tokens != [] && own.None? ==> err == Some(PassportInvalid)
    ensures tokens != [] && own.Some? && verifier.None? ==> err == Some(Misconfiguration)
    ensures tokens != [] && own.Some? && verifier.Some? && !VerifiesAll(verifier.value, tokens) ==>
      err == Some(BrokenChain)
    ensures tokens != [] && own.Some? && verifier.Some? && VerifiesAll(verifier.value, tokens) ==>
      var chain := Passports(verifier.value, tokens) + [own.value];
      var limit := if maxDepth == 0 then 8 else maxDepth;
      && (err.None? <==> Accepted(chain, own.value, limit))
      && (err.Some? ==> Rejection(chain, own.value, limit, err.value))
  {
    if |tokens| == 0 {
      return None;
    }
    if own.None? {
      return Some(PassportInvalid);
    }
    if verifier.None? {
      return Some(Misconfiguration);
    }
    var chain: seq<Passport> := [];
    var i := 0;
    while i < |tokens|
      invariant 0 <= i <= |tokens| && |chain| == i
      invariant forall j | 0 <= j < i :: verifier.value(tokens[j]) == Some(chain[j])
    {
      var verified := verifier.value(tokens[i]);
      if verified.None? {
        return Some(BrokenChain);
      }
      chain := chain + [verified.value];
      i := i + 1;
    }
    assert VerifiesAll(verifier.value, tokens);
    err := Verify(chain + [own.value], own.value, if maxDepth == 0 then DEFAULT_MAX_DEPTH else maxDepth);
    assert chain == Passports(verifier.value, tokens);
  }
}
