/**
 Which optional fields narrow end to end: exactly those that every passport in between carries as a number.
 */
module DelegationGaps {
  import opened Delegation
  import opened DelegationChains
  import opened Text

  datatype Field = AmountField | CallsField | ExpiryField

  /** How a passport carries a field. */
  datatype Kind = Absent | Unreadable | NotANumber | Numeric

  function Value(p: Passport, f: Field): Amount {
    match f
    case AmountField => p.amount
    case CallsField => p.calls
    case ExpiryField => if p.expiresAt == 0 then Unset else Number(p.expiresAt as real)
  }

  function KindOf(a: Amount): Kind {
    match a
    case Unset => Absent
    case Malformed => Unreadable
    case NaN => NotANumber
    case Number(_) => Numeric
  }

  function Num(a: Amount): real {
    if a.Number? then a.v else 0.0
  }

  /** An expiry is given or it is not. */
  predicate Suits(f: Field, kinds: seq<Kind>) {
    f.ExpiryField? ==> forall t | 0 <= t < |kinds| :: kinds[t].Absent? || kinds[t].Numeric?
  }

  predicate Compatible(parent: Kind, child: Kind) {
    parent.Absent? || child.Absent? || (!parent.Unreadable? && !child.Unreadable?)
  }

  /** No link of a chain that carries a field in these ways fails for want of a number. */
  predicate Feasible(kinds: seq<Kind>) {
    forall t | 0 < t < |kinds| :: Compatible(kinds[t - 1], kinds[t])
  }

  predicate AllNumeric(kinds: seq<Kind>) {
    forall t | 0 <= t < |kinds| :: kinds[t].Numeric?
  }

  ghost predicate Carries(chain: seq<Passport>, i: nat, f: Field, kinds: seq<Kind>) {
    i + |kinds| <= |chain| && forall t | 0 <= t < |kinds| :: KindOf(Value(chain[i + t], f)) == kinds[t]
  }

  /** The last passport of the stretch asks for no more than its first, in every accepted chain that has one. */
  ghost predicate Held(f: Field, kinds: seq<Kind>)
    requires kinds != []
  {
    forall chain: seq<Passport>, leaf: Passport, maxDepth: int, i: nat |
      Accepted(chain, leaf, maxDepth) && Carries(chain, i, f, kinds) ::
      Num(Value(chain[i + |kinds| - 1], f)) <= Num(Value(chain[i], f))
  }

  lemma LinkWithin(p: Passport, q: Passport, f: Field)
    requires Linked(p, q)
    ensures Within(Value(p, f), Value(q, f))
  {
  }

  lemma NumericHeld(chain: seq<Passport>, leaf: Passport, maxDepth: int, i: nat, f: Field, kinds: seq<Kind>)
    requires Accepted(chain, leaf, maxDepth) && Carries(chain, i, f, kinds) && kinds != [] && AllNumeric(kinds)
    ensures Num(Value(chain[i + |kinds| - 1], f)) <= Num(Value(chain[i], f))
  {
    var j := i + |kinds| - 1;
    forall k | i <= k <= j ensures Value(chain[k], f).Number? {
      assert KindOf(Value(chain[i + (k - i)], f)) == kinds[k - i];
    }
    ValuesNarrow(chain, leaf, maxDepth, i, j);
  }

  lemma CarriedIsFeasible(chain: seq<Passport>, leaf: Passport, maxDepth: int, i: nat, f: Field, kinds: seq<Kind>)
    requires Accepted(chain, leaf, maxDepth) && Carries(chain, i, f, kinds)
    ensures Feasible(kinds)
  {
    forall t | 0 < t < |kinds| ensures Compatible(kinds[t - 1], kinds[t]) {
      LinkWithin(chain[i + t - 1], chain[i + t], f);
      assert KindOf(Value(chain[i + (t - 1)], f)) == kinds[t - 1] && KindOf(Value(chain[i + t], f)) == kinds[t];
    }
  }

  // A chain with a gap.

  function AmountOf(kind: Kind, n: nat): Amount {
    match kind
    case Absent => Unset
    case Unreadable => Malformed
    case NotANumber => NaN
    case Numeric => Number(n as real)
  }

  /** The passport at a depth that carries nothing but the one field. */
  function Bare(f: Field, kind: Kind, n: nat, depth: nat): Passport {
    Passport(Filler(depth + 1), Filler(depth), depth, "", [], [], [], map[],
             if f.AmountField? then AmountOf(kind, n) else Unset,
             if f.CallsField? then AmountOf(kind, n) else Unset,
             if f.ExpiryField? && kind.Numeric? then n else 0,
             Issued)
  }

  /** One before the gap and two from it on. */
  function Widening(f: Field, kinds: seq<Kind>, gap: nat): seq<Passport> {
    seq(|kinds|, t requires 0 <= t < |kinds| => Bare(f, kinds[t], if t < gap then 1 else 2, t))
  }

  lemma WideningAccepted(f: Field, kinds: seq<Kind>, gap: nat)
    requires Suits(f, kinds) && Feasible(kinds) && 0 < gap < |kinds| - 1 && !kinds[gap].Numeric?
    requires kinds[0].Numeric? && kinds[|kinds| - 1].Numeric?
    ensures var chain := Widening(f, kinds, gap);
      && Accepted(chain, chain[|chain| - 1], |chain|) && Carries(chain, 0, f, kinds)
      && Num(Value(chain[|chain| - 1], f)) > Num(Value(chain[0], f))
  {
    var chain := Widening(f, kinds, gap);
    forall t | 0 < t < |chain| ensures Linked(chain[t - 1], chain[t]) {
      assert Compatible(kinds[t - 1], kinds[t]);
      BareLinked(f, kinds[t - 1], kinds[t], if t - 1 < gap then 1 else 2, if t < gap then 1 else 2, t - 1);
    }
    forall t | 0 <= t < |kinds| ensures KindOf(Value(chain[t], f)) == kinds[t] {
      BareCarries(f, kinds[t], if t < gap then 1 else 2, t);
    }
    BareCarries(f, Numeric, 1, 0);
    BareCarries(f, Numeric, 2, |kinds| - 1);
  }

  lemma BareCarries(f: Field, kind: Kind, n: nat, depth: nat)
    requires n > 0 && (f.ExpiryField? ==> kind.Absent? || kind.Numeric?)
    ensures KindOf(Value(Bare(f, kind, n, depth), f)) == kind
    ensures kind.Numeric? ==> Num(Value(Bare(f, kind, n, depth), f)) == n as real
  {
  }

  lemma BareLinked(f: Field, k: Kind, l: Kind, a: nat, b: nat, depth: nat)
    requires Compatible(k, l) && (k.Numeric? && l.Numeric? ==> b <= a)
    requires f.ExpiryField? ==> (k.Absent? || k.Numeric?) && (l.Absent? || l.Numeric?)
    ensures Linked(Bare(f, k, a, depth), Bare(f, l, b, depth + 1))
  {
  }

  /**
   A field narrows along a stretch of passports, whatever chain it is part of, exactly when all of them carry it as a
   number, or no accepted chain has such a stretch because a malformed value meets another that is there.
   */
  lemma FieldHeldIff(f: Field, kinds: seq<Kind>)
    requires Suits(f, kinds) && kinds != [] && kinds[0].Numeric? && kinds[|kinds| - 1].Numeric?
    ensures Held(f, kinds) <==> AllNumeric(kinds) || !Feasible(kinds)
  {
    if AllNumeric(kinds) || !Feasible(kinds) {
      forall chain: seq<Passport>, leaf: Passport, maxDepth: int, i: nat |
        Accepted(chain, leaf, maxDepth) && Carries(chain, i, f, kinds)
        ensures Num(Value(chain[i + |kinds| - 1], f)) <= Num(Value(chain[i], f))
      {
        CarriedIsFeasible(chain, leaf, maxDepth, i, f, kinds);
        NumericHeld(chain, leaf, maxDepth, i, f, kinds);
      }
    } else {
      var gap :| 0 <= gap < |kinds| && !kinds[gap].Numeric?;
      WideningAccepted(f, kinds, gap);
      var chain := Widening(f, kinds, gap);
      assert Carries(chain, 0, f, kinds);
    }
  }
}
