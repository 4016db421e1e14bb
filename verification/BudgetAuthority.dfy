/**
 The control plane's budget authority: budgets, the leases deducted from them, and the transactions that move
 quantities between the two. Identifiers and clock readings are parameters.

 The functions say what a transaction does to the stored records; the class performs it.
 */
module BudgetAuthority {
  import opened Results
  import opened Meters
  import opened LeaseManager

  const EPOCHS := 0x1_0000_0000_0000_0000  // the epoch is an unsigned 64-bit counter

  datatype Budget = Budget(executionID: string, epoch: nat, limits: Meters, remaining: Meters)

  datatype Key = Key(executionID: string, leaseID: string)

  datatype Store = Store(budgets: map<string, Budget>, leases: map<Key, Lease>)

  datatype Config = Config(maxLeaseFraction: real, leaseTTL: int)

  datatype LeaseRequest = LeaseRequest(executionID: string, replicaID: string, hint: Meters, epoch: nat)

  function KeyOf(l: Lease): Key {
    Key(l.executionID, l.id)
  }

  function Min3(a: real, b: real, c: real): (m: real)
    ensures m <= a && m <= b && m <= c
    ensures m == a || m == b || m == c
  {
    var ab := if b < a then b else a;
    if c < ab then c else ab
  }

  /** The part of a limit that one lease may hold. */
  function Fraction(cfg: Config, limit: real): real {
    cfg.maxLeaseFraction * limit
  }

  /** The most that may be leased of one meter: what is hinted, what is left, and a fraction of the limit. */
  function Offer(cfg: Config, limit: real, remaining: real, hint: real): (r: real)
    ensures r <= remaining && r <= hint
  {
    Min3(hint, remaining, Fraction(cfg, limit))
  }

  function GrantOf(cfg: Config, b: Budget, hint: Meters, m: string): real
    requires m in b.limits
  {
    Max(0.0, Offer(cfg, b.limits[m], At(b.remaining, m), if m in hint then hint[m] else b.limits[m]))
  }

  function Grants(cfg: Config, b: Budget, hint: Meters): Meters {
    map m | m in b.limits :: GrantOf(cfg, b, hint, m)
  }

  function TopUpOf(cfg: Config, b: Budget, hint: Meters, m: string): real
    requires m in hint
  {
    if m in b.limits then Max(0.0, Offer(cfg, b.limits[m], At(b.remaining, m), hint[m])) else 0.0
  }

  function TopUps(cfg: Config, b: Budget, hint: Meters): Meters {
    map m | m in hint && TopUpOf(cfg, b, hint, m) > 0.0 :: TopUpOf(cfg, b, hint, m)
  }

  /** What closing a lease gives back: the unconsumed part, never less than nothing. */
  function Credit(granted: Meters, consumed: Meters): Meters {
    map m | m in granted :: Max(0.0, granted[m] - At(consumed, m))
  }

  function Subtract(a: Meters, b: Meters): (c: Meters)
    ensures c.Keys == a.Keys + b.Keys
    ensures forall m :: At(c, m) == At(a, m) - At(b, m)
  {
    map m | m in a.Keys + b.Keys :: At(a, m) - At(b, m)
  }

  function AcquireRefusal(s: Store, req: LeaseRequest): Option<Code> {
    if req.executionID !in s.budgets then Some(BudgetExhausted)
    else
      var b := s.budgets[req.executionID];
      if req.epoch != 0 && b.epoch != req.epoch then Some(EpochBumped)
      else if exists m | m in b.limits :: At(b.remaining, m) <= 0.0 then Some(BudgetExhausted)
      else None
  }

  function LeaseFor(cfg: Config, b: Budget, req: LeaseRequest, leaseID: string, now: Time): Lease {
    var granted := Grants(cfg, b, req.hint);
    Lease(leaseID, req.executionID, req.replicaID, b.epoch, granted, map m | m in granted :: 0.0, now + cfg.leaseTTL)
  }

  function Acquired(cfg: Config, s: Store, req: LeaseRequest, leaseID: string, now: Time): Store
    requires AcquireRefusal(s, req).None?
  {
    var b := s.budgets[req.executionID];
    var l := LeaseFor(cfg, b, req, leaseID, now);
    Store(s.budgets[req.executionID := b.(remaining := Subtract(b.remaining, l.granted))],
          s.leases[Key(req.executionID, leaseID) := l])
  }

  /** Renewal pushes the expiry out and, for hinted meters, tops the lease up out of what remains. */
  function RenewOutcome(cfg: Config, s: Store, found: Option<Lease>, hint: Meters, now: Time)
    : (Store, Result<Lease, Code>)
  {
    if found.None? || found.value.executionID == "" then (s, Failure(LeaseUnavailable))
    else
      var l := found.value.(expiresAt := now + cfg.leaseTTL);
      if hint == map[] then (s.(leases := s.leases[KeyOf(l) := l]), Success(l))
      else if l.executionID !in s.budgets then (s, Failure(NotFound))
      else
        var b := s.budgets[l.executionID];
        var top := TopUps(cfg, b, hint);
        var l' := l.(granted := Add(l.granted, top));
        (Store(s.budgets[l.executionID := b.(remaining := Subtract(b.remaining, top))], s.leases[KeyOf(l) := l']),
         Success(l'))
  }

  /** Closes a lease against the consumption it is charged with. */
  function Closed(s: Store, l: Lease, consumed: Meters): Store {
    var leases := s.leases - {KeyOf(l)};
    if l.executionID !in s.budgets then s.(leases := leases)
    else
      var b := s.budgets[l.executionID];
      Store(s.budgets[l.executionID := b.(remaining := Add(b.remaining, Credit(l.granted, consumed)))], leases)
  }

  function Reclaimed(s: Store, expired: Lease, now: Time): Store {
    var key := KeyOf(expired);
    if key !in s.leases || s.leases[key].expiresAt > now then s
    else Closed(s, s.leases[key].(id := expired.id, executionID := expired.executionID), s.leases[key].consumed)
  }

  predicate InStore(s: Store, leaseID: string, l: Lease) {
    exists key | key in s.leases :: s.leases[key] == l && l.id == leaseID
  }

  predicate Unknown(s: Store, leaseID: string) {
    forall key | key in s.leases :: s.leases[key].id != leaseID
  }

  /** Every lease is stored under its own execution and identifier. */
  ghost predicate Keyed(s: Store) {
    forall key | key in s.leases :: key == KeyOf(s.leases[key])
  }

  /** One meter of every lease that a sweep at this time gives back to an execution. */
  ghost function SweepSlice(leases: map<Key, Lease>, executionID: string, now: Time, m: string): map<Key, real> {
    map key | key in leases :: if key.executionID == executionID && leases[key].expiresAt <= now
                               then At(Credit(leases[key].granted, leases[key].consumed), m) else 0.0
  }

  /** Part of top, all but the meters in rest, has moved from one side to the other. */
  ghost predicate Moved(to0: Meters, from0: Meters, top: Meters, rest: set<string>, to: Meters, from: Meters) {
    && (forall m :: m in to <==> m in to0 || (m in top && m !in rest))
    && (forall m :: m in from <==> m in from0 || (m in top && m !in rest))
    && (forall m | m in to :: to[m] == At(to0, m) + if m in rest then 0.0 else At(top, m))
    && (forall m | m in from :: from[m] == At(from0, m) - if m in rest then 0.0 else At(top, m))
  }

  lemma MovedOne(to0: Meters, from0: Meters, top: Meters, rest: set<string>, to: Meters, from: Meters,
                 m: string, v: real)
    requires Moved(to0, from0, top, rest, to, from) && m in rest
    requires if m in top then v == top[m] && v > 0.0 else v <= 0.0
    ensures Moved(to0, from0, top, rest - {m},
                  if v > 0.0 then to[m := At(to, m) + v] else to,
                  if v > 0.0 then from[m := At(from0, m) - v] else from)
  {
  }

  lemma MovedAll(to0: Meters, from0: Meters, top: Meters, to: Meters, from: Meters)
    requires Moved(to0, from0, top, {}, to, from)
    ensures to == Add(to0, top) && from == Subtract(from0, top)
  {
  }

  /** The leases of a sweep in progress: those in rest are still to be looked at, the expired others are closed. */
  ghost predicate SweepingLeases(s0: Store, s: Store, rest: map<Key, Lease>, now: Time) {
    && (forall key | key in rest :: key in s0.leases && rest[key] == s0.leases[key])
    && (forall key :: key in s.leases <==> key in rest || (key in s0.leases && s0.leases[key].expiresAt > now))
    && (forall key | key in s.leases :: s.leases[key] == s0.leases[key])
  }

  /** Its budgets: what remains plus the credit still to come is what a complete sweep leaves. */
  ghost predicate SweepingBudgets(s0: Store, s: Store, rest: map<Key, Lease>, now: Time) {
    && s.budgets.Keys == s0.budgets.Keys
    && forall e, m | e in s.budgets ::
         At(s.budgets[e].remaining, m) + Sum(SweepSlice(rest, e, now, m))
         == At(s0.budgets[e].remaining, m) + Sum(SweepSlice(s0.leases, e, now, m))
  }

  lemma ReclaimExpired(s: Store, l: Lease, t: Time)
    requires KeyOf(l) in s.leases && s.leases[KeyOf(l)] == l && l.expiresAt <= t
    ensures Reclaimed(s, l, t) == Closed(s, l, l.consumed)
  {
    assert l.(id := l.id, executionID := l.executionID) == l;
  }

  lemma CloseRemaining(s: Store, l: Lease, consumed: Meters, e: string, m: string)
    requires e in s.budgets
    ensures Closed(s, l, consumed).budgets.Keys == s.budgets.Keys
    ensures At(Closed(s, l, consumed).budgets[e].remaining, m) == At(s.budgets[e].remaining, m)
      + if l.executionID == e then At(Credit(l.granted, consumed), m) else 0.0
  {
  }

  lemma SweepSliceRemove(leases: map<Key, Lease>, e: string, now: Time, m: string, key: Key)
    requires key in leases
    ensures Sum(SweepSlice(leases, e, now, m)) == Sum(SweepSlice(leases - {key}, e, now, m))
      + if key.executionID == e && leases[key].expiresAt <= now
        then At(Credit(leases[key].granted, leases[key].consumed), m) else 0.0
  {
    var slice := SweepSlice(leases, e, now, m);
    assert SweepSlice(leases - {key}, e, now, m) == slice - {key};
    SumRemove(slice, key);
  }

  lemma SweepCredit(s0: Store, s: Store, rest: map<Key, Lease>, now: Time, key: Key)
    requires SweepingBudgets(s0, s, rest, now) && key in rest && key == KeyOf(rest[key])
    ensures rest[key].expiresAt > now ==> SweepingBudgets(s0, s, rest - {key}, now)
    ensures rest[key].expiresAt <= now ==>
      SweepingBudgets(s0, Closed(s, rest[key], rest[key].consumed), rest - {key}, now)
  {
    var l := rest[key];
    forall e, m | e in s.budgets { SweepSliceRemove(rest, e, now, m, key); }
    if l.expiresAt <= now {
      forall e, m | e in s.budgets { CloseRemaining(s, l, l.consumed, e, m); }
    }
  }

  lemma GrantedAll(cfg: Config, b: Budget, hint: Meters, granted: Meters, remaining: Meters)
    requires granted.Keys == b.limits.Keys && forall m | m in granted :: granted[m] == GrantOf(cfg, b, hint, m)
    requires remaining.Keys == b.remaining.Keys + granted.Keys
    requires forall m | m in remaining :: remaining[m] == At(b.remaining, m) - At(granted, m)
    ensures granted == Grants(cfg, b, hint) && remaining == Subtract(b.remaining, granted)
  {
  }

  class Authority {
    var store: Store
    const cfg: Config

    constructor (cfg: Config)
      ensures this.cfg == cfg && store == Store(map[], map[])
    {
      this.cfg := cfg;
      store := Store(map[], map[]);
    }

    method CreateBudget(executionID: string, limits: Meters) returns (b: Budget)
      modifies this`store
      ensures b == Budget(executionID, 0, limits, limits)
      ensures store == old(store).(budgets := old(store).budgets[executionID := b])
    {
      var remaining: Meters := map[];
      var rest := limits.Keys;
      while rest != {}
        invariant rest <= limits.Keys && remaining.Keys == limits.Keys - rest
        invariant forall m | m in remaining :: remaining[m] == limits[m]
      {
        var m :| m in rest;
        remaining := remaining[m := limits[m]];
        rest := rest - {m};
      }
      assert remaining == limits;
      b := Budget(executionID, 0, limits, remaining);
      store := store.(budgets := store.budgets[executionID := b]);
    }

    method AcquireLease(req: LeaseRequest, leaseID: string, now: Time) returns (r: Result<Lease, Code>)
      modifies this`store
      ensures AcquireRefusal(old(store), req).Some? ==>
        r == Failure(AcquireRefusal(old(store), req).value) && store == old(store)
      ensures AcquireRefusal(old(store), req).None? ==>
        && r == Success(LeaseFor(cfg, old(store).budgets[req.executionID], req, leaseID, now))
        && store == Acquired(cfg, old(store), req, leaseID, now)
    {
      if req.executionID !in store.budgets {
        return Failure(BudgetExhausted);
      }
      var b := store.budgets[req.executionID];
      if req.epoch != 0 && b.epoch != req.epoch {
        return Failure(EpochBumped);
      }
      var granted: Meters := map[];
      var newRemaining := b.remaining;
      var rest := b.limits.Keys;
      while rest != {}
        invariant rest <= b.limits.Keys && granted.Keys == b.limits.Keys - rest
        invariant store == old(store)
        invariant forall m | m in granted :: granted[m] == GrantOf(cfg, b, req.hint, m) && At(b.remaining, m) > 0.0
        invariant newRemaining.Keys == b.remaining.Keys + granted.Keys
        invariant forall m | m in newRemaining :: newRemaining[m] == At(b.remaining, m) - At(granted, m)
      {
        var m :| m in rest;
        var limit, remaining := b.limits[m], At(b.remaining, m);
        if remaining <= 0.0 {
          return Failure(BudgetExhausted);
        }
        var hint := limit;
        if m in req.hint {
          hint := req.hint[m];
        }
        var grant := Offer(cfg, limit, remaining, hint);
        if grant < 0.0 {
          grant := 0.0;
        }
        granted := granted[m := grant];
        newRemaining := newRemaining[m := remaining - grant];
        rest := rest - {m};
      }
      GrantedAll(cfg, b, req.hint, granted, newRemaining);
      var l := Lease(leaseID, req.executionID, req.replicaID, b.epoch, granted, map m | m in granted :: 0.0,
                     now + cfg.leaseTTL);
      store := Store(store.budgets[req.executionID := b.(remaining := newRemaining)],
                     store.leases[Key(req.executionID, leaseID) := l]);
      r := Success(l);
    }

    /** The first listed lease with the identifier. */
    method FindLease(leaseID: string) returns (found: Option<Lease>)
      ensures found.Some? ==> InStore(store, leaseID, found.value)
      ensures found.None? ==> Unknown(store, leaseID)
    {
      var rest := store.leases.Keys;
      while rest != {}
        invariant rest <= store.leases.Keys
        invariant forall key | key in store.leases.Keys - rest :: store.leases[key].id != leaseID
      {
        var key :| key in rest;
        if store.leases[key].id == leaseID {
          return Some(store.leases[key]);
        }
        rest := rest - {key};
      }
      found := None;
    }

    method RenewLease(leaseID: string, hint: Meters, now: Time)
      returns (r: Result<Lease, Code>, ghost found: Option<Lease>)
      modifies this`store
      ensures found.Some? ==> InStore(old(store), leaseID, found.value)
      ensures found.None? ==> Unknown(old(store), leaseID)
      ensures (store, r) == RenewOutcome(cfg, old(store), found, hint, now)
    {
      var listed := FindLease(leaseID);
      found := listed;
      if listed.None? || listed.value.executionID == "" {
        return Failure(LeaseUnavailable), found;
      }
      var l := listed.value.(expiresAt := now + cfg.leaseTTL);
      var budgets := store.budgets;
      if hint != map[] {
        if l.executionID !in store.budgets {
          return Failure(NotFound), found;
        }
        var b := store.budgets[l.executionID];
        var granted, newRemaining := RenewMeters(b, l.granted, hint);
        budgets := budgets[l.executionID := b.(remaining := newRemaining)];
        l := l.(granted := granted);
      }
      store := Store(budgets, store.leases[KeyOf(l) := l]);
      r := Success(l);
    }

    /** The loop of RenewLease over the hinted meters: each top-up moves from what remains to what is granted. */
    method RenewMeters(b: Budget, granted0: Meters, hint: Meters) returns (granted: Meters, newRemaining: Meters)
      ensures granted == Add(granted0, TopUps(cfg, b, hint))
      ensures newRemaining == Subtract(b.remaining, TopUps(cfg, b, hint))
    {
      ghost var top := TopUps(cfg, b, hint);
      granted, newRemaining := granted0, b.remaining;
      var rest := hint.Keys;
      while rest != {}
        invariant rest <= hint.Keys
        invariant Moved(granted0, b.remaining, top, rest, granted, newRemaining)
      {
        var m :| m in rest;
        var topUp := TopUpMeter(b, hint, m);
        MovedOne(granted0, b.remaining, top, rest, granted, newRemaining, m, topUp);
        if topUp > 0.0 {
          granted := granted[m := At(granted, m) + topUp];
          newRemaining := newRemaining[m := At(b.remaining, m) - topUp];
        }
        rest := rest - {m};
      }
      MovedAll(granted0, b.remaining, top, granted, newRemaining);
    }

    /** One hinted meter; meters without a limit are skipped. */
    method TopUpMeter(b: Budget, hint: Meters, m: string) returns (topUp: real)
      requires m in hint
      ensures if m in TopUps(cfg, b, hint) then topUp == TopUps(cfg, b, hint)[m] && topUp > 0.0 else topUp <= 0.0
    {
      if m !in b.limits {
        return 0.0;
      }
      topUp := Min3(hint[m], At(b.remaining, m), Fraction(cfg, b.limits[m]));
    }

    /** The loop that ReleaseLease and reclaimLease share: credits every granted meter. */
    method CreditMeters(remaining: Meters, granted: Meters, consumed: Meters) returns (newRemaining: Meters)
      ensures newRemaining == Add(remaining, Credit(granted, consumed))
    {
      ghost var due := Credit(granted, consumed);
      newRemaining := remaining;
      var rest := granted.Keys;
      while rest != {}
        invariant rest <= granted.Keys
        invariant newRemaining.Keys == remaining.Keys + (granted.Keys - rest)
        invariant forall m | m in newRemaining ::
          newRemaining[m] == At(remaining, m) + if m in rest then 0.0 else At(due, m)
      {
        var m :| m in rest;
        var credit := granted[m] - At(consumed, m);
        if credit < 0.0 {
          credit := 0.0;
        }
        newRemaining := newRemaining[m := At(remaining, m) + credit];
        rest := rest - {m};
      }
    }

    method ReleaseLease(leaseID: string, consumed: Meters) returns (ghost found: Option<Lease>)
      modifies this`store
      ensures found.Some? ==> InStore(old(store), leaseID, found.value)
      ensures found.None? ==> Unknown(old(store), leaseID)
      ensures store == if found.None? then old(store) else Closed(old(store), found.value, consumed)
    {
      var listed := FindLease(leaseID);
      found := listed;
      if listed.None? {
        return;
      }
      var l := listed.value;
      var leases := store.leases - {KeyOf(l)};
      if l.executionID !in store.budgets {
        store := store.(leases := leases);
        return;
      }
      var b := store.budgets[l.executionID];
      var newRemaining := CreditMeters(b.remaining, l.granted, consumed);
      store := Store(store.budgets[l.executionID := b.(remaining := newRemaining)], leases);
    }

    /** Closes a lease that the sweeper saw expired, unless it is gone or was renewed since. */
    method ReclaimLease(expired: Lease, now: Time)
      modifies this`store
      ensures store == Reclaimed(old(store), expired, now)
    {
      var key := KeyOf(expired);
      if key !in store.leases {
        return;
      }
      var current := store.leases[key];
      if current.expiresAt > now {
        return;
      }
      if expired.executionID !in store.budgets {
        store := store.(leases := store.leases - {key});
        return;
      }
      var b := store.budgets[expired.executionID];
      var newRemaining := CreditMeters(b.remaining, current.granted, current.consumed);
      store := Store(store.budgets[expired.executionID := b.(remaining := newRemaining)], store.leases - {key});
    }

    /**
     Lists the leases, then reclaims the expired ones, each transaction reading the clock again. Run on its own it
     keeps exactly the unexpired leases and gives every execution the credit of its expired ones.
     */
    method Sweep(now: Time, clock: nat -> Time)
      requires Keyed(store)
      requires forall i: nat :: now <= clock(i)
      modifies this`store
      ensures forall key :: key in store.leases <==> key in old(store).leases && old(store).leases[key].expiresAt > now
      ensures forall key | key in store.leases :: store.leases[key] == old(store).leases[key]
      ensures store.budgets.Keys == old(store).budgets.Keys
      ensures forall e, m | e in store.budgets ::
        At(store.budgets[e].remaining, m)
        == At(old(store).budgets[e].remaining, m) + Sum(SweepSlice(old(store).leases, e, now, m))
    {
      ghost var s0 := store;
      var rest := store.leases;
      var i: nat := 0;
      while rest != map[]
        invariant SweepingLeases(s0, store, rest, now)
        invariant SweepingBudgets(s0, store, rest, now)
        decreases |rest|
      {
        var key :| key in rest;
        SweepCredit(s0, store, rest, now, key);
        if rest[key].expiresAt <= now {
          ReclaimExpired(store, rest[key], clock(i));
          ReclaimLease(rest[key], clock(i));
          i := i + 1;
        }
        rest := rest - {key};
      }
      forall e, m | e in store.budgets ensures Sum(SweepSlice(rest, e, now, m)) == 0.0 {
        assert SweepSlice(rest, e, now, m) == map[];
      }
    }

    method BumpEpoch(executionID: string) returns (r: Result<nat, Code>)
      modifies this`store
      ensures executionID !in old(store).budgets ==> r == Failure(NotFound) && store == old(store)
      ensures executionID in old(store).budgets ==>
        var b := old(store).budgets[executionID];
        && r == Success((b.epoch + 1) % EPOCHS)
        && store == old(store).(budgets := old(store).budgets[executionID := b.(epoch := (b.epoch + 1) % EPOCHS)])
    {
      if executionID !in store.budgets {
        return Failure(NotFound);
      }
      var b := store.budgets[executionID];
      b := b.(epoch := (b.epoch + 1) % EPOCHS);
      store := store.(budgets := store.budgets[executionID := b]);
      r := Success(b.epoch);
    }
  }
}
