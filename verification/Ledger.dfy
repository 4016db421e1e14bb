/**
 The authority's ledger over whole runs: the stored records plus a history of closed leases.

 Conservation is an equation per execution and meter; crediting happens once per lease and never while its current
 expiry lies ahead, although the sweeper acts on records it read earlier.
 */
module Ledger {
  import opened Results
  import opened Meters
  import opened LeaseManager
  import opened BudgetAuthority

  /** A closed lease as it was stored last, and what its execution was charged for it. */
  datatype Closing = Closing(lease: Lease, charged: Meters)

  datatype Ledger = Ledger(store: Store, closed: map<Key, Closing>)

  datatype Op =
    | Create(executionID: string, limits: Meters)
    | Acquire(req: LeaseRequest, leaseID: string, now: Time)
    | Renew(leaseID: string, hint: Meters, now: Time)
    | Release(leaseID: string, consumed: Meters)
    | Reclaim(expired: Lease, now: Time)   // any record the sweeper ever listed, stale or not
    | Bump(executionID: string)

  ghost function FindById(s: Store, leaseID: string): Option<Lease> {
    if key :| key in s.leases && s.leases[key].id == leaseID then Some(s.leases[key]) else None
  }

  /** The part of a grant that is not credited back. */
  function Charge(granted: Meters, consumed: Meters): Meters {
    map m | m in granted :: Min(granted[m], At(consumed, m))
  }

  ghost function Close(g: Ledger, l: Lease, consumed: Meters): Ledger {
    Ledger(Closed(g.store, l, consumed), g.closed[KeyOf(l) := Closing(l, Charge(l.granted, consumed))])
  }

  ghost function Step(cfg: Config, g: Ledger, op: Op): Ledger {
    match op
    case Create(e, limits) => g.(store := g.store.(budgets := g.store.budgets[e := Budget(e, 0, limits, limits)]))
    case Acquire(req, leaseID, now) =>
      if AcquireRefusal(g.store, req).Some? then g else g.(store := Acquired(cfg, g.store, req, leaseID, now))
    case Renew(leaseID, hint, now) => g.(store := RenewOutcome(cfg, g.store, FindById(g.store, leaseID), hint, now).0)
    case Release(leaseID, consumed) =>
      var found := FindById(g.store, leaseID);
      if found.None? then g else Close(g, found.value, consumed)
    case Reclaim(expired, now) =>
      var key := KeyOf(expired);
      if key !in g.store.leases || g.store.leases[key].expiresAt > now then g
      else Close(g, g.store.leases[key], g.store.leases[key].consumed)
    case Bump(e) =>
      if e !in g.store.budgets then g
      else
        var b := g.store.budgets[e];
        g.(store := g.store.(budgets := g.store.budgets[e := b.(epoch := (b.epoch + 1) % EPOCHS)]))
  }

  /** A budget is created once, with limits that are not negative, and lease identifiers are drawn fresh. */
  ghost predicate Admissible(g: Ledger, op: Op) {
    match op
    case Create(e, limits) => e !in g.store.budgets && NonNegative(limits)
    case Acquire(_, leaseID, _) =>
      && (forall key | key in g.store.leases :: key.leaseID != leaseID)
      && (forall key | key in g.closed :: key.leaseID != leaseID)
    case _ => true
  }

  ghost predicate WellFormed(g: Ledger) {
    && (forall key | key in g.store.leases :: NonNegative(g.store.leases[key].granted))
    && (forall key | key in g.store.leases :: key == KeyOf(g.store.leases[key]) && key.executionID in g.store.budgets)
    && (forall key | key in g.closed :: key == KeyOf(g.closed[key].lease) && key.executionID in g.store.budgets)
    && (forall k, k' | k in g.store.leases && k' in g.store.leases && k.leaseID == k'.leaseID :: k == k')
    && (forall k, k' | k in g.closed && k' in g.closed && k.leaseID == k'.leaseID :: k == k')
    && (forall k, k' | k in g.store.leases && k' in g.closed :: k.leaseID != k'.leaseID)
  }

  ghost function LiveSlice(leases: map<Key, Lease>, e: string, m: string): map<Key, real> {
    map key | key in leases :: if key.executionID == e then At(leases[key].granted, m) else 0.0
  }

  ghost function ChargedSlice(closed: map<Key, Closing>, e: string, m: string): map<Key, real> {
    map key | key in closed :: if key.executionID == e then At(closed[key].charged, m) else 0.0
  }

  ghost function LiveAt(leases: map<Key, Lease>, e: string, m: string): real {
    Sum(LiveSlice(leases, e, m))
  }

  ghost function ChargedAt(closed: map<Key, Closing>, e: string, m: string): real {
    Sum(ChargedSlice(closed, e, m))
  }

  ghost predicate Balanced(g: Ledger, e: string, m: string)
    requires e in g.store.budgets
  {
    var b := g.store.budgets[e];
    At(b.remaining, m) >= 0.0 &&
    At(b.remaining, m) + LiveAt(g.store.leases, e, m) + ChargedAt(g.closed, e, m) == At(b.limits, m)
  }

  ghost predicate Conserved(g: Ledger) {
    WellFormed(g) && forall e, m | e in g.store.budgets :: Balanced(g, e, m)
  }

  lemma FoundUnique(g: Ledger, leaseID: string, l: Lease)
    requires WellFormed(g) && InStore(g.store, leaseID, l)
    ensures FindById(g.store, leaseID) == Some(l)
  {
  }

  /** On a well-formed ledger the recorded reclaim is the transaction the authority performs. */
  lemma ReclaimAgrees(cfg: Config, g: Ledger, expired: Lease, now: Time)
    requires WellFormed(g)
    ensures Step(cfg, g, Reclaim(expired, now)).store == Reclaimed(g.store, expired, now)
  {
    var key := KeyOf(expired);
    if key in g.store.leases {
      var l := g.store.leases[key];
      assert l.(id := expired.id, executionID := expired.executionID) == l;
    }
  }

  lemma LivePut(leases: map<Key, Lease>, key: Key, l: Lease, e: string, m: string)
    ensures LiveAt(leases[key := l], e, m) == LiveAt(leases, e, m)
      + if key.executionID == e
        then At(l.granted, m) - (if key in leases then At(leases[key].granted, m) else 0.0) else 0.0
  {
    var v := if key.executionID == e then At(l.granted, m) else 0.0;
    assert LiveSlice(leases[key := l], e, m) == LiveSlice(leases, e, m)[key := v];
    SumPut(LiveSlice(leases, e, m), key, v);
  }

  lemma LiveRemove(leases: map<Key, Lease>, key: Key, e: string, m: string)
    requires key in leases
    ensures LiveAt(leases, e, m) == LiveAt(leases - {key}, e, m)
      + if key.executionID == e then At(leases[key].granted, m) else 0.0
  {
    assert LiveSlice(leases - {key}, e, m) == LiveSlice(leases, e, m) - {key};
    SumRemove(LiveSlice(leases, e, m), key);
  }

  lemma ChargedPut(closed: map<Key, Closing>, key: Key, c: Closing, e: string, m: string)
    requires key !in closed
    ensures ChargedAt(closed[key := c], e, m) == ChargedAt(closed, e, m)
      + if key.executionID == e then At(c.charged, m) else 0.0
  {
    var v := if key.executionID == e then At(c.charged, m) else 0.0;
    assert ChargedSlice(closed[key := c], e, m) == ChargedSlice(closed, e, m)[key := v];
    SumPut(ChargedSlice(closed, e, m), key, v);
  }

  /** Credit and charge split a grant. */
  lemma CreditAndCharge(granted: Meters, consumed: Meters, m: string)
    ensures At(Credit(granted, consumed), m) + At(Charge(granted, consumed), m) == At(granted, m)
    ensures At(Credit(granted, consumed), m) >= 0.0
  {
  }

  lemma CreateConserves(cfg: Config, g: Ledger, e: string, limits: Meters)
    requires Conserved(g) && Admissible(g, Create(e, limits))
    ensures Conserved(Step(cfg, g, Create(e, limits)))
  {
    var g' := Step(cfg, g, Create(e, limits));
    forall d, m | d in g'.store.budgets ensures Balanced(g', d, m) {
      if d == e {
        SumZero(LiveSlice(g.store.leases, e, m));
        SumZero(ChargedSlice(g.closed, e, m));
      } else {
        assert Balanced(g, d, m);
      }
    }
  }

  /** What an acquired lease is granted never exceeds what remains. */
  lemma GrantWithin(cfg: Config, s: Store, req: LeaseRequest, m: string)
    requires AcquireRefusal(s, req).None?
    ensures var b := s.budgets[req.executionID];
      && 0.0 <= At(Grants(cfg, b, req.hint), m)
      && (m in b.limits ==> At(Grants(cfg, b, req.hint), m) <= At(b.remaining, m))
  {
  }

  lemma AcquireBalanced(cfg: Config, g: Ledger, req: LeaseRequest, leaseID: string, now: Time, d: string, m: string)
    requires d in g.store.budgets && Balanced(g, d, m)
    requires AcquireRefusal(g.store, req).None? && Key(req.executionID, leaseID) !in g.store.leases
    ensures var g' := g.(store := Acquired(cfg, g.store, req, leaseID, now));
      d in g'.store.budgets && Balanced(g', d, m)
  {
    var b := g.store.budgets[req.executionID];
    LivePut(g.store.leases, Key(req.executionID, leaseID), LeaseFor(cfg, b, req, leaseID, now), d, m);
    GrantWithin(cfg, g.store, req, m);
  }

  lemma AcquireWellFormed(cfg: Config, g: Ledger, req: LeaseRequest, leaseID: string, now: Time)
    requires WellFormed(g) && Admissible(g, Acquire(req, leaseID, now)) && AcquireRefusal(g.store, req).None?
    ensures WellFormed(g.(store := Acquired(cfg, g.store, req, leaseID, now)))
  {
    forall m { GrantWithin(cfg, g.store, req, m); }
  }

  lemma AcquireConserves(cfg: Config, g: Ledger, req: LeaseRequest, leaseID: string, now: Time)
    requires Conserved(g) && Admissible(g, Acquire(req, leaseID, now))
    ensures Conserved(Step(cfg, g, Acquire(req, leaseID, now)))
  {
    if AcquireRefusal(g.store, req).None? {
      AcquireWellFormed(cfg, g, req, leaseID, now);
      forall d, m | d in g.store.budgets {
        AcquireBalanced(cfg, g, req, leaseID, now, d, m);
      }
    }
  }

  /** A grant is the largest amount within the hint, what remains and the fraction of the limit, or nothing. */
  lemma GrantIsLargest(cfg: Config, b: Budget, hint: Meters, m: string, x: real)
    requires m in b.limits && x > 0.0
    ensures x <= At(Grants(cfg, b, hint), m) <==>
      && x <= (if m in hint then hint[m] else b.limits[m])
      && x <= At(b.remaining, m)
      && x <= cfg.maxLeaseFraction * b.limits[m]
  {
    var hinted := if m in hint then hint[m] else b.limits[m];
    assert At(Grants(cfg, b, hint), m) == Max(0.0, Offer(cfg, b.limits[m], At(b.remaining, m), hinted));
    OfferIsLargest(cfg, b.limits[m], At(b.remaining, m), hinted, x);
  }

  lemma OfferIsLargest(cfg: Config, limit: real, remaining: real, hint: real, x: real)
    ensures x <= Offer(cfg, limit, remaining, hint) <==> x <= hint && x <= remaining && x <= Fraction(cfg, limit)
  {
  }

  lemma TopUpWithin(cfg: Config, b: Budget, hint: Meters, m: string)
    ensures 0.0 <= At(TopUps(cfg, b, hint), m)
    ensures m in TopUps(cfg, b, hint) ==> At(TopUps(cfg, b, hint), m) <= At(b.remaining, m)
  {
  }

  lemma RenewBalanced(cfg: Config, g: Ledger, l: Lease, hint: Meters, now: Time, d: string, m: string)
    requires Conserved(g) && KeyOf(l) in g.store.leases && g.store.leases[KeyOf(l)] == l
    requires l.executionID != "" && d in g.store.budgets
    ensures var g' := g.(store := RenewOutcome(cfg, g.store, Some(l), hint, now).0);
      d in g'.store.budgets && Balanced(g', d, m)
  {
    var s' := RenewOutcome(cfg, g.store, Some(l), hint, now).0;
    assert Balanced(g, d, m);
    LivePut(g.store.leases, KeyOf(l), s'.leases[KeyOf(l)], d, m);
    TopUpWithin(cfg, g.store.budgets[l.executionID], hint, m);
  }

  lemma RenewShape(cfg: Config, s: Store, l: Lease, hint: Meters, now: Time) returns (l': Lease)
    requires KeyOf(l) in s.leases && l.executionID in s.budgets && l.executionID != ""
    ensures KeyOf(l') == KeyOf(l) && l'.consumed == l.consumed && l'.expiresAt == now + cfg.leaseTTL
    ensures NonNegative(l.granted) ==> NonNegative(l'.granted)
    ensures l'.replicaID == l.replicaID
    ensures RenewOutcome(cfg, s, Some(l), hint, now).1 == Success(l')
    ensures RenewOutcome(cfg, s, Some(l), hint, now).0.leases == s.leases[KeyOf(l) := l']
    ensures RenewOutcome(cfg, s, Some(l), hint, now).0.budgets.Keys == s.budgets.Keys
  {
    l' := RenewOutcome(cfg, s, Some(l), hint, now).1.value;
  }

  lemma RenewWellFormed(cfg: Config, g: Ledger, l: Lease, hint: Meters, now: Time)
    requires WellFormed(g) && KeyOf(l) in g.store.leases && g.store.leases[KeyOf(l)] == l
    requires l.executionID != ""
    ensures WellFormed(g.(store := RenewOutcome(cfg, g.store, Some(l), hint, now).0))
    ensures RenewOutcome(cfg, g.store, Some(l), hint, now).0.budgets.Keys == g.store.budgets.Keys
  {
    var l' := RenewShape(cfg, g.store, l, hint, now);
    ReplaceKeepsWellFormed(g, l', RenewOutcome(cfg, g.store, Some(l), hint, now).0.budgets);
  }

  lemma ReplaceKeepsWellFormed(g: Ledger, l: Lease, budgets: map<string, Budget>)
    requires WellFormed(g) && KeyOf(l) in g.store.leases && budgets.Keys == g.store.budgets.Keys
    requires NonNegative(l.granted)
    ensures WellFormed(g.(store := Store(budgets, g.store.leases[KeyOf(l) := l])))
  {
  }

  lemma RenewConserves(cfg: Config, g: Ledger, leaseID: string, hint: Meters, now: Time)
    requires Conserved(g)
    ensures Conserved(Step(cfg, g, Renew(leaseID, hint, now)))
  {
    var found := FindById(g.store, leaseID);
    if found.Some? && found.value.executionID != "" {
      RenewWellFormed(cfg, g, found.value, hint, now);
      forall d, m | d in g.store.budgets { RenewBalanced(cfg, g, found.value, hint, now, d, m); }
    }
  }

  lemma CloseConserves(g: Ledger, l: Lease, consumed: Meters)
    requires Conserved(g) && KeyOf(l) in g.store.leases && g.store.leases[KeyOf(l)] == l
    ensures Conserved(Close(g, l, consumed))
  {
    forall d, m | d in g.store.budgets {
      CloseBalanced(g, l, consumed, d, m);
    }
  }

  lemma CloseBalanced(g: Ledger, l: Lease, consumed: Meters, d: string, m: string)
    requires d in g.store.budgets && Balanced(g, d, m) && KeyOf(l) !in g.closed
    requires KeyOf(l) in g.store.leases && g.store.leases[KeyOf(l)] == l
    ensures d in Close(g, l, consumed).store.budgets && Balanced(Close(g, l, consumed), d, m)
  {
    LiveRemove(g.store.leases, KeyOf(l), d, m);
    ChargedPut(g.closed, KeyOf(l), Closing(l, Charge(l.granted, consumed)), d, m);
    CreditAndCharge(l.granted, consumed, m);
    CloseRemaining(g.store, l, consumed, d, m);
  }

  lemma BumpConserves(cfg: Config, g: Ledger, e: string)
    requires Conserved(g)
    ensures Conserved(Step(cfg, g, Bump(e)))
  {
    var g' := Step(cfg, g, Bump(e));
    forall d, m | d in g'.store.budgets ensures Balanced(g', d, m) {
      assert Balanced(g, d, m);
    }
  }

  // What a transaction does to the leases: nothing, or one of them opens, is renewed or closes.

  ghost predicate Leaves(g: Ledger, g': Ledger) {
    g'.store.leases == g.store.leases && g'.closed == g.closed
  }

  ghost predicate Opens(g: Ledger, g': Ledger, key: Key) {
    && key !in g.store.leases && key !in g.closed && key in g'.store.leases
    && g'.store.leases == g.store.leases[key := g'.store.leases[key]] && g'.closed == g.closed
  }

  ghost predicate Renews(g: Ledger, g': Ledger, key: Key) {
    && key in g.store.leases && key in g'.store.leases
    && g'.store.leases == g.store.leases[key := g'.store.leases[key]] && g'.closed == g.closed
    && g'.store.leases[key].replicaID == g.store.leases[key].replicaID
    && forall m :: At(g.store.leases[key].granted, m) <= At(g'.store.leases[key].granted, m)
  }

  ghost predicate Closes(g: Ledger, g': Ledger, key: Key) {
    && key in g.store.leases && key !in g.closed && key in g'.closed
    && g'.store.leases == g.store.leases - {key}
    && g'.closed == g.closed[key := g'.closed[key]] && g'.closed[key].lease == g.store.leases[key]
  }

  lemma RenewOnlyRenews(cfg: Config, g: Ledger, leaseID: string, hint: Meters, now: Time) returns (key: Key)
    requires WellFormed(g)
    ensures var g' := Step(cfg, g, Renew(leaseID, hint, now));
      Leaves(g, g') || Renews(g, g', key)
  {
    var found := FindById(g.store, leaseID);
    key := Key("", leaseID);
    if found.Some? && found.value.executionID != "" {
      key := KeyOf(found.value);
      var l' := RenewShape(cfg, g.store, found.value, hint, now);
      forall m { TopUpWithin(cfg, g.store.budgets[found.value.executionID], hint, m); }
    }
  }

  lemma CloseOnlyCloses(g: Ledger, l: Lease, consumed: Meters)
    requires WellFormed(g) && KeyOf(l) in g.store.leases && g.store.leases[KeyOf(l)] == l
    ensures Closes(g, Close(g, l, consumed), KeyOf(l))
  {
  }

  lemma StepShape(cfg: Config, g: Ledger, op: Op) returns (key: Key)
    requires WellFormed(g) && Admissible(g, op)
    ensures var g' := Step(cfg, g, op);
      || Leaves(g, g')
      || (op.Acquire? && Opens(g, g', key) && g'.store.leases[key].replicaID == op.req.replicaID)
      || (op.Renew? && Renews(g, g', key))
      || ((op.Release? || op.Reclaim?) && Closes(g, g', key))
  {
    key := Key("", "");
    match op
    case Create(_, _) =>
    case Acquire(req, leaseID, _) => key := Key(req.executionID, leaseID);
    case Renew(leaseID, hint, now) => key := RenewOnlyRenews(cfg, g, leaseID, hint, now);
    case Release(leaseID, consumed) =>
      var found := FindById(g.store, leaseID);
      if found.Some? {
        key := KeyOf(found.value);
        CloseOnlyCloses(g, found.value, consumed);
      }
    case Reclaim(expired, now) =>
      key := KeyOf(expired);
      if key in g.store.leases && g.store.leases[key].expiresAt <= now {
        CloseOnlyCloses(g, g.store.leases[key], g.store.leases[key].consumed);
      }
    case Bump(_) =>
  }

  /** Every transaction keeps the equation. */
  lemma StepConserves(cfg: Config, g: Ledger, op: Op)
    requires Conserved(g) && Admissible(g, op)
    ensures Conserved(Step(cfg, g, op))
  {
    match op
    case Create(e, limits) => CreateConserves(cfg, g, e, limits);
    case Acquire(req, leaseID, now) => AcquireConserves(cfg, g, req, leaseID, now);
    case Renew(leaseID, hint, now) => RenewConserves(cfg, g, leaseID, hint, now);
    case Release(leaseID, consumed) =>
      var found := FindById(g.store, leaseID);
      if found.Some? { CloseConserves(g, found.value, consumed); }
    case Reclaim(expired, now) =>
      var key := KeyOf(expired);
      if key in g.store.leases && g.store.leases[key].expiresAt <= now {
        CloseConserves(g, g.store.leases[key], g.store.leases[key].consumed);
      }
    case Bump(e) => BumpConserves(cfg, g, e);
  }

  const EMPTY := Ledger(Store(map[], map[]), map[])

  ghost function Run(cfg: Config, g: Ledger, ops: seq<Op>): Ledger
    decreases |ops|
  {
    if ops == [] then g else Run(cfg, Step(cfg, g, ops[0]), ops[1..])
  }

  ghost predicate AdmissibleRun(cfg: Config, g: Ledger, ops: seq<Op>)
    decreases |ops|
  {
    ops == [] || (Admissible(g, ops[0]) && AdmissibleRun(cfg, Step(cfg, g, ops[0]), ops[1..]))
  }

  lemma {:induction false} RunConserves(cfg: Config, g: Ledger, ops: seq<Op>)
    requires Conserved(g) && AdmissibleRun(cfg, g, ops)
    ensures Conserved(Run(cfg, g, ops))
    decreases |ops|
  {
    if ops != [] {
      StepConserves(cfg, g, ops[0]);
      RunConserves(cfg, Step(cfg, g, ops[0]), ops[1..]);
    }
  }

  /**
   In every reachable ledger, per execution and meter: what remains, what live leases were granted and what closed
   leases were charged add up to the limit, and what remains is never negative.
   */
  lemma BudgetConserved(cfg: Config, ops: seq<Op>, e: string, m: string)
    requires AdmissibleRun(cfg, EMPTY, ops)
    requires e in Run(cfg, EMPTY, ops).store.budgets
    ensures var g := Run(cfg, EMPTY, ops);
      && At(g.store.budgets[e].remaining, m) >= 0.0
      && At(g.store.budgets[e].remaining, m) + LiveAt(g.store.leases, e, m) + ChargedAt(g.closed, e, m)
         == At(g.store.budgets[e].limits, m)
  {
    RunConserves(cfg, EMPTY, ops);
    assert Balanced(Run(cfg, EMPTY, ops), e, m);
  }

  /**
   One transaction closes at most one lease; a reclaim closes it only if its expiry, as stored now, has passed, and
   the credit it hands out is the stored grant less the stored consumption.
   */
  lemma ClosesOneExpired(cfg: Config, g: Ledger, op: Op, key: Key)
    requires WellFormed(g) && Admissible(g, op)
    requires key !in g.closed && key in Step(cfg, g, op).closed
    ensures key in g.store.leases && key !in Step(cfg, g, op).store.leases
    ensures Step(cfg, g, op).closed.Keys == g.closed.Keys + {key}
    ensures op.Reclaim? || (op.Release? && op.leaseID == key.leaseID)
    ensures op.Reclaim? ==> g.store.leases[key].expiresAt <= op.now
    ensures forall m ::
      At(Step(cfg, g, op).store.budgets[key.executionID].remaining, m)
      == At(g.store.budgets[key.executionID].remaining, m)
         + At(Credit(g.store.leases[key].granted, if op.Release? then op.consumed else g.store.leases[key].consumed), m)
  {
  }

  lemma ClosedStays(cfg: Config, g: Ledger, op: Op, key: Key)
    requires WellFormed(g) && Admissible(g, op) && key in g.closed
    ensures key in Step(cfg, g, op).closed && Step(cfg, g, op).closed[key] == g.closed[key]
  {
  }

  /** What was closed stays closed, charged as it was; its identifier never names a live lease again. */
  lemma {:induction false} CreditedOnce(cfg: Config, g: Ledger, ops: seq<Op>, key: Key)
    requires Conserved(g) && AdmissibleRun(cfg, g, ops) && key in g.closed
    ensures key in Run(cfg, g, ops).closed && Run(cfg, g, ops).closed[key] == g.closed[key]
    ensures key !in Run(cfg, g, ops).store.leases
    decreases |ops|
  {
    if ops != [] {
      ClosedStays(cfg, g, ops[0], key);
      StepConserves(cfg, g, ops[0]);
      CreditedOnce(cfg, Step(cfg, g, ops[0]), ops[1..], key);
    }
  }

  /** A sweep's transaction on an expired lease ends it for good, whatever runs between it and the sweep's others. */
  lemma ReclaimedForGood(cfg: Config, g: Ledger, expired: Lease, now: Time, rest: seq<Op>)
    requires Conserved(g) && KeyOf(expired) in g.store.leases && g.store.leases[KeyOf(expired)].expiresAt <= now
    requires AdmissibleRun(cfg, Step(cfg, g, Reclaim(expired, now)), rest)
    ensures var h, key := Run(cfg, Step(cfg, g, Reclaim(expired, now)), rest), KeyOf(expired);
      key !in h.store.leases && key in h.closed && h.closed[key].lease == g.store.leases[key]
  {
    StepConserves(cfg, g, Reclaim(expired, now));
    CreditedOnce(cfg, Step(cfg, g, Reclaim(expired, now)), rest, KeyOf(expired));
  }

  /** A lease that is still live after a renewal has the renewed expiry, so a sweep before it leaves the lease alone. */
  lemma RenewalDefersReclaim(cfg: Config, g: Ledger, key: Key, hint: Meters, now: Time, stale: Lease, later: Time)
    requires WellFormed(g) && key in g.store.leases && key.executionID != "" && KeyOf(stale) == key
    requires later < now + cfg.leaseTTL
    ensures var g' := Step(cfg, g, Renew(key.leaseID, hint, now));
      Step(cfg, g', Reclaim(stale, later)) == g' && key in g'.store.leases
  {
    FoundUnique(g, key.leaseID, g.store.leases[key]);
  }

  /** Nothing that an operation does can end a lease before this time. */
  ghost predicate Spares(cfg: Config, op: Op, leaseID: string, until: Time) {
    match op
    case Release(id, _) => id != leaseID
    case Renew(_, _, now) => until <= now + cfg.leaseTTL
    case Reclaim(_, now) => now < until
    case _ => true
  }

  lemma SparedStep(cfg: Config, g: Ledger, op: Op, key: Key, until: Time)
    requires WellFormed(g) && Admissible(g, op) && Spares(cfg, op, key.leaseID, until)
    requires key in g.store.leases && until <= g.store.leases[key].expiresAt
    ensures key in Step(cfg, g, op).store.leases && until <= Step(cfg, g, op).store.leases[key].expiresAt
  {
    if op.Renew? {
      var found := FindById(g.store, op.leaseID);
      if found.Some? && found.value.executionID != "" {
        var l' := RenewShape(cfg, g.store, found.value, op.hint, op.now);
      }
    }
  }

  /**
   A lease lives until its expiry, however transactions interleave: unless it is released by name, no sweep that reads
   the clock before then ends it, and no renewal, whose expiry lies as far ahead, brings the time forward.
   */
  lemma {:induction false} LivesUntilExpiry(cfg: Config, g: Ledger, ops: seq<Op>, key: Key, until: Time)
    requires Conserved(g) && AdmissibleRun(cfg, g, ops)
    requires key in g.store.leases && until <= g.store.leases[key].expiresAt
    requires forall op | op in ops :: Spares(cfg, op, key.leaseID, until)
    ensures key in Run(cfg, g, ops).store.leases && until <= Run(cfg, g, ops).store.leases[key].expiresAt
    decreases |ops|
  {
    if ops != [] {
      StepConserves(cfg, g, ops[0]);
      SparedStep(cfg, g, ops[0], key, until);
      LivesUntilExpiry(cfg, Step(cfg, g, ops[0]), ops[1..], key, until);
    }
  }

  /** The stored consumption is written at the grant, as zeros, and by nothing else. */
  ghost predicate NothingConsumed(g: Ledger) {
    forall key, m | key in g.store.leases :: At(g.store.leases[key].consumed, m) == 0.0
  }

  lemma StepConsumesNothing(cfg: Config, g: Ledger, op: Op)
    requires WellFormed(g) && NothingConsumed(g)
    ensures NothingConsumed(Step(cfg, g, op))
  {
    if op.Renew? {
      var found := FindById(g.store, op.leaseID);
      if found.Some? && found.value.executionID != "" {
        var l' := RenewShape(cfg, g.store, found.value, op.hint, op.now);
      }
    }
  }

  lemma {:induction false} RunConsumesNothing(cfg: Config, g: Ledger, ops: seq<Op>)
    requires Conserved(g) && NothingConsumed(g) && AdmissibleRun(cfg, g, ops)
    ensures Conserved(Run(cfg, g, ops)) && NothingConsumed(Run(cfg, g, ops))
    decreases |ops|
  {
    if ops != [] {
      StepConserves(cfg, g, ops[0]);
      StepConsumesNothing(cfg, g, ops[0]);
      RunConsumesNothing(cfg, Step(cfg, g, ops[0]), ops[1..]);
    }
  }

  /** So every reclaim charges nothing and credits the whole grant, however much the replica spent. */
  lemma ReclaimChargesNothing(cfg: Config, g: Ledger, expired: Lease, now: Time, m: string)
    requires Conserved(g) && NothingConsumed(g)
    requires KeyOf(expired) in g.store.leases && g.store.leases[KeyOf(expired)].expiresAt <= now
    ensures var g' := Step(cfg, g, Reclaim(expired, now));
      && KeyOf(expired) in g'.closed && At(g'.closed[KeyOf(expired)].charged, m) == 0.0
      && At(g'.store.budgets[expired.executionID].remaining, m)
         == At(g.store.budgets[expired.executionID].remaining, m) + At(g.store.leases[KeyOf(expired)].granted, m)
  {
    var l := g.store.leases[KeyOf(expired)];
    assert At(l.consumed, m) == 0.0;
    assert m in l.granted ==> l.granted[m] >= 0.0;
    CreditAndCharge(l.granted, l.consumed, m);
  }

  /** Only Create sets limits, and only of a new execution. */
  lemma LimitsStay(cfg: Config, g: Ledger, op: Op, e: string)
    requires WellFormed(g) && Admissible(g, op) && e in g.store.budgets
    ensures e in Step(cfg, g, op).store.budgets
    ensures Step(cfg, g, op).store.budgets[e].limits == g.store.budgets[e].limits
  {
    if op.Renew? { RenewKeepsLimits(cfg, g, op.leaseID, op.hint, op.now, e); }
  }

  lemma OnlyCreateAdds(cfg: Config, g: Ledger, op: Op, e: string)
    requires WellFormed(g) && e !in g.store.budgets && e in Step(cfg, g, op).store.budgets
    ensures op.Create? && op.executionID == e
  {
    if op.Renew? { RenewKeepsBudgets(cfg, g, op.leaseID, op.hint, op.now); }
  }

  lemma RenewKeepsBudgets(cfg: Config, g: Ledger, leaseID: string, hint: Meters, now: Time)
    requires WellFormed(g)
    ensures Step(cfg, g, Renew(leaseID, hint, now)).store.budgets.Keys == g.store.budgets.Keys
  {
    var found := FindById(g.store, leaseID);
    if found.Some? && found.value.executionID != "" {
      var l' := RenewShape(cfg, g.store, found.value, hint, now);
    }
  }

  lemma RenewKeepsLimits(cfg: Config, g: Ledger, leaseID: string, hint: Meters, now: Time, e: string)
    requires WellFormed(g) && e in g.store.budgets
    ensures var budgets := Step(cfg, g, Renew(leaseID, hint, now)).store.budgets;
      budgets.Keys == g.store.budgets.Keys && budgets[e].limits == g.store.budgets[e].limits
  {
  }
}
