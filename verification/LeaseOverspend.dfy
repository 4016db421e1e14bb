/**
 Runs that overspend, at any lease fraction.

 The sweeper charges a lease its stored consumption, which is always zero, and a lease manager does not look at the
 expiry of its lease. So a reclaimed lease hands its whole grant out again, whatever was spent under it.
 */
module LeaseOverspend {
  import opened Results
  import opened Meters
  import opened Text
  import opened LeaseManager
  import opened BudgetAuthority
  import opened LeaseProtocol
  import opened LeaseClosing
  import Runs = LeaseManagerRuns
  import L = Ledger

  /** A budget with x of the meter, of which every other meter still has something left. */
  ghost predicate Open(y: System, e: string, m: string, x: real) {
    && e in y.ledger.store.budgets
    && var limits := y.ledger.store.budgets[e].limits;
       && m in limits && limits[m] == x && x > 0.0
       && forall n | n in limits && n != m :: Remaining(y, e, n) > 0.0
  }

  predicate Fractional(cfg: Config) {
    0.0 < cfg.maxLeaseFraction <= 1.0
  }

  ghost function Remaining(y: System, e: string, m: string): real
    requires e in y.ledger.store.budgets
  {
    At(y.ledger.store.budgets[e].remaining, m)
  }

  ghost function Limits(y: System, e: string): Meters
    requires e in y.ledger.store.budgets
  {
    y.ledger.store.budgets[e].limits
  }

  /** So much of one meter and nothing of the others. */
  function Only(limits: Meters, m: string, g: real): Meters {
    map n | n in limits :: if n == m then g else 0.0
  }

  /** A request for one meter: nothing of the others, and no hint for itself. */
  function Asking(e: string, limits: Meters, m: string, r: string): LeaseRequest {
    LeaseRequest(e, r, map n | n in limits && n != m :: 0.0, 0)
  }

  function LeaseOf(e: string, limits: Meters, m: string, r: string, epoch: nat, leaseID: string, g: real, expiry: Time)
    : Lease
  {
    Lease(leaseID, e, r, epoch, Only(limits, m, g), Only(limits, m, 0.0), expiry)
  }

  /** The lease that the next request for the meter is granted. */
  ghost function NextLease(cfg: Config, y: System, e: string, m: string, x: real, name: string, now: Time): Lease
    requires e in y.ledger.store.budgets
  {
    LeaseOf(e, Limits(y, e), m, name, y.ledger.store.budgets[e].epoch, name, Lump(cfg, x, Remaining(y, e, m)),
            now + cfg.leaseTTL)
  }

  /** What one acquisition without a hint is granted: the fraction of the limit, or what remains if that is less. */
  function Lump(cfg: Config, x: real, remaining: real): real {
    if Fraction(cfg, x) <= remaining then Fraction(cfg, x) else remaining
  }

  lemma PartOf(f: real, x: real)
    requires 0.0 < f <= 1.0 && x > 0.0
    ensures 0.0 < f * x <= x
  {
    var rest := (1.0 - f) * x;
    assert rest >= 0.0;
    assert f * x + rest == x;
  }

  lemma FractionOf(cfg: Config, x: real)
    requires Fractional(cfg) && x > 0.0
    ensures 0.0 < Fraction(cfg, x) <= x
  {
    var f := cfg.maxLeaseFraction;
    PartOf(f, x);
    assert Fraction(cfg, x) == f * x;
  }

  lemma LumpGranted(cfg: Config, y: System, e: string, m: string, x: real, name: string, now: Time)
    requires Open(y, e, m, x) && Fractional(cfg) && Remaining(y, e, m) > 0.0
    ensures var req := Asking(e, Limits(y, e), m, name);
      && AcquireRefusal(y.ledger.store, req).None?
      && LeaseFor(cfg, y.ledger.store.budgets[e], req, name, now) == NextLease(cfg, y, e, m, x, name, now)
  {
    FractionOf(cfg, x);
    LumpGrants(cfg, y.ledger.store.budgets[e], m, x);
    ZeroOf(Limits(y, e), m, Lump(cfg, x, Remaining(y, e, m)));
  }

  lemma LumpGrants(cfg: Config, b: Budget, m: string, x: real)
    requires m in b.limits && b.limits[m] == x && 0.0 < Fraction(cfg, x) <= x && At(b.remaining, m) > 0.0
    ensures Grants(cfg, b, map n | n in b.limits && n != m :: 0.0)
         == Only(b.limits, m, Lump(cfg, x, At(b.remaining, m)))
  {
    var hint: Meters := map n | n in b.limits && n != m :: 0.0;
    OfferIs(cfg, x, At(b.remaining, m));
    assert GrantOf(cfg, b, hint, m) == Lump(cfg, x, At(b.remaining, m));
    forall n | n in b.limits && n != m ensures GrantOf(cfg, b, hint, n) == 0.0 {
      assert Offer(cfg, b.limits[n], At(b.remaining, n), hint[n]) <= hint[n];
    }
  }

  lemma OfferIs(cfg: Config, x: real, remaining: real)
    requires 0.0 < Fraction(cfg, x) <= x && remaining > 0.0
    ensures Max(0.0, Offer(cfg, x, remaining, x)) == Lump(cfg, x, remaining)
  {
    LeastOf(x, remaining, Fraction(cfg, x));
  }

  lemma LeastOf(x: real, remaining: real, part: real)
    requires 0.0 < part <= x && remaining > 0.0
    ensures Max(0.0, Min3(x, remaining, part)) == if part <= remaining then part else remaining
  {
  }

  lemma ZeroOf(limits: Meters, m: string, g: real)
    ensures (map n | n in Only(limits, m, g) :: 0.0) == Only(limits, m, 0.0)
  {
  }

  /** A replica without a lease takes one, reserves all of it and commits. */
  ghost function LeaseAndSpend(limits: Meters, m: string, g: real, lease: Lease, now: Time): seq<Event> {
    [Authority(L.Acquire(Asking(lease.executionID, limits, m, lease.replicaID), lease.id, now)),
     Install(lease.replicaID, lease),
     Local(lease.replicaID, Runs.Reserve(lease.executionID, map[m := g])),
     Local(lease.replicaID, Runs.Commit(1))]
  }

  /** What leasing and spending changes. */
  ghost predicate Spent(y: System, y': System, e: string, m: string, lease: Lease, g: real) {
    && y'.committed == y.committed[KeyOf(lease) := map[m := g]]
    && y'.ledger.closed == y.ledger.closed
    && y'.ledger.store.leases == y.ledger.store.leases[KeyOf(lease) := lease]
    && y'.replicas.Keys == y.replicas.Keys + {lease.replicaID}
    && e in y.ledger.store.budgets && e in y'.ledger.store.budgets
    && Limits(y', e) == Limits(y, e)
    && Remaining(y', e, m) == Remaining(y, e, m) - g
    && forall n | n in Limits(y, e) && n != m :: Remaining(y', e, n) == Remaining(y, e, n)
  }

  /** Names that nothing has yet. */
  ghost predicate Unused(y: System, e: string, r: string, leaseID: string) {
    && r !in y.replicas && Key(e, leaseID) !in y.committed
    && (forall key | key in y.ledger.store.leases :: key.leaseID != leaseID)
    && (forall key | key in y.ledger.closed :: key.leaseID != leaseID)
  }

  /** The authority grants this lease to its replica, g of the meter and nothing of the others. */
  ghost predicate Granted(cfg: Config, y: System, e: string, m: string, g: real, lease: Lease, now: Time) {
    && e in y.ledger.store.budgets && m in Limits(y, e) && Unused(y, e, lease.replicaID, lease.id)
    && lease == LeaseOf(e, Limits(y, e), m, lease.replicaID, lease.epoch, lease.id, g, lease.expiresAt)
    && AcquireRefusal(y.ledger.store, Asking(e, Limits(y, e), m, lease.replicaID)).None?
    && LeaseFor(cfg, y.ledger.store.budgets[e], Asking(e, Limits(y, e), m, lease.replicaID), lease.id, now) == lease
  }

  /** What taking it changes. */
  ghost predicate Taken(y: System, y2: System, e: string, m: string, lease: Lease, g: real) {
    && y2.committed == y.committed && y2.ledger.closed == y.ledger.closed
    && y2.ledger.store.leases == y.ledger.store.leases[KeyOf(lease) := lease]
    && y2.replicas.Keys == y.replicas.Keys + {lease.replicaID}
    && Up(y2, lease.replicaID) && y2.replicas[lease.replicaID] == State(Some(lease), map[], 0)
    && e in y.ledger.store.budgets && e in y2.ledger.store.budgets && Limits(y2, e) == Limits(y, e)
    && Remaining(y2, e, m) == Remaining(y, e, m) - g
    && forall n | n in Limits(y, e) && n != m :: Remaining(y2, e, n) == Remaining(y, e, n)
  }

  /** One admissible event that charges what it closes. */
  ghost predicate OneStep(cfg: Config, y: System, ev: Event, e: string, m: string, z: System) {
    Admissible(y, ev) && MovedBy(y, ev, e, m) <= 0.0 && z == Next(cfg, y, ev)
  }

  /** Acquiring puts the lease in the store and on its way. */
  ghost predicate Acquires(y: System, y1: System, e: string, m: string, lease: Lease, g: real) {
    && y1.replicas == y.replicas && y1.crashed == y.crashed && lease in y1.grants
    && y1.committed == y.committed && y1.ledger.closed == y.ledger.closed
    && y1.ledger.store.leases == y.ledger.store.leases[KeyOf(lease) := lease]
    && e in y.ledger.store.budgets && e in y1.ledger.store.budgets && Limits(y1, e) == Limits(y, e)
    && Remaining(y1, e, m) == Remaining(y, e, m) - g
    && forall n | n in Limits(y, e) && n != m :: Remaining(y1, e, n) == Remaining(y, e, n)
  }

  lemma AcquireOne(cfg: Config, y: System, e: string, m: string, g: real, lease: Lease, now: Time) returns (y1: System)
    requires Granted(cfg, y, e, m, g, lease, now)
    ensures OneStep(cfg, y, LeaseAndSpend(Limits(y, e), m, g, lease, now)[0], e, m, y1)
    ensures Acquires(y, y1, e, m, lease, g)
  {
    y1 := AfterAuthority(cfg, y, L.Acquire(Asking(e, Limits(y, e), m, lease.replicaID), lease.id, now));
  }

  lemma InstallOne(cfg: Config, y: System, y1: System, e: string, m: string, g: real, lease: Lease) returns (y2: System)
    requires Acquires(y, y1, e, m, lease, g) && lease.replicaID !in y.replicas
    ensures OneStep(cfg, y1, Install(lease.replicaID, lease), e, m, y2) && Taken(y, y2, e, m, lease, g)
  {
    y2 := AfterInstall(y1, lease.replicaID, lease);
  }

  lemma SpendAll(s: State, lease: Lease, m: string, g: real)
    requires s == State(Some(lease), map[], 0) && At(lease.granted, m) == g && At(lease.consumed, m) == 0.0 && g > 0.0
    ensures var reserved := Runs.Step(s, Runs.Reserve(lease.executionID, map[m := g]));
      && IsOpen(reserved, 1) && reserved.reservations[1].values == map[m := g]
      && reserved.lease == s.lease
  {
    assert Slice(s.reservations, m) == map[];
    assert Available(s, m) == g;
    assert CanReserve(s, lease.executionID, map[m := g]);
  }

  lemma ReserveCommit(cfg: Config, y: System, m: string, lease: Lease, g: real) returns (y2: System)
    requires Up(y, lease.replicaID) && y.replicas[lease.replicaID] == State(Some(lease), map[], 0) && g > 0.0
    requires At(lease.granted, m) == g && At(lease.consumed, m) == 0.0 && KeyOf(lease) !in y.committed
    ensures var reserve, commit := Local(lease.replicaID, Runs.Reserve(lease.executionID, map[m := g])),
                                   Local(lease.replicaID, Runs.Commit(1));
      && Admissible(y, reserve) && Admissible(Next(cfg, y, reserve), commit)
      && y2 == Next(cfg, Next(cfg, y, reserve), commit)
      && MovedBy(Next(cfg, y, reserve), commit, lease.executionID, m)
         == (if KeyOf(lease) in y.ledger.closed then g else 0.0)
    ensures y2.committed == y.committed[KeyOf(lease) := map[m := g]]
    ensures y2.ledger == y.ledger && y2.replicas.Keys == y.replicas.Keys
  {
    SpendAll(y.replicas[lease.replicaID], lease, m, g);
    var y1 := AfterLocal(y, lease.replicaID, Runs.Reserve(lease.executionID, map[m := g]));
    y2 := AfterLocal(y1, lease.replicaID, Runs.Commit(1));
    assert Add(map[], map[m := g]) == map[m := g];
  }

  /** A run that charges what it closes and ends here. */
  ghost predicate Leads(cfg: Config, y: System, events: seq<Event>, e: string, m: string, z: System) {
    AdmissibleRun(cfg, y, events) && FullyCharged(cfg, y, events, e, m) && Run(cfg, y, events) == z
  }

  lemma TwoSteps(cfg: Config, y: System, a: Event, z: System, b: Event, w: System, e: string, m: string)
    requires OneStep(cfg, y, a, e, m, z) && OneStep(cfg, z, b, e, m, w)
    ensures Leads(cfg, y, [a, b], e, m, w)
  {
    OneEvent(cfg, z, b, e, m);
    assert [a, b][1..] == [b];
    Unfold(cfg, y, [a, b], e, m);
  }

  lemma LeaseTaken(cfg: Config, y: System, e: string, m: string, g: real, lease: Lease, now: Time)
    returns (y2: System)
    requires Granted(cfg, y, e, m, g, lease, now)
    ensures Leads(cfg, y, LeaseAndSpend(Limits(y, e), m, g, lease, now)[..2], e, m, y2)
    ensures Taken(y, y2, e, m, lease, g)
  {
    var evs := LeaseAndSpend(Limits(y, e), m, g, lease, now);
    var y1 := AcquireOne(cfg, y, e, m, g, lease, now);
    y2 := InstallOne(cfg, y, y1, e, m, g, lease);
    TwoSteps(cfg, y, evs[0], y1, evs[1], y2, e, m);
    assert evs[..2] == [evs[0], evs[1]];
  }

  lemma LeaseSpent(cfg: Config, y: System, limits: Meters, m: string, lease: Lease, g: real, now: Time)
    returns (y2: System)
    requires Up(y, lease.replicaID) && y.replicas[lease.replicaID] == State(Some(lease), map[], 0) && g > 0.0
    requires At(lease.granted, m) == g && At(lease.consumed, m) == 0.0
    requires KeyOf(lease) !in y.committed && KeyOf(lease) !in y.ledger.closed
    ensures Leads(cfg, y, LeaseAndSpend(limits, m, g, lease, now)[2..], lease.executionID, m, y2)
    ensures y2.committed == y.committed[KeyOf(lease) := map[m := g]]
    ensures y2.ledger == y.ledger && y2.replicas.Keys == y.replicas.Keys
  {
    var evs := LeaseAndSpend(limits, m, g, lease, now);
    y2 := ReserveCommit(cfg, y, m, lease, g);
    TwoSteps(cfg, y, evs[2], Next(cfg, y, evs[2]), evs[3], y2, lease.executionID, m);
    assert evs[2..] == [evs[2], evs[3]];
  }

  lemma LeadsOn(cfg: Config, y: System, events: seq<Event>, k: nat, e: string, m: string, y2: System, z: System)
    requires k <= |events| && Leads(cfg, y, events[..k], e, m, y2) && Leads(cfg, y2, events[k..], e, m, z)
    ensures Leads(cfg, y, events, e, m, z)
  {
    RunConcat(cfg, y, events[..k], events[k..], e, m);
    assert events[..k] + events[k..] == events;
  }

  lemma LumpPositive(cfg: Config, x: real, remaining: real)
    requires Fractional(cfg) && x > 0.0 && remaining > 0.0
    ensures Lump(cfg, x, remaining) > 0.0
  {
    FractionOf(cfg, x);
  }

  lemma TakeAndSpend(cfg: Config, y: System, e: string, m: string, g: real, lease: Lease, now: Time)
    requires Granted(cfg, y, e, m, g, lease, now) && g > 0.0
    ensures var evs := LeaseAndSpend(Limits(y, e), m, g, lease, now);
      && AdmissibleRun(cfg, y, evs) && FullyCharged(cfg, y, evs, e, m)
      && Spent(y, Run(cfg, y, evs), e, m, lease, g)
  {
    var y2 := LeaseTaken(cfg, y, e, m, g, lease, now);
    var y4 := LeaseSpent(cfg, y2, Limits(y, e), m, lease, g, now);
    LeadsOn(cfg, y, LeaseAndSpend(Limits(y, e), m, g, lease, now), 2, e, m, y2, y4);
  }

  /** One lump is leased and spent, and nothing that was closed is touched. */
  lemma LeaseAndSpendRun(cfg: Config, y: System, e: string, m: string, x: real, lease: Lease, now: Time)
    requires Open(y, e, m, x) && Fractional(cfg) && Remaining(y, e, m) > 0.0
    requires Unused(y, e, lease.replicaID, lease.id) && lease == NextLease(cfg, y, e, m, x, lease.id, now)
    ensures var g := Lump(cfg, x, Remaining(y, e, m));
      var evs := LeaseAndSpend(Limits(y, e), m, g, lease, now);
      && AdmissibleRun(cfg, y, evs) && FullyCharged(cfg, y, evs, e, m)
      && Spent(y, Run(cfg, y, evs), e, m, lease, g)
  {
    LumpPositive(cfg, x, Remaining(y, e, m));
    LumpGranted(cfg, y, e, m, x, lease.id, now);
    TakeAndSpend(cfg, y, e, m, Lump(cfg, x, Remaining(y, e, m)), lease, now);
  }

  lemma OneEvent(cfg: Config, y: System, ev: Event, e: string, m: string)
    requires Admissible(y, ev)
    ensures AdmissibleRun(cfg, y, [ev]) && Run(cfg, y, [ev]) == Next(cfg, y, ev)
    ensures MovedBy(y, ev, e, m) <= 0.0 ==> FullyCharged(cfg, y, [ev], e, m)
  {
    assert [ev][1..] == [];
  }

  lemma Unfold(cfg: Config, y: System, evs: seq<Event>, e: string, m: string)
    requires evs != [] && Admissible(y, evs[0]) && AdmissibleRun(cfg, Next(cfg, y, evs[0]), evs[1..])
    ensures AdmissibleRun(cfg, y, evs) && Run(cfg, y, evs) == Run(cfg, Next(cfg, y, evs[0]), evs[1..])
    ensures MovedBy(y, evs[0], e, m) <= 0.0 && FullyCharged(cfg, Next(cfg, y, evs[0]), evs[1..], e, m) ==>
      FullyCharged(cfg, y, evs, e, m)
  {
  }

  lemma {:induction false} RunConcat(cfg: Config, y: System, a: seq<Event>, b: seq<Event>, e: string, m: string)
    requires AdmissibleRun(cfg, y, a) && AdmissibleRun(cfg, Run(cfg, y, a), b)
    ensures AdmissibleRun(cfg, y, a + b) && Run(cfg, y, a + b) == Run(cfg, Run(cfg, y, a), b)
    ensures FullyCharged(cfg, y, a, e, m) && FullyCharged(cfg, Run(cfg, y, a), b, e, m) ==>
      FullyCharged(cfg, y, a + b, e, m)
    decreases |a|
  {
    if a == [] {
      assert a + b == b;
    } else {
      assert (a + b)[0] == a[0] && (a + b)[1..] == a[1..] + b;
      RunConcat(cfg, Next(cfg, y, a[0]), a[1..], b, e, m);
    }
  }

  // Fresh names.

  /** No replica and no lease has a name as long as this. */
  ghost predicate Shorter(y: System, n: nat) {
    && (forall r | r in y.replicas :: |r| < n)
    && (forall key | key in y.committed :: |key.leaseID| < n)
    && (forall key | key in y.ledger.store.leases :: |key.leaseID| < n)
    && (forall key | key in y.ledger.closed :: |key.leaseID| < n)
  }

  lemma {:induction false} LongerThan(names: set<string>) returns (n: nat)
    ensures forall name | name in names :: |name| < n
    decreases |names|
  {
    n := 0;
    if names != {} {
      var name :| name in names;
      n := LongerThan(names - {name});
      n := if |name| < n then n else |name| + 1;
    }
  }

  lemma LongEnough(y: System) returns (n: nat)
    ensures Shorter(y, n)
  {
    var keys := y.committed.Keys + y.ledger.store.leases.Keys + y.ledger.closed.Keys;
    var names := y.replicas.Keys + set key | key in keys :: key.leaseID;
    n := LongerThan(names);
    forall key | key in keys ensures |key.leaseID| < n {
      assert key.leaseID in names;
    }
  }

  lemma NewName(y: System, e: string, n: nat)
    requires Shorter(y, n)
    ensures Unused(y, e, Filler(n), Filler(n))
  {
    assert |Filler(n)| == n;
  }

  lemma StillShorter(y: System, y': System, e: string, m: string, lease: Lease, g: real, n: nat)
    requires Shorter(y, n) && Spent(y, y', e, m, lease, g) && lease.id == lease.replicaID == Filler(n)
    ensures Shorter(y', n + 1)
  {
  }

  lemma SpentMore(y: System, y': System, e: string, m: string, lease: Lease, g: real)
    requires Spent(y, y', e, m, lease, g) && lease.executionID == e && KeyOf(lease) !in y.committed
    ensures SpentAt(y', e, m) == SpentAt(y, e, m) + g
  {
    assert SpentSlice(y'.committed, e, m) == SpentSlice(y.committed, e, m)[KeyOf(lease) := g];
    SumPut(SpentSlice(y.committed, e, m), KeyOf(lease), g);
  }

  // Spending what remains.

  /** n times an amount. */
  function Times(n: nat, g: real): real {
    if n == 0 then 0.0 else Times(n - 1, g) + g
  }

  lemma {:induction false} TimesIs(n: nat, g: real)
    ensures Times(n, g) == n as real * g
  {
    if n > 0 {
      TimesIs(n - 1, g);
      Distribute((n - 1) as real, g);
    }
  }

  lemma Distribute(a: real, g: real)
    ensures (a + 1.0) * g == a * g + g
  {
  }

  lemma RoomLeft(cfg: Config, x: real, remaining: real, n: nat)
    requires Fractional(cfg) && x > 0.0 && 0.0 < remaining <= Times(n, Fraction(cfg, x))
    ensures n > 0 && 0.0 <= remaining - Lump(cfg, x, remaining) <= Times(n - 1, Fraction(cfg, x))
  {
    FractionOf(cfg, x);
    var g := Fraction(cfg, x);
    assert n > 0;
    TimesNotNegative(n - 1, g);
  }

  lemma {:induction false} TimesNotNegative(n: nat, g: real)
    requires g >= 0.0
    ensures Times(n, g) >= 0.0
  {
    if n > 0 {
      TimesNotNegative(n - 1, g);
    }
  }

  /** Whatever remains of a budget can be leased and spent, lump by lump, by replicas that are new to it. */
  lemma {:induction false} SpendRemaining(cfg: Config, y: System, e: string, m: string, x: real, n: nat, k: nat)
    returns (events: seq<Event>)
    requires Open(y, e, m, x) && Fractional(cfg) && Shorter(y, k)
    requires 0.0 <= Remaining(y, e, m) <= Times(n, Fraction(cfg, x))
    ensures AdmissibleRun(cfg, y, events) && FullyCharged(cfg, y, events, e, m)
    ensures SpentAt(Run(cfg, y, events), e, m) == SpentAt(y, e, m) + Remaining(y, e, m)
    decreases n
  {
    events := [];
    if Remaining(y, e, m) > 0.0 {
      RoomLeft(cfg, x, Remaining(y, e, m), n);
      var evs := SpendLump(cfg, y, e, m, x, k);
      var rest := SpendRemaining(cfg, Run(cfg, y, evs), e, m, x, n - 1, k + 1);
      RunConcat(cfg, y, evs, rest, e, m);
      events := evs + rest;
    }
  }

  lemma SpendLump(cfg: Config, y: System, e: string, m: string, x: real, k: nat) returns (events: seq<Event>)
    requires Open(y, e, m, x) && Fractional(cfg) && Shorter(y, k) && Remaining(y, e, m) > 0.0
    ensures AdmissibleRun(cfg, y, events) && FullyCharged(cfg, y, events, e, m)
    ensures var z, g := Run(cfg, y, events), Lump(cfg, x, Remaining(y, e, m));
      && Open(z, e, m, x) && Shorter(z, k + 1)
      && Remaining(z, e, m) == Remaining(y, e, m) - g && SpentAt(z, e, m) == SpentAt(y, e, m) + g
  {
    var g, lease := Lump(cfg, x, Remaining(y, e, m)), NextLease(cfg, y, e, m, x, Filler(k), 0);
    NewName(y, e, k);
    LeaseAndSpendRun(cfg, y, e, m, x, lease, 0);
    events := LeaseAndSpend(Limits(y, e), m, g, lease, 0);
    SpentMore(y, Run(cfg, y, events), e, m, lease, g);
    StillShorter(y, Run(cfg, y, events), e, m, lease, g, k);
  }

  lemma Enough(g: real, r: real) returns (n: nat)
    requires g > 0.0 && r >= 0.0
    ensures r <= Times(n, g)
  {
    var q := r / g;
    n := q.Floor + 1;
    assert n as real >= q;
    assert n as real * g >= q * g == r;
    TimesIs(n, g);
  }

  // The family: lease, spend, let the sweeper reclaim, and do it again.

  /** Nothing leased, nothing missing from the budget, and so much spent. */
  ghost predicate Swept(y: System, e: string, limits: Meters, m: string, spent: real) {
    && e in y.ledger.store.budgets && Limits(y, e) == limits
    && (forall n | n in limits :: Remaining(y, e, n) == limits[n])
    && y.ledger.store.leases == map[] && SpentAt(y, e, m) == spent
  }

  /** Limits that let anything be leased at all. */
  ghost predicate Positive(limits: Meters) {
    forall n | n in limits :: limits[n] > 0.0
  }

  lemma SweepCloses(cfg: Config, z: System, lease: Lease)
    requires KeyOf(lease) in z.ledger.store.leases && z.ledger.store.leases[KeyOf(lease)] == lease
    requires lease.executionID in z.ledger.store.budgets
    ensures var w := Next(cfg, z, Authority(L.Reclaim(lease, lease.expiresAt)));
      && w == z.(ledger := L.Close(z.ledger, lease, lease.consumed))
      && w.ledger.store.leases == z.ledger.store.leases - {KeyOf(lease)}
      && w.ledger.closed.Keys == z.ledger.closed.Keys + {KeyOf(lease)}
      && lease.executionID in w.ledger.store.budgets
      && Limits(w, lease.executionID) == Limits(z, lease.executionID)
  {
  }

  lemma UnspentCredit(e: string, limits: Meters, m: string, lease: Lease, g: real, n: string)
    requires n in limits && g >= 0.0
    requires lease == LeaseOf(e, limits, m, lease.replicaID, lease.epoch, lease.id, g, lease.expiresAt)
    ensures At(Credit(lease.granted, lease.consumed), n) == if n == m then g else 0.0
  {
    assert lease.granted[n] - At(lease.consumed, n) == if n == m then g else 0.0;
  }

  lemma SweepRestores(cfg: Config, y: System, z: System, e: string, m: string, lease: Lease, g: real)
    requires e in y.ledger.store.budgets && Swept(y, e, Limits(y, e), m, SpentAt(y, e, m))
    requires m in Limits(y, e) && Spent(y, z, e, m, lease, g) && g >= 0.0
    requires lease == LeaseOf(e, Limits(y, e), m, lease.replicaID, lease.epoch, lease.id, g, lease.expiresAt)
    ensures var w := Next(cfg, z, Authority(L.Reclaim(lease, lease.expiresAt)));
      && w.committed == z.committed && w.replicas == z.replicas && w.ledger.store.leases == map[]
      && w.ledger.closed.Keys == z.ledger.closed.Keys + {KeyOf(lease)}
      && e in w.ledger.store.budgets && Limits(w, e) == Limits(y, e)
      && forall n | n in Limits(y, e) :: Remaining(w, e, n) == Limits(y, e)[n]
  {
    SweepCloses(cfg, z, lease);
    var w := Next(cfg, z, Authority(L.Reclaim(lease, lease.expiresAt)));
    forall n | n in Limits(y, e) ensures Remaining(w, e, n) == Limits(y, e)[n] {
      CloseRemaining(z.ledger.store, lease, lease.consumed, e, n);
      UnspentCredit(e, Limits(y, e), m, lease, g, n);
    }
  }

  /** One round commits the fraction of the limit and gives the budget back whole. */
  lemma OneRound(cfg: Config, y: System, e: string, limits: Meters, m: string, spent: real, k: nat)
    returns (events: seq<Event>)
    requires Swept(y, e, limits, m, spent) && Positive(limits) && m in limits && Fractional(cfg) && Shorter(y, k)
    ensures AdmissibleRun(cfg, y, events)
    ensures Swept(Run(cfg, y, events), e, limits, m, spent + Fraction(cfg, limits[m]))
    ensures Shorter(Run(cfg, y, events), k + 1)
  {
    var x := limits[m];
    FractionOf(cfg, x);
    var g, lease := Fraction(cfg, x), NextLease(cfg, y, e, m, x, Filler(k), 0);
    assert Lump(cfg, x, Remaining(y, e, m)) == g;
    NewName(y, e, k);
    LeaseAndSpendRun(cfg, y, e, m, x, lease, 0);
    var first := LeaseAndSpend(limits, m, g, lease, 0);
    var z := Run(cfg, y, first);
    SpentMore(y, z, e, m, lease, g);
    StillShorter(y, z, e, m, lease, g, k);
    var w := SweepRound(cfg, y, z, e, limits, m, lease, g, k);
    var sweep := Authority(L.Reclaim(lease, lease.expiresAt));
    OneEvent(cfg, z, sweep, e, m);
    RunConcat(cfg, y, first, [sweep], e, m);
    events := first + [sweep];
  }

  lemma SweepRound(cfg: Config, y: System, z: System, e: string, limits: Meters, m: string, lease: Lease, g: real,
      k: nat)
    returns (w: System)
    requires Swept(y, e, limits, m, SpentAt(y, e, m)) && m in limits
    requires Spent(y, z, e, m, lease, g) && g >= 0.0 && Shorter(z, k + 1) && |lease.id| == k
    requires lease == LeaseOf(e, limits, m, lease.replicaID, lease.epoch, lease.id, g, lease.expiresAt)
    ensures w == Next(cfg, z, Authority(L.Reclaim(lease, lease.expiresAt)))
    ensures Swept(w, e, limits, m, SpentAt(z, e, m)) && Shorter(w, k + 1)
  {
    SweepRestores(cfg, y, z, e, m, lease, g);
    w := Next(cfg, z, Authority(L.Reclaim(lease, lease.expiresAt)));
  }

  lemma {:induction false} Rounds(cfg: Config, e: string, limits: Meters, m: string, n: nat)
    returns (events: seq<Event>)
    requires Fractional(cfg) && Positive(limits) && m in limits
    ensures AdmissibleRun(cfg, START, events)
    ensures Swept(Run(cfg, START, events), e, limits, m, Times(n, Fraction(cfg, limits[m])))
    ensures Shorter(Run(cfg, START, events), n)
  {
    if n == 0 {
      var create := Authority(L.Create(e, limits));
      OneEvent(cfg, START, create, e, m);
      events := [create];
      SumZero(SpentSlice(map[], e, m));
    } else {
      events := Rounds(cfg, e, limits, m, n - 1);
      var y := Run(cfg, START, events);
      var g := Fraction(cfg, limits[m]);
      var more := OneRound(cfg, y, e, limits, m, Times(n - 1, g), n - 1);
      RunConcat(cfg, START, events, more, e, m);
      events := events + more;
    }
  }

  /**
   S <= B fails for every budget at every lease fraction f: acquiring, spending and sweeping n times, every step of it
   admissible, commits n times the fraction of a meter's limit.
   */
  lemma SweptLeasesOverspend(cfg: Config, e: string, limits: Meters, m: string, n: nat) returns (events: seq<Event>)
    requires Fractional(cfg) && Positive(limits) && m in limits
    ensures AdmissibleRun(cfg, START, events)
    ensures var y := Run(cfg, START, events);
      && e in y.ledger.store.budgets && Limits(y, e) == limits
      && SpentAt(y, e, m) == Times(n, Fraction(cfg, limits[m]))
  {
    events := Rounds(cfg, e, limits, m, n);
  }

  /** So spending has no bound at all, for any budget at any fraction. */
  lemma OverspendUnbounded(cfg: Config, e: string, limits: Meters, m: string, bound: real) returns (events: seq<Event>)
    requires Fractional(cfg) && Positive(limits) && m in limits && bound >= 0.0
    ensures AdmissibleRun(cfg, START, events)
    ensures var y := Run(cfg, START, events);
      e in y.ledger.store.budgets && Limits(y, e) == limits && SpentAt(y, e, m) >= bound
  {
    FractionOf(cfg, limits[m]);
    var n := Enough(Fraction(cfg, limits[m]), bound);
    events := Rounds(cfg, e, limits, m, n);
  }

  /** The daemon's configuration: a quarter of the limit for thirty seconds. */
  const SHIPPED := Config(0.25, 30_000_000_000)

  /** With it, eight sweeps spend any budget twice. */
  lemma SweptLeaseSpentTwice(e: string, limits: Meters, m: string) returns (events: seq<Event>)
    requires Positive(limits) && m in limits
    ensures AdmissibleRun(SHIPPED, START, events)
    ensures var y := Run(SHIPPED, START, events);
      e in y.ledger.store.budgets && Limits(y, e) == limits && SpentAt(y, e, m) == 2.0 * limits[m]
  {
    events := SweptLeasesOverspend(SHIPPED, e, limits, m, 8);
    EightQuarters(limits[m]);
  }

  lemma EightQuarters(x: real)
    ensures Times(8, Fraction(SHIPPED, x)) == 2.0 * x
  {
    var g := 0.25 * x;
    TimesIs(8, g);
    assert Fraction(SHIPPED, x) == g;
  }
}
