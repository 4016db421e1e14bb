/**
 The lease protocol as a whole: one authority, any number of replicas, replies that arrive late, twice or never,
 crashes, and a sweeper that acts on stale listings.

 The main result bounds what all replicas ever commit: by the limit plus what closed leases were not charged for.
 */
module LeaseProtocol {
  import opened Results
  import opened Meters
  import opened LeaseManager
  import opened BudgetAuthority
  import Runs = LeaseManagerRuns
  import L = Ledger

  datatype System = System(
    ledger: L.Ledger,
    replicas: map<string, State>,   // the lease manager of each replica, as it was last for a crashed one
    crashed: set<string>,
    grants: set<Lease>,             // acquire replies on their way
    renewals: set<Lease>,           // renewal replies, which may arrive late and more than once
    committed: map<Key, Meters>)    // what was ever committed against each lease

  datatype Event =
    | Authority(txn: L.Op)
    | Install(r: string, lease: Lease)    // an acquire reply becomes the replica's lease
    | Refresh(r: string, lease: Lease)    // a renewal reply, merged with what the replica consumed
    | Local(r: string, call: Runs.Op)     // one call on the replica's lease manager
    | Crash(r: string)

  ghost predicate Up(y: System, r: string) {
    r in y.replicas && r !in y.crashed
  }

  function Recorded(committed: map<Key, Meters>, key: Key): Meters {
    if key in committed then committed[key] else map[]
  }

  function CommittedOf(y: System, key: Key): Meters {
    Recorded(y.committed, key)
  }

  ghost function AfterAuthority(cfg: Config, y: System, op: L.Op): System {
    var g' := L.Step(cfg, y.ledger, op);
    var grants' := if op.Acquire? && AcquireRefusal(y.ledger.store, op.req).None?
                   then y.grants + {g'.store.leases[Key(op.req.executionID, op.leaseID)]} else y.grants;
    var reply := if op.Renew?
                 then RenewOutcome(cfg, y.ledger.store, L.FindById(y.ledger.store, op.leaseID), op.hint, op.now).1
                 else Failure(NotFound);
    var renewals' := if reply.Success? then y.renewals + {reply.value} else y.renewals;
    y.(ledger := g', grants := grants', renewals := renewals')
  }

  ghost function AfterInstall(y: System, r: string, lease: Lease): System {
    var s := if Up(y, r) then y.replicas[r].(lease := Some(lease)) else State(Some(lease), map[], 0);
    y.(replicas := y.replicas[r := s], crashed := y.crashed - {r}, grants := y.grants - {lease})
  }

  /** The renewal's grant with the local consumption. */
  function Merged(s: State, lease: Lease): Lease
    requires s.lease.Some?
  {
    lease.(consumed := s.lease.value.consumed)
  }

  ghost function AfterLocal(y: System, r: string, op: Runs.Op): System
    requires r in y.replicas
  {
    var s := y.replicas[r];
    var y' := y.(replicas := y.replicas[r := Runs.Step(s, op)]);
    if op.Commit? && IsOpen(s, op.id) && s.lease.Some? then
      var key := KeyOf(s.lease.value);
      y'.(committed := y.committed[key := Add(CommittedOf(y, key), s.reservations[op.id].values)])
    else y'
  }

  ghost function Next(cfg: Config, y: System, ev: Event): System
    requires Admissible(y, ev)
  {
    match ev
    case Authority(op) => AfterAuthority(cfg, y, op)
    case Install(r, lease) => AfterInstall(y, r, lease)
    case Refresh(r, lease) =>
      y.(replicas := y.replicas[r := y.replicas[r].(lease := Some(Merged(y.replicas[r], lease)))])
    case Local(r, op) => AfterLocal(y, r, op)
    case Crash(r) => y.(crashed := y.crashed + {r})
  }

  /**
   What the parties owe the protocol: fresh identifiers, budgets created once, values that are not negative, and
   replacement leases that keep the local consumption and cover what is open.
   */
  ghost predicate Admissible(y: System, ev: Event) {
    match ev
    case Authority(op) => L.Admissible(y.ledger, op)
    case Install(r, lease) =>
      lease in y.grants && (Up(y, r) ==> Runs.Covers(lease, y.replicas[r].reservations))
    case Refresh(r, lease) =>
      && Up(y, r) && lease in y.renewals
      && y.replicas[r].lease.Some? && KeyOf(y.replicas[r].lease.value) == KeyOf(lease)
      && Runs.Covers(Merged(y.replicas[r], lease), y.replicas[r].reservations)
    case Local(r, op) => Up(y, r) && !op.Refresh? && (op.Reserve? ==> NonNegative(op.values))
    case Crash(r) => Up(y, r)
  }

  ghost predicate Known(g: L.Ledger, key: Key) {
    key in g.store.leases || key in g.closed
  }

  /** All that a lease was ever granted, while live and after closing. */
  function GrantedEver(g: L.Ledger, key: Key): Meters {
    if key in g.store.leases then g.store.leases[key].granted
    else if key in g.closed then g.closed[key].lease.granted
    else map[]
  }

  /** A lease value in some replica or message claims no more than the authority granted under its key. */
  ghost predicate Backed(g: L.Ledger, lease: Lease) {
    Known(g, KeyOf(lease)) && Within(lease.granted, GrantedEver(g, KeyOf(lease)))
  }

  function KeyAt(s: State): Option<Key> {
    if s.lease.Some? then Some(KeyOf(s.lease.value)) else None
  }

  /** An acquire reply on its way: granted, not yet held by anyone, nothing consumed or committed. */
  ghost predicate Fresh(y: System, lease: Lease) {
    && KeyOf(lease) !in y.committed
    && Within(lease.consumed, map[]) && Within(map[], lease.consumed)
    && Within(map[], lease.granted)
    && (forall r | r in y.replicas :: KeyAt(y.replicas[r]) != Some(KeyOf(lease)))
  }

  /** A replica's manager is sound, its lease is backed, and its consumption is what was committed. */
  ghost predicate StateOk(g: L.Ledger, s: State, spent: Meters) {
    && s.lease.Some? && Runs.Sound(s) && Backed(g, s.lease.value)
    && Within(s.lease.value.consumed, spent)
    && Within(spent, s.lease.value.consumed)
  }

  ghost function SpentBy(y: System, s: State): Meters {
    if s.lease.Some? then CommittedOf(y, KeyOf(s.lease.value)) else map[]
  }

  ghost predicate ReplicaOk(y: System, r: string)
    requires r in y.replicas
  {
    StateOk(y.ledger, y.replicas[r], SpentBy(y, y.replicas[r]))
  }

  ghost predicate Exclusive(y: System) {
    && (forall r, q | r in y.replicas && q in y.replicas && r != q :: KeyAt(y.replicas[r]) != KeyAt(y.replicas[q]))
    && (forall l, k | l in y.grants && k in y.grants && l != k :: KeyOf(l) != KeyOf(k))
  }

  ghost predicate MessagesOk(y: System) {
    && (forall l | l in y.grants :: Backed(y.ledger, l) && Fresh(y, l))
    && (forall l | l in y.renewals :: Backed(y.ledger, l))
  }

  ghost predicate EntryOk(g: L.Ledger, key: Key, spent: Meters) {
    Known(g, key) && Within(spent, GrantedEver(g, key)) && NonNegative(spent)
  }

  ghost predicate CommittedOk(y: System) {
    forall key | key in y.committed :: EntryOk(y.ledger, key, y.committed[key])
  }

  ghost predicate Inv(y: System) {
    && L.Conserved(y.ledger)
    && (forall r | r in y.replicas :: ReplicaOk(y, r))
    && Exclusive(y)
    && MessagesOk(y)
    && CommittedOk(y)
  }

  // The authority's steps.

  /** Grants only grow, and no transaction forgets a lease. */
  lemma GrantsGrow(cfg: Config, g: L.Ledger, op: L.Op, key: Key)
    requires L.WellFormed(g) && L.Admissible(g, op) && Known(g, key)
    ensures Known(L.Step(cfg, g, op), key)
    ensures Within(GrantedEver(g, key), GrantedEver(L.Step(cfg, g, op), key))
  {
    var moved := L.StepShape(cfg, g, op);
    MoveGrows(g, L.Step(cfg, g, op), moved, key);
  }

  lemma MoveGrows(g: L.Ledger, g': L.Ledger, moved: Key, key: Key)
    requires L.Leaves(g, g') || L.Opens(g, g', moved) || L.Renews(g, g', moved) || L.Closes(g, g', moved)
    requires Known(g, key)
    ensures Known(g', key) && Within(GrantedEver(g, key), GrantedEver(g', key))
  {
  }

  lemma AcquiredShape(cfg: Config, g: L.Ledger, req: LeaseRequest, leaseID: string, now: Time) returns (l: Lease)
    requires L.WellFormed(g) && L.Admissible(g, L.Acquire(req, leaseID, now)) && AcquireRefusal(g.store, req).None?
    ensures var g' := L.Step(cfg, g, L.Acquire(req, leaseID, now));
      && Key(req.executionID, leaseID) in g'.store.leases && l == g'.store.leases[Key(req.executionID, leaseID)]
      && Backed(g', l)
    ensures KeyOf(l) == Key(req.executionID, leaseID) && !Known(g, KeyOf(l))
    ensures Within(l.consumed, map[]) && Within(map[], l.consumed) && Within(map[], l.granted)
  {
    l := LeaseFor(cfg, g.store.budgets[req.executionID], req, leaseID, now);
    forall m { L.GrantWithin(cfg, g.store, req, m); }
  }

  lemma BackedStays(cfg: Config, y: System, op: L.Op, l: Lease)
    requires L.WellFormed(y.ledger) && L.Admissible(y.ledger, op) && Backed(y.ledger, l)
    ensures Backed(L.Step(cfg, y.ledger, op), l)
  {
    GrantsGrow(cfg, y.ledger, op, KeyOf(l));
  }

  lemma RenewalBacked(cfg: Config, g: L.Ledger, leaseID: string, hint: Meters, now: Time)
    requires L.WellFormed(g)
    ensures var reply := RenewOutcome(cfg, g.store, L.FindById(g.store, leaseID), hint, now).1;
      reply.Success? ==> Backed(L.Step(cfg, g, L.Renew(leaseID, hint, now)), reply.value)
  {
    var found := L.FindById(g.store, leaseID);
    if found.Some? && found.value.executionID != "" {
      var l' := L.RenewShape(cfg, g.store, found.value, hint, now);
      assert L.Step(cfg, g, L.Renew(leaseID, hint, now)).store.leases[KeyOf(l')] == l';
    }
  }

  lemma AuthorityKeepsGrants(cfg: Config, y: System, op: L.Op)
    requires Inv(y) && L.Admissible(y.ledger, op)
    ensures var y' := AfterAuthority(cfg, y, op);
      && (forall l | l in y'.grants :: Backed(y'.ledger, l) && Fresh(y', l))
      && (forall l, k | l in y'.grants && k in y'.grants && l != k :: KeyOf(l) != KeyOf(k))
  {
    var y' := AfterAuthority(cfg, y, op);
    forall l | l in y.grants ensures Backed(y'.ledger, l) && Fresh(y', l) {
      BackedStays(cfg, y, op, l);
      assert Fresh(y, l);
    }
    if op.Acquire? && AcquireRefusal(y.ledger.store, op.req).None? {
      var l := AcquiredShape(cfg, y.ledger, op.req, op.leaseID, op.now);
      forall r | r in y.replicas ensures KeyAt(y.replicas[r]) != Some(KeyOf(l)) {
        assert ReplicaOk(y, r);
      }
      assert Fresh(y', l);
      forall k | k in y.grants ensures KeyOf(k) != KeyOf(l) {
        assert Backed(y.ledger, k);
      }
    }
  }

  lemma AuthorityKeepsRenewals(cfg: Config, y: System, op: L.Op)
    requires Inv(y) && L.Admissible(y.ledger, op)
    ensures forall l | l in AfterAuthority(cfg, y, op).renewals :: Backed(AfterAuthority(cfg, y, op).ledger, l)
  {
    forall l | l in y.renewals { BackedStays(cfg, y, op, l); }
    if op.Renew? { RenewalBacked(cfg, y.ledger, op.leaseID, op.hint, op.now); }
  }

  lemma AuthorityKeepsInv(cfg: Config, y: System, op: L.Op)
    requires Inv(y) && L.Admissible(y.ledger, op)
    ensures Inv(AfterAuthority(cfg, y, op))
  {
    var y' := AfterAuthority(cfg, y, op);
    L.StepConserves(cfg, y.ledger, op);
    AuthorityKeepsGrants(cfg, y, op);
    AuthorityKeepsRenewals(cfg, y, op);
    forall r | r in y'.replicas ensures ReplicaOk(y', r) {
      assert ReplicaOk(y, r);
      BackedStays(cfg, y, op, y.replicas[r].lease.value);
    }
    forall key | key in y'.committed ensures EntryOk(y'.ledger, key, y'.committed[key]) {
      assert EntryOk(y.ledger, key, y.committed[key]);
      GrantsGrow(cfg, y.ledger, op, key);
    }
  }

  // The replicas' steps.

  /** Replica r gets a new state and possibly a new entry under its own key; nobody else is affected. */
  ghost predicate OnlyReplica(y: System, y': System, r: string) {
    && y'.ledger == y.ledger && y'.renewals == y.renewals && y'.grants <= y.grants
    && r in y'.replicas && y'.replicas == y.replicas[r := y'.replicas[r]]
    && (forall key | Some(key) != KeyAt(y'.replicas[r]) :: CommittedOf(y', key) == CommittedOf(y, key))
    && (forall key | key in y'.committed :: key in y.committed || Some(key) == KeyAt(y'.replicas[r]))
    && (forall l | l in y'.grants :: Some(KeyOf(l)) != KeyAt(y'.replicas[r]))
    && (forall q | q in y.replicas && q != r :: KeyAt(y.replicas[q]) != KeyAt(y'.replicas[r]))
  }

  lemma OnlyReplicaKeepsReplicas(y: System, y': System, r: string)
    requires Exclusive(y) && (forall q | q in y.replicas :: ReplicaOk(y, q))
    requires OnlyReplica(y, y', r) && ReplicaOk(y', r)
    ensures forall q | q in y'.replicas :: ReplicaOk(y', q)
    ensures Exclusive(y')
  {
    forall q | q in y'.replicas && q != r ensures ReplicaOk(y', q) {
      assert ReplicaOk(y, q);
      assert SpentBy(y', y'.replicas[q]) == SpentBy(y, y.replicas[q]);
    }
  }

  lemma OnlyReplicaKeepsMessages(y: System, y': System, r: string)
    requires MessagesOk(y) && OnlyReplica(y, y', r)
    ensures MessagesOk(y')
  {
    forall l | l in y'.grants ensures Fresh(y', l) {
      assert Fresh(y, l);
    }
  }

  lemma NothingOpen(lease: Lease)
    requires Within(lease.consumed, map[]) && Within(map[], lease.granted)
    ensures Runs.Covers(lease, map[])
  {
    forall meter ensures At(lease.consumed, meter) + OpenAt(map[], meter) <= At(lease.granted, meter) {
      assert Slice(map[], meter) == map[];
      assert At(lease.consumed, meter) <= At(map[], meter) <= At(lease.granted, meter);
    }
  }

  lemma InstallStateOk(y: System, r: string, lease: Lease)
    requires Inv(y) && Admissible(y, Install(r, lease))
    ensures StateOk(y.ledger, AfterInstall(y, r, lease).replicas[r], map[])
    ensures SpentBy(AfterInstall(y, r, lease), AfterInstall(y, r, lease).replicas[r]) == map[]
  {
    assert Fresh(y, lease) && Backed(y.ledger, lease);
    if Up(y, r) {
      assert ReplicaOk(y, r);
    } else {
      NothingOpen(lease);
    }
  }

  lemma InstallOnlyReplica(y: System, r: string, lease: Lease)
    requires Exclusive(y) && lease in y.grants && Fresh(y, lease)
    ensures OnlyReplica(y, AfterInstall(y, r, lease), r)
  {
    var y' := AfterInstall(y, r, lease);
    assert KeyAt(y'.replicas[r]) == Some(KeyOf(lease));
    assert y'.replicas == y.replicas[r := y'.replicas[r]];
  }

  lemma InstallKeepsInv(y: System, r: string, lease: Lease)
    requires Inv(y) && Admissible(y, Install(r, lease))
    ensures Inv(AfterInstall(y, r, lease))
  {
    assert Fresh(y, lease);
    InstallStateOk(y, r, lease);
    InstallOnlyReplica(y, r, lease);
    OnlyReplicaKeepsReplicas(y, AfterInstall(y, r, lease), r);
    OnlyReplicaKeepsMessages(y, AfterInstall(y, r, lease), r);
  }

  lemma RefreshKeepsInv(cfg: Config, y: System, r: string, lease: Lease)
    requires Inv(y) && Admissible(y, Refresh(r, lease))
    ensures Inv(Next(cfg, y, Refresh(r, lease)))
  {
    var y' := Next(cfg, y, Refresh(r, lease));
    assert ReplicaOk(y, r);
    assert Backed(y.ledger, lease);
    assert KeyAt(y'.replicas[r]) == KeyAt(y.replicas[r]);
    assert ReplicaOk(y', r);
    SameKey(y, y', r);
    OnlyReplicaKeepsReplicas(y, y', r);
    OnlyReplicaKeepsMessages(y, y', r);
  }

  lemma SameKey(y: System, y': System, r: string)
    requires Exclusive(y) && MessagesOk(y)
    requires r in y.replicas && r in y'.replicas && KeyAt(y'.replicas[r]) == KeyAt(y.replicas[r])
    requires y' == y.(replicas := y.replicas[r := y'.replicas[r]], committed := y'.committed)
    requires forall key | Some(key) != KeyAt(y.replicas[r]) :: CommittedOf(y', key) == CommittedOf(y, key)
    requires forall key | key in y'.committed :: key in y.committed || Some(key) == KeyAt(y.replicas[r])
    ensures OnlyReplica(y, y', r)
  {
    forall l | l in y'.grants ensures Some(KeyOf(l)) != KeyAt(y'.replicas[r]) {
      assert Fresh(y, l);
    }
  }

  /** A local call keeps the lease's identity and grant; only a commit changes what it consumed. */
  lemma LocalLease(s: State, op: Runs.Op)
    requires Runs.Sound(s) && s.lease.Some? && !op.Refresh? && (op.Reserve? ==> NonNegative(op.values))
    ensures Runs.Sound(Runs.Step(s, op)) && Runs.Step(s, op).lease.Some?
    ensures KeyAt(Runs.Step(s, op)) == KeyAt(s)
    ensures Runs.Step(s, op).lease.value.granted == s.lease.value.granted
    ensures Runs.Step(s, op).lease.value.consumed ==
      if op.Commit? && IsOpen(s, op.id) then Add(s.lease.value.consumed, s.reservations[op.id].values)
      else s.lease.value.consumed
  {
    Runs.StepKeepsSound(s, op);
  }

  lemma ConsumedWithinGranted(s: State)
    requires Runs.Sound(s) && s.lease.Some?
    ensures Within(s.lease.value.consumed, s.lease.value.granted)
  {
    forall m ensures At(s.lease.value.consumed, m) <= At(s.lease.value.granted, m) {
      Runs.OpenNonNegative(s.reservations, m);
      assert At(s.lease.value.consumed, m) + OpenAt(s.reservations, m) <= At(s.lease.value.granted, m);
    }
  }

  /** The replica's new state is in order, and so is what it committed. */
  lemma LocalStateOk(g: L.Ledger, s: State, spent: Meters, op: Runs.Op)
    requires StateOk(g, s, spent) && NonNegative(spent) && !op.Refresh? && (op.Reserve? ==> NonNegative(op.values))
    ensures var spent' := if op.Commit? && IsOpen(s, op.id) then Add(spent, s.reservations[op.id].values) else spent;
      && StateOk(g, Runs.Step(s, op), spent') && NonNegative(spent')
      && Within(spent', GrantedEver(g, KeyOf(s.lease.value)))
  {
    LocalLease(s, op);
    ConsumedWithinGranted(Runs.Step(s, op));
  }

  lemma LocalReplicaOk(y: System, r: string, op: Runs.Op)
    requires Inv(y) && Admissible(y, Local(r, op))
    ensures ReplicaOk(AfterLocal(y, r, op), r)
    ensures KeyAt(AfterLocal(y, r, op).replicas[r]) == KeyAt(y.replicas[r])
  {
    var s := y.replicas[r];
    assert ReplicaOk(y, r);
    SpentNonNegative(y, s);
    LocalStateOk(y.ledger, s, SpentBy(y, s), op);
    LocalLease(s, op);
  }

  lemma SpentNonNegative(y: System, s: State)
    requires CommittedOk(y)
    ensures NonNegative(SpentBy(y, s))
  {
    if s.lease.Some? && KeyOf(s.lease.value) in y.committed {
      assert EntryOk(y.ledger, KeyOf(s.lease.value), y.committed[KeyOf(s.lease.value)]);
    }
  }

  lemma LocalKeepsCommitted(y: System, r: string, op: Runs.Op)
    requires Inv(y) && Admissible(y, Local(r, op))
    ensures CommittedOk(AfterLocal(y, r, op))
  {
    assert ReplicaOk(y, r);
    SpentNonNegative(y, y.replicas[r]);
    LocalEntryOk(y, r, op);
  }

  lemma LocalEntryOk(y: System, r: string, op: Runs.Op)
    requires CommittedOk(y) && r in y.replicas && ReplicaOk(y, r) && NonNegative(SpentBy(y, y.replicas[r]))
    requires !op.Refresh? && (op.Reserve? ==> NonNegative(op.values))
    ensures CommittedOk(AfterLocal(y, r, op))
  {
    LocalStateOk(y.ledger, y.replicas[r], SpentBy(y, y.replicas[r]), op);
  }

  lemma LocalOnlyReplica(y: System, r: string, op: Runs.Op)
    requires Exclusive(y) && MessagesOk(y) && r in y.replicas
    requires KeyAt(AfterLocal(y, r, op).replicas[r]) == KeyAt(y.replicas[r])
    ensures OnlyReplica(y, AfterLocal(y, r, op), r)
  {
    SameKey(y, AfterLocal(y, r, op), r);
  }

  lemma LocalKeepsInv(y: System, r: string, op: Runs.Op)
    requires Inv(y) && Admissible(y, Local(r, op))
    ensures Inv(AfterLocal(y, r, op))
  {
    LocalReplicaOk(y, r, op);
    LocalOnlyReplica(y, r, op);
    OnlyReplicaKeepsReplicas(y, AfterLocal(y, r, op), r);
    OnlyReplicaKeepsMessages(y, AfterLocal(y, r, op), r);
    LocalKeepsCommitted(y, r, op);
  }

  /** Every event keeps the invariant. */
  lemma StepKeepsInv(cfg: Config, y: System, ev: Event)
    requires Inv(y) && Admissible(y, ev)
    ensures Inv(Next(cfg, y, ev))
  {
    match ev
    case Authority(op) => AuthorityKeepsInv(cfg, y, op);
    case Install(r, lease) => InstallKeepsInv(y, r, lease);
    case Refresh(r, lease) => RefreshKeepsInv(cfg, y, r, lease);
    case Local(r, op) => LocalKeepsInv(y, r, op);
    case Crash(r) =>
      var y' := Next(cfg, y, ev);
      forall q | q in y'.replicas ensures ReplicaOk(y', q) { assert ReplicaOk(y, q); }
      forall l | l in y'.grants ensures Fresh(y', l) { assert Fresh(y, l); }
  }

  // The bound on spending.

  ghost function SpentSlice(committed: map<Key, Meters>, e: string, m: string): map<Key, real> {
    map key | key in committed :: if key.executionID == e then At(committed[key], m) else 0.0
  }

  /** All that replicas ever committed against leases of an execution. */
  ghost function SpentAt(y: System, e: string, m: string): real {
    Sum(SpentSlice(y.committed, e, m))
  }

  ghost function UnchargedSlice(y: System, e: string, m: string): map<Key, real> {
    map key | key in y.ledger.closed ::
      if key.executionID == e
      then Max(0.0, At(CommittedOf(y, key), m) - At(y.ledger.closed[key].charged, m)) else 0.0
  }

  /** What was committed against closed leases beyond what they were charged. */
  ghost function UnchargedAt(y: System, e: string, m: string): real {
    Sum(UnchargedSlice(y, e, m))
  }

  ghost function Value(f: map<Key, real>, key: Key): real {
    if key in f then f[key] else 0.0
  }

  ghost function Pad(f: map<Key, real>, keys: set<Key>): (g: map<Key, real>)
    requires f.Keys <= keys
    ensures g.Keys == keys && forall key | key in keys :: g[key] == Value(f, key)
    ensures Sum(g) == Sum(f)
  {
    var g := map key | key in keys :: Value(f, key);
    SumPad(f, g);
    g
  }

  /** Lease by lease: a live lease spends within its grant, a closed one within its charge plus what went uncharged. */
  lemma SpentOnLease(y: System, e: string, m: string, key: Key)
    requires Inv(y)
    ensures Value(SpentSlice(y.committed, e, m), key)
         <= Value(L.LiveSlice(y.ledger.store.leases, e, m), key)
          + Value(L.ChargedSlice(y.ledger.closed, e, m), key) + Value(UnchargedSlice(y, e, m), key)
  {
    if key in y.committed {
      assert EntryOk(y.ledger, key, y.committed[key]);
    } else if key in y.ledger.store.leases {
      assert NonNegative(y.ledger.store.leases[key].granted);
    }
  }

  /** What was committed against a live lease is within its grant. */
  lemma CommittedWithin(y: System, key: Key, m: string)
    requires Inv(y) && key in y.ledger.store.leases
    ensures 0.0 <= At(CommittedOf(y, key), m) <= At(y.ledger.store.leases[key].granted, m)
  {
    assert NonNegative(y.ledger.store.leases[key].granted);
    if key in y.committed {
      assert EntryOk(y.ledger, key, y.committed[key]);
    }
  }

  lemma CommittedKnown(y: System)
    requires Inv(y)
    ensures y.committed.Keys <= y.ledger.store.leases.Keys + y.ledger.closed.Keys
  {
    forall key | key in y.committed ensures Known(y.ledger, key) {
      assert EntryOk(y.ledger, key, y.committed[key]);
    }
  }

  lemma SpentOnAllLeases(y: System, e: string, m: string)
    requires Inv(y)
    ensures SpentAt(y, e, m)
         <= L.LiveAt(y.ledger.store.leases, e, m) + L.ChargedAt(y.ledger.closed, e, m) + UnchargedAt(y, e, m)
  {
    var keys := y.ledger.store.leases.Keys + y.ledger.closed.Keys;
    CommittedKnown(y);
    var spent := Pad(SpentSlice(y.committed, e, m), keys);
    var live := Pad(L.LiveSlice(y.ledger.store.leases, e, m), keys);
    var charged := Pad(L.ChargedSlice(y.ledger.closed, e, m), keys);
    var uncharged := Pad(UnchargedSlice(y, e, m), keys);
    forall key | key in keys ensures spent[key] <= live[key] + charged[key] + uncharged[key] {
      SpentOnLease(y, e, m, key);
    }
    SumWithinThree(spent, live, charged, uncharged);
  }

  /** What is spent and what remains together exceed the limit by at most what went uncharged. */
  lemma SpendBound(y: System, e: string, m: string)
    requires Inv(y) && e in y.ledger.store.budgets
    ensures var b := y.ledger.store.budgets[e];
      At(b.remaining, m) >= 0.0 && SpentAt(y, e, m) + At(b.remaining, m) <= At(b.limits, m) + UnchargedAt(y, e, m)
  {
    SpentOnAllLeases(y, e, m);
    assert L.Balanced(y.ledger, e, m);
  }

  const START := System(L.EMPTY, map[], {}, {}, {}, map[])

  ghost predicate AdmissibleRun(cfg: Config, y: System, events: seq<Event>)
    decreases |events|
  {
    events == [] || (Admissible(y, events[0]) && AdmissibleRun(cfg, Next(cfg, y, events[0]), events[1..]))
  }

  ghost function Run(cfg: Config, y: System, events: seq<Event>): System
    requires AdmissibleRun(cfg, y, events)
    decreases |events|
  {
    if events == [] then y else Run(cfg, Next(cfg, y, events[0]), events[1..])
  }

  lemma {:induction false} RunKeepsInv(cfg: Config, y: System, events: seq<Event>)
    requires Inv(y) && AdmissibleRun(cfg, y, events)
    ensures Inv(Run(cfg, y, events))
    decreases |events|
  {
    if events != [] {
      StepKeepsInv(cfg, y, events[0]);
      RunKeepsInv(cfg, Next(cfg, y, events[0]), events[1..]);
    }
  }

  /** In every interleaving, total committed spend is at most the limit plus what closed leases were not charged. */
  lemma SpendWithinLimitPlusUncharged(cfg: Config, events: seq<Event>, e: string, m: string)
    requires AdmissibleRun(cfg, START, events)
    requires e in Run(cfg, START, events).ledger.store.budgets
    ensures var y := Run(cfg, START, events);
      SpentAt(y, e, m) <= At(y.ledger.store.budgets[e].limits, m) + UnchargedAt(y, e, m)
  {
    RunKeepsInv(cfg, START, events);
    SpendBound(Run(cfg, START, events), e, m);
  }

  /** The documented S <= B, for every run in which each close is charged at least what was committed. */
  lemma NoOverspendWhenCharged(cfg: Config, events: seq<Event>, e: string, m: string)
    requires AdmissibleRun(cfg, START, events)
    requires var y := Run(cfg, START, events);
      && e in y.ledger.store.budgets
      && forall key | key in y.ledger.closed && key.executionID == e ::
           At(CommittedOf(y, key), m) <= At(y.ledger.closed[key].charged, m)
    ensures var y := Run(cfg, START, events); SpentAt(y, e, m) <= At(y.ledger.store.budgets[e].limits, m)
  {
    var y := Run(cfg, START, events);
    SpendWithinLimitPlusUncharged(cfg, events, e, m);
    SumZero(UnchargedSlice(y, e, m));
  }
}
